/** What every run of the interruption gate keeps, with stale tokens and orphan timers allowed. */
module GateTheorems {
  import opened ActivityControl

  /** Something is under way that will resume the flow: a timer, its callback, or a token. */
  predicate Pending(g: Gate) { g.armed != {} || g.due != {} || g.token }

  ghost predicate Safe(g: Gate) {
    && (g.cache != [] ==> g.suspended)
    && (g.suspended ==> Pending(g))
    && (forall p :: p in g.cache ==> p.event.Audio?)
    && (forall t :: t in g.armed || t in g.due ==> NO_TIMER < t < g.nextTimer) && NO_TIMER < g.nextTimer
  }

  /** A non-empty cache implies suspended, and a suspended gate has a timer armed or
      gone off, or a token waiting: the gate never leaks and never sticks. */
  lemma {:induction false} AlwaysSafe(labels: seq<Label>)
    ensures Safe(Run(InitialGate(), labels))
  {
    if labels != [] {
      var n := |labels| - 1;
      AlwaysSafe(labels[..n]);
      var g := Run(InitialGate(), labels[..n]);
      if labels[n].Arrive? && labels[n].packet.event.InterruptionSuspected? {
        assert g.nextTimer in g.armed + {g.nextTimer};
      }
      if labels[n].Expire? { assert labels[n].timer in g.due + {labels[n].timer}; }
    }
  }

  function AudioOf(packets: seq<Packet>): seq<Packet> {
    if packets == [] then []
    else
      var last := packets[|packets| - 1];
      AudioOf(packets[..|packets| - 1]) + (if last.event.Audio? then [last] else [])
  }

  lemma {:induction false} AudioOfLast(packets: seq<Packet>, p: Packet)
    ensures AudioOf(packets + [p]) == AudioOf(packets) + (if p.event.Audio? then [p] else [])
  {
    assert (packets + [p])[..|packets|] == packets;
  }

  lemma {:induction false} AudioOfConcat(a: seq<Packet>, b: seq<Packet>)
    ensures AudioOf(a + b) == AudioOf(a) + AudioOf(b)
  {
    if b == [] {
      assert a + b == a;
    } else {
      hide AudioOf;
      var n := |b| - 1;
      AudioOfConcat(a, b[..n]);
      assert a + b == a + b[..n] + [b[n]] && b == b[..n] + [b[n]];
      AudioOfLast(a + b[..n], b[n]);
      AudioOfLast(b[..n], b[n]);
    }
  }

  lemma {:induction false} AllAudio(packets: seq<Packet>)
    requires forall p :: p in packets ==> p.event.Audio?
    ensures AudioOf(packets) == packets
  {
    if packets != [] {
      var n := |packets| - 1;
      AllAudio(packets[..n]);
      assert packets == packets[..n] + [packets[n]];
    }
  }

  lemma {:induction false} DurationsConcat(a: seq<Packet>, b: seq<Packet>)
    ensures Durations(a + b) == Durations(a) + Durations(b)
  {
    if b == [] {
      assert a + b == a;
    } else {
      var n := |b| - 1;
      DurationsConcat(a, b[..n]);
      assert (a + b)[..|a + b| - 1] == a + b[..n];
    }
  }

  lemma {:induction false} AudioOfOne(p: Packet)
    ensures AudioOf([p]) == if p.event.Audio? then [p] else []
  {
    assert [p][..0] == [];
  }

  /** The audio a step lets out: the whole cache at a resume, else at most the arriving packet. */
  function Released(g: Gate, l: Label): seq<Packet> {
    if l.Resume? && g.token then g.cache
    else if l.Arrive? && l.packet.event.Audio? && !g.suspended then [l.packet]
    else []
  }

  function Emitted(g: Gate, l: Label): seq<Packet> {
    match l
    case Arrive(p) =>
      if p.event.Audio? && g.suspended then []
      else if p.event.InterruptionConfirmed? && g.speaking then [EndedBroadcast(), p]
      else [p]
    case Resume => if g.token then g.cache else []
    case _ => []
  }

  lemma {:induction false} StepEmits(g: Gate, l: Label)
    ensures Step(g, l).sent == g.sent + Emitted(g, l)
  {
    assert g.sent + [] == g.sent;
  }

  lemma {:induction false} EmittedAudio(g: Gate, l: Label)
    requires forall p :: p in g.cache ==> p.event.Audio?
    ensures AudioOf(Emitted(g, l)) == Released(g, l)
  {
    match l
    case Arrive(p) =>
      AudioOfOne(p);
      AudioOfOne(EndedBroadcast());
      AudioOfConcat([EndedBroadcast()], [p]);
    case Resume => AllAudio(g.cache);
    case _ =>
  }

  lemma {:induction false} StepReleases(g: Gate, l: Label)
    requires forall p :: p in g.cache ==> p.event.Audio?
    ensures AudioOf(Step(g, l).sent) == AudioOf(g.sent) + Released(g, l)
  {
    StepEmits(g, l);
    EmittedAudio(g, l);
    AudioOfConcat(g.sent, Emitted(g, l));
  }

  /** While suspended nothing that arrives lets audio out. */
  lemma {:induction false} SuspendedForwardsNoAudio(labels: seq<Label>, p: Packet)
    requires Run(InitialGate(), labels).suspended
    ensures AudioOf(Handle(Run(InitialGate(), labels), p).sent) == AudioOf(Run(InitialGate(), labels).sent)
  {
    AlwaysSafe(labels);
    StepReleases(Run(InitialGate(), labels), Arrive(p));
  }

  // ---------- Conservation ----------

  /** Audio received, in order of arrival. */
  function Received(labels: seq<Label>): seq<Packet> {
    if labels == [] then []
    else
      var last := labels[|labels| - 1];
      Received(labels[..|labels| - 1]) + (if last.Arrive? && last.packet.event.Audio? then [last.packet] else [])
  }

  predicate DropsCache(l: Label) {
    l.Arrive? && (l.packet.event.ResponseStarted? || l.packet.event.InterruptionConfirmed?)
  }

  /** Audio received and not lost: at a dropping step what is lost is the latest
      audio, as many packets as the cache held just before. */
  function Kept(labels: seq<Label>): seq<Packet> {
    if labels == [] then []
    else
      var n := |labels| - 1;
      KeptAfter(Kept(labels[..n]), |Run(InitialGate(), labels[..n]).cache|, labels[n])
  }

  predicate IsAudio(l: Label) { l.Arrive? && l.packet.event.Audio? }

  lemma {:induction false} StepCaches(g: Gate, l: Label)
    ensures Step(g, l).cache ==
            if DropsCache(l) || (l.Resume? && g.token) then []
            else if IsAudio(l) && g.suspended then g.cache + [l.packet]
            else g.cache
  {
  }

  lemma {:induction false} StepConserves(g: Gate, l: Label)
    requires Safe(g)
    ensures AudioOf(Step(g, l).sent) + Step(g, l).cache == KeptAfter(AudioOf(g.sent) + g.cache, |g.cache|, l)
  {
    StepReleases(g, l);
    StepCaches(g, l);
    KeptStep(AudioOf(g.sent), g.cache, g.suspended, g.token, l);
  }

  /** Conservation: audio forwarded followed by audio cached is exactly the audio
      received and not dropped, in order of arrival. */
  lemma {:induction false} AudioConserved(labels: seq<Label>)
    ensures AudioOf(Run(InitialGate(), labels).sent) + Run(InitialGate(), labels).cache == Kept(labels)
  {
    if labels != [] {
      var n := |labels| - 1;
      AudioConserved(labels[..n]);
      AlwaysSafe(labels[..n]);
      StepConserves(Run(InitialGate(), labels[..n]), labels[n]);
    }
  }

  function KeptAfter(kept: seq<Packet>, held: nat, l: Label): seq<Packet> {
    if DropsCache(l) then kept[..if held <= |kept| then |kept| - held else 0]
    else if IsAudio(l) then kept + [l.packet]
    else kept
  }

  lemma {:induction false} KeptStep(audio: seq<Packet>, cache: seq<Packet>, suspended: bool, token: bool, l: Label)
    requires cache != [] ==> suspended
    ensures KeptAfter(audio + cache, |cache|, l) ==
            if DropsCache(l) then audio
            else if l.Resume? && token then audio + cache + []
            else if IsAudio(l) && suspended then audio + (cache + [l.packet])
            else if IsAudio(l) then audio + [l.packet] + cache
            else audio + [] + cache
  {
    assert (audio + cache)[..|audio|] == audio;
  }

  predicate Latest(cache: seq<Packet>, received: seq<Packet>) {
    |cache| <= |received| && cache == received[|received| - |cache|..]
  }

  lemma {:induction false} LatestGrows(cache: seq<Packet>, received: seq<Packet>, p: Packet)
    requires Latest(cache, received)
    ensures Latest(cache + [p], received + [p])
  {
    var at := |received| - |cache|;
    assert (received + [p])[at..] == received[at..] + [p];
  }

  lemma NoneIsLatest(received: seq<Packet>)
    ensures Latest([], received)
  {}

  /** The cache is always the most recently received audio, so only the latest
      packets can ever be dropped. */
  lemma {:induction false} CacheIsLatest(labels: seq<Label>)
    ensures Latest(Run(InitialGate(), labels).cache, Received(labels))
  {
    hide Latest, Step;
    if labels == [] {
      NoneIsLatest([]);
    } else {
      var n := |labels| - 1;
      var g, l := Run(InitialGate(), labels[..n]), labels[n];
      CacheIsLatest(labels[..n]);
      AlwaysSafe(labels[..n]);
      StepCaches(g, l);
      NoneIsLatest(Received(labels));
      if IsAudio(l) {
        LatestGrows(g.cache, Received(labels[..n]), l.packet);
      } else {
        assert Received(labels) == Received(labels[..n]);
      }
    }
  }

  // ---------- Sent duration ----------

  predicate ResetsDuration(l: Label) {
    l.Arrive? &&
    (l.packet.event.SpeakingStarted? || l.packet.event.ResponseStarted? || l.packet.event.InterruptionConfirmed?)
  }

  /** How much audio had been forwarded when the duration was last reset. */
  function Mark(labels: seq<Label>): nat {
    if labels == [] then 0
    else
      var n := |labels| - 1;
      if ResetsDuration(labels[n]) then |AudioOf(Run(InitialGate(), labels[..n]).sent)| else Mark(labels[..n])
  }

  lemma {:induction false} StepAddsDuration(g: Gate, l: Label)
    ensures Step(g, l).sentDuration ==
            if ResetsDuration(l) then 0.0 else g.sentDuration + Durations(Released(g, l))
  {
    if IsAudio(l) && !g.suspended { assert [l.packet][..0] == []; }
  }

  /** The duration of everything in `audio` from index m on. */
  function DurationFrom(audio: seq<Packet>, m: nat): real {
    Durations(if m <= |audio| then audio[m..] else [])
  }

  lemma {:induction false} DurationGrows(audio: seq<Packet>, m: nat, released: seq<Packet>)
    requires m <= |audio|
    ensures DurationFrom(audio + released, m) == DurationFrom(audio, m) + Durations(released)
  {
    assert (audio + released)[m..] == audio[m..] + released;
    DurationsConcat(audio[m..], released);
  }

  /** `totalSentDuration` is the duration of the audio forwarded since the last reset. */
  lemma {:induction false} SentDurationExact(labels: seq<Label>)
    ensures var g := Run(InitialGate(), labels);
            Mark(labels) <= |AudioOf(g.sent)| && g.sentDuration == DurationFrom(AudioOf(g.sent), Mark(labels))
  {
    if labels != [] {
      var n := |labels| - 1;
      var g, l := Run(InitialGate(), labels[..n]), labels[n];
      SentDurationExact(labels[..n]);
      AlwaysSafe(labels[..n]);
      StepReleases(g, l);
      StepAddsDuration(g, l);
      DurationGrows(AudioOf(g.sent), Mark(labels), Released(g, l));
      if ResetsDuration(l) { assert Released(g, l) == [] && Durations([]) == 0.0; }
    }
  }

  // ---------- Resumption ----------

  /** No packet arrives, and only callbacks of the given timers run. */
  ghost predicate Internal(labels: seq<Label>, timers: set<nat>) {
    forall i :: 0 <= i < |labels| ==> !labels[i].Arrive? && (labels[i].Fire? ==> labels[i].timer in timers)
  }

  lemma {:induction false} RunOneMore(g: Gate, labels: seq<Label>, l: Label)
    ensures Run(g, labels + [l]) == Step(Run(g, labels), l)
  {
    assert (labels + [l])[..|labels|] == labels;
  }

  /** The suspension is over, and everything held back was sent, in order. */
  predicate Drained(g: Gate, g': Gate) {
    !g'.suspended && g'.cache == [] && g'.sent == g.sent + g.cache
  }

  lemma {:induction false} TokenDrains(g: Gate)
    requires g.token
    ensures Drained(g, Run(g, [Resume]))
  {
    RunOneMore(g, [], Resume);
    assert [] + [Resume] == [Resume];
  }

  lemma {:induction false} DueDrains(g: Gate, t: nat)
    requires t in g.due
    ensures Drained(g, Run(g, [Fire(t), Resume]))
  {
    hide Drained;
    var one := [Fire(t)];
    RunOneMore(g, [], Fire(t));
    assert [] + [Fire(t)] == one;
    RunOneMore(g, one, Resume);
    assert one + [Resume] == [Fire(t), Resume];
    SameDrained(g, Run(g, one));
  }

  lemma {:induction false} ArmedDrains(g: Gate, t: nat)
    requires t in g.armed
    ensures Drained(g, Run(g, [Expire(t), Fire(t), Resume]))
  {
    hide Drained;
    var one, two := [Expire(t)], [Expire(t), Fire(t)];
    RunOneMore(g, [], Expire(t));
    assert [] + [Expire(t)] == one;
    RunOneMore(g, one, Fire(t));
    assert one + [Fire(t)] == two;
    RunOneMore(g, two, Resume);
    assert two + [Resume] == [Expire(t), Fire(t), Resume];
    SameDrained(g, Run(g, two));
  }

  /** Timers going off change nothing that a resumption lets out. */
  lemma SameDrained(g: Gate, g1: Gate)
    requires g1.token && g1.cache == g.cache && g1.sent == g.sent
    ensures Drained(g, Step(g1, Resume))
  {}

  /** Any of the given timers, or a token, is enough to let the whole cache out in order. */
  lemma {:induction false} Drain(g: Gate, armed: set<nat>, due: set<nat>) returns (labels: seq<Label>)
    requires armed <= g.armed && due <= g.due && (armed != {} || due != {} || g.token)
    ensures Internal(labels, armed + due) && Drained(g, Run(g, labels))
  {
    hide Run, Drained;
    if g.token {
      TokenDrains(g);
      labels := [Resume];
    } else if due != {} {
      var t :| t in due;
      DueDrains(g, t);
      labels := [Fire(t), Resume];
    } else {
      var t :| t in armed;
      ArmedDrains(g, t);
      labels := [Expire(t), Fire(t), Resume];
    }
  }

  /** A suspended gate can always be released from inside, with everything it held back. */
  lemma {:induction false} NeverStuck(labels: seq<Label>)
    requires Run(InitialGate(), labels).suspended
    ensures var g := Run(InitialGate(), labels);
            exists more :: Internal(more, g.armed + g.due) && Drained(g, Run(g, more))
  {
    AlwaysSafe(labels);
    var g := Run(InitialGate(), labels);
    var more := Drain(g, g.armed, g.due);
  }

  /** Neither a confirmation occurs nor the callback of the given timer. */
  ghost predicate Without(labels: seq<Label>, timer: nat) {
    forall i :: 0 <= i < |labels| ==>
      labels[i] != Fire(timer) && !Confirms(labels[i])
  }

  /** The promise of the confirmation timeout: an interruption suspected now keeps
      audio back until it is confirmed or its own timer has fired. */
  ghost predicate WaitsForOwnTimer(g: Gate, p: Packet) {
    forall labels :: Without(labels, g.nextTimer) ==> Run(Handle(g, p), labels).suspended
  }

  lemma {:induction false} StaysSuspended(g: Gate, timer: nat, labels: seq<Label>)
    requires g.suspended && !g.token && g.armed <= {timer} && g.due <= {timer} && Without(labels, timer)
    ensures var g' := Run(g, labels); g'.suspended && !g'.token && g'.armed <= {timer} && g'.due <= {timer}
  {
    if labels != [] {
      var n := |labels| - 1;
      StaysSuspended(g, timer, labels[..n]);
    }
  }

  /** The promise does not always hold: a resume token left behind by an earlier
      timer, or an earlier timer still at work, releases the audio early. It holds
      exactly when the suspicion finds none of them. */
  lemma {:induction false} OwnTimerPromise(history: seq<Label>, p: Packet)
    requires !Run(InitialGate(), history).suspended && p.event.InterruptionSuspected?
    ensures var g := Run(InitialGate(), history); WaitsForOwnTimer(g, p) <==> !Pending(g)
  {
    var g := Run(InitialGate(), history);
    var g1 := Handle(g, p);
    AlwaysSafe(history);
    if !Pending(g) {
      forall labels | Without(labels, g.nextTimer) ensures Run(g1, labels).suspended {
        StaysSuspended(g1, g.nextTimer, labels);
      }
    } else {
      var early := Drain(g1, g.armed, g.due);
      assert Without(early, g.nextTimer) && !Run(g1, early).suspended;
    }
  }

  /** Neither a confirmation occurs nor the given timer goes off. */
  ghost predicate InTime(labels: seq<Label>, timer: nat) {
    forall i :: 0 <= i < |labels| ==> labels[i] != Expire(timer) && !Confirms(labels[i])
  }

  lemma {:induction false} OnlyOwnTimer(g: Gate, timer: nat, labels: seq<Label>)
    requires g.suspended && !g.token && g.armed == {timer} && g.due == {} && g.timer == timer && InTime(labels, timer)
    ensures var g' := Run(g, labels);
            g'.suspended && !g'.token && g'.armed == {timer} && g'.due == {} && g'.timer == timer
  {
    if labels != [] { OnlyOwnTimer(g, timer, labels[..|labels| - 1]); }
  }

  /** A confirmation in time cancels everything the suspicion set in motion: from a gate
      with nothing under way, a suspicion confirmed before its timer goes off leaves a
      gate with nothing under way, not suspended and with nothing held back. So the
      confirmation timeout is kept for the next suspicion again. */
  lemma {:induction false} ConfirmedInTime(history: seq<Label>, p: Packet, labels: seq<Label>, confirm: Packet)
    requires var g := Run(InitialGate(), history); !g.suspended && !Pending(g) && InTime(labels, g.nextTimer)
    requires p.event.InterruptionSuspected? && confirm.event.InterruptionConfirmed?
    ensures var g := Run(InitialGate(), history);
            var after := Handle(Run(Handle(g, p), labels), confirm);
            !Pending(after) && !after.suspended && after.cache == []
  {
    var g := Run(InitialGate(), history);
    OnlyOwnTimer(Handle(g, p), g.nextTimer, labels);
  }

  /** Confirming just after the timer went off leaves such a token behind: the stop
      neither catches the callback nor drains the resume channel. */
  lemma {:induction false} StaleTokenReachable(suspect: Packet, confirm: Packet)
    requires suspect.event.InterruptionSuspected? && confirm.event.InterruptionConfirmed?
    ensures var history := [Arrive(suspect), Expire(1), Arrive(confirm), Fire(1)];
            !Run(InitialGate(), history).suspended && Run(InitialGate(), history).token
  {
    var a, b := [Arrive(suspect)], [Arrive(suspect), Expire(1)];
    var c, d := b + [Arrive(confirm)], b + [Arrive(confirm), Fire(1)];
    assert a[..0] == [] && b[..1] == a && c[..2] == b && d[..3] == c;
    assert Run(InitialGate(), []) == InitialGate();
    assert Run(InitialGate(), a).armed == {1};
    assert Run(InitialGate(), b).due == {1};
    assert Run(InitialGate(), c).due == {1};
    assert d == [Arrive(suspect), Expire(1), Arrive(confirm), Fire(1)];
  }

  // ---------- Packets that are not audio ----------

  /** Every packet that is not audio goes out at once, unchanged and last; the only
      packet ever added is the one that tells the whole pipeline that the bot has
      stopped, ahead of a confirmation and exactly when it was announced as speaking. */
  lemma {:induction false} EventsPassAtOnce(labels: seq<Label>, p: Packet)
    requires !p.event.Audio?
    ensures var g := Run(InitialGate(), labels);
            Handle(g, p).sent ==
              g.sent + (if p.event.InterruptionConfirmed? && Announced(g.sent)
                        then [Packet(SpeakingEnded, TopService, 0)] else []) + [p]
  {
    hide Announced;
    SpeechIsAnnounced(labels);
    var g := Run(InitialGate(), labels);
    assert g.sent + [] == g.sent;
  }

  /** A duration is the sum over the audio packets, and over nothing else. */
  lemma {:induction false} DurationsAddUp(packets: seq<Packet>, p: Packet)
    ensures Durations([]) == 0.0
    ensures Durations(packets + [p]) == Durations(packets) + if p.event.Audio? then p.event.duration else 0.0
  {
    assert (packets + [p])[..|packets|] == packets;
  }

  // ---------- Announced speech ----------

  /** What the packets sent so far tell the rest of the pipeline: the bot is speaking. */
  function Announced(sent: seq<Packet>): bool {
    if sent == [] then false
    else
      match sent[|sent| - 1].event
      case SpeakingStarted => true
      case SpeakingEnded => false
      case _ => Announced(sent[..|sent| - 1])
  }

  lemma {:induction false} AnnouncedConcat(a: seq<Packet>, b: seq<Packet>)
    requires forall p :: p in b ==> p.event.Audio?
    ensures Announced(a + b) == Announced(a)
  {
    if b == [] {
      assert a + b == a;
    } else {
      var n := |b| - 1;
      AnnouncedConcat(a, b[..n]);
      assert (a + b)[..|a + b| - 1] == a + b[..n];
    }
  }

  lemma AnnouncedOne(a: seq<Packet>, p: Packet)
    ensures Announced(a + [p]) ==
            match p.event case SpeakingStarted => true case SpeakingEnded => false case _ => Announced(a)
  {
    assert (a + [p])[..|a|] == a;
  }

  predicate Confirms(l: Label) { l.Arrive? && l.packet.event.InterruptionConfirmed? }

  /** What has been announced is what the handler believes, and a confirmed
      interruption always leaves the bot announced as silent. */
  lemma {:induction false} SpeechIsAnnounced(labels: seq<Label>)
    ensures var g := Run(InitialGate(), labels); Announced(g.sent) == g.speaking
    ensures labels != [] && Confirms(labels[|labels| - 1]) ==> !Announced(Run(InitialGate(), labels).sent)
  {
    if labels != [] {
      var n := |labels| - 1;
      var g, l := Run(InitialGate(), labels[..n]), labels[n];
      SpeechIsAnnounced(labels[..n]);
      AlwaysSafe(labels[..n]);
      StepAnnounces(g, l);
    }
  }

  lemma {:induction false} StepAnnounces(g: Gate, l: Label)
    requires Announced(g.sent) == g.speaking && forall p :: p in g.cache ==> p.event.Audio?
    ensures Announced(Step(g, l).sent) == Step(g, l).speaking
    ensures Confirms(l) ==> !Step(g, l).speaking
  {
    hide Announced;
    StepEmits(g, l);
    match l
    case Arrive(p) =>
      if Emitted(g, l) == [p] {
        AnnouncedOne(g.sent, p);
      } else if Emitted(g, l) == [EndedBroadcast(), p] {
        AnnouncedOne(g.sent, EndedBroadcast());
        AnnouncedOne(g.sent + [EndedBroadcast()], p);
        assert g.sent + [EndedBroadcast(), p] == g.sent + [EndedBroadcast()] + [p];
      } else {
        AnnouncedConcat(g.sent, []);
      }
    case Resume => AnnouncedConcat(g.sent, g.cache);
    case _ =>
  }
}
