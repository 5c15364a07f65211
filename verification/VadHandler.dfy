/** Speech edges from per-chunk voice confidence. */
module VadHandler {
  import opened Edges
  import opened Options

  /** Times and durations in nanoseconds. */
  const BASE_GRACE := 300_000_000
  const PATIENCE_RESET := 5_000_000_000

  datatype Config = Config(minConfidence: real, allowInterruptions: bool, patienceIncrease: int)

  datatype Event = SpeechStarted | SpeechEnded | UserSpeaking | Silence | InterruptionSuspected

  datatype State = State(
    lastSpeech: Option<int>, inGrace: bool, active: bool, botSpeaking: bool,
    grace: int, lastInterruption: Option<int>)

  function Initial(): State { State(None, false, false, false, BASE_GRACE, None) }

  /** Increased patience reverts once enough time has passed. */
  function ResetPatience(s: State, now: int): State {
    if s.lastInterruption.Some? && now - s.lastInterruption.value > PATIENCE_RESET
    then s.(grace := BASE_GRACE, lastInterruption := None) else s
  }

  /** One chunk: None is a failure of the detector. */
  function OnAudio(c: Config, s: State, now: int, confidence: Option<real>): (State, seq<Event>) {
    var s1 := ResetPatience(s, now);
    if confidence.None? then (s1, [])
    else if confidence.value >= c.minConfidence then
      var s2 := s1.(lastSpeech := Some(now), inGrace := false, active := true);
      if s1.active then (s2, [UserSpeaking])
      else if s1.botSpeaking && c.allowInterruptions then
        (s2.(grace := BASE_GRACE + c.patienceIncrease, lastInterruption := Some(now)),
         [SpeechStarted, InterruptionSuspected, UserSpeaking])
      else (s2, [SpeechStarted, UserSpeaking])
    else if s1.lastSpeech.Some? && now - s1.lastSpeech.value <= s1.grace then
      (s1.(inGrace := true, active := true), (if s1.active then [] else [SpeechStarted]) + [UserSpeaking])
    else
      (s1.(inGrace := false, active := false), (if s1.active then [SpeechEnded] else []) + [Silence])
  }

  class VADHandler {
    const config: Config
    var lastSpeechTime: Option<int>
    var isInGracePeriod: bool
    var isSpeechActive: bool
    var botSpeaking: bool
    var currentGracePeriod: int
    var lastInterruptionTime: Option<int>

    ghost function Now(): State
      reads this
    {
      State(lastSpeechTime, isInGracePeriod, isSpeechActive, botSpeaking, currentGracePeriod, lastInterruptionTime)
    }

    constructor (config: Config)
      ensures this.config == config && Now() == Initial()
    {
      this.config := config;
      lastSpeechTime, isInGracePeriod, isSpeechActive, botSpeaking := None, false, false, false;
      currentGracePeriod, lastInterruptionTime := BASE_GRACE, None;
    }

    method HandleTransportAudio(currentTime: int, confidence: Option<real>) returns (sent: seq<Event>)
      modifies this
      ensures Now() == OnAudio(config, old(Now()), currentTime, confidence).0
      ensures sent == OnAudio(config, old(Now()), currentTime, confidence).1
    {
      sent := [];
      if lastInterruptionTime.Some? && currentTime - lastInterruptionTime.value > PATIENCE_RESET {
        currentGracePeriod := BASE_GRACE;
        lastInterruptionTime := None;
      }
      if confidence.None? { return; }
      var isSpeech := confidence.value >= config.minConfidence;
      if isSpeech {
        lastSpeechTime := Some(currentTime);
        isInGracePeriod := false;
        if !isSpeechActive {
          isSpeechActive := true;
          sent := sent + [SpeechStarted];
          if botSpeaking && config.allowInterruptions {
            sent := sent + [InterruptionSuspected];
            currentGracePeriod := BASE_GRACE + config.patienceIncrease;
            lastInterruptionTime := Some(currentTime);
          }
        }
        sent := sent + [UserSpeaking];
      } else if lastSpeechTime.Some? && currentTime - lastSpeechTime.value <= currentGracePeriod {
        if !isInGracePeriod { isInGracePeriod := true; }
        if !isSpeechActive {
          isSpeechActive := true;
          sent := sent + [SpeechStarted];
        }
        sent := sent + [UserSpeaking];
      } else {
        isInGracePeriod := false;
        if isSpeechActive {
          isSpeechActive := false;
          sent := sent + [SpeechEnded];
        }
        sent := sent + [Silence];
      }
    }

    /** The bot's own start and end of speech. */
    method HandleBotSpeaking(speaking: bool)
      modifies this`botSpeaking
      ensures Now() == old(Now()).(botSpeaking := speaking)
    {
      botSpeaking := speaking;
    }
  }

  // ---------- Runs ----------

  datatype Input = Audio(time: int, confidence: Option<real>) | Bot(speaking: bool)
  datatype Run = Run(state: State, sent: seq<Event>)

  function Step(c: Config, r: Run, i: Input): Run {
    match i
    case Audio(now, confidence) =>
      var (s, events) := OnAudio(c, r.state, now, confidence);
      Run(s, r.sent + events)
    case Bot(speaking) => r.(state := r.state.(botSpeaking := speaking))
  }

  function After(c: Config, inputs: seq<Input>): Run {
    if inputs == [] then Run(Initial(), [])
    else Step(c, After(c, inputs[..|inputs| - 1]), inputs[|inputs| - 1])
  }

  predicate TimeFlows(inputs: seq<Input>) {
    forall i, j :: 0 <= i < j < |inputs| && inputs[i].Audio? && inputs[j].Audio? ==> inputs[i].time <= inputs[j].time
  }

  /** Nothing has been heard after `now`. */
  predicate NotAfter(inputs: seq<Input>, now: int) {
    forall i :: 0 <= i < |inputs| && inputs[i].Audio? ==> inputs[i].time <= now
  }

  // ---------- Alternation ----------

  function EdgeOf(e: Event): Edge {
    match e
    case SpeechStarted => Start
    case SpeechEnded => End
    case _ => Neither
  }

  /** The six things a chunk can emit, with speech active before and after. */
  predicate Shape(events: seq<Event>, before: bool, after: bool) {
    || (events == [] && before == after)
    || (events == [UserSpeaking] && before && after)
    || (events == [Silence] && !before && !after)
    || (events == [SpeechStarted, UserSpeaking] && !before && after)
    || (events == [SpeechStarted, InterruptionSuspected, UserSpeaking] && !before && after)
    || (events == [SpeechEnded, Silence] && before && !after)
  }

  lemma {:induction false} ChunkShape(c: Config, s: State, now: int, confidence: Option<real>)
    ensures var (s', events) := OnAudio(c, s, now, confidence); Shape(events, s.active, s'.active)
  {
  }

  lemma {:induction false} ShapeAlternates(sent: seq<Event>, events: seq<Event>, before: bool, after: bool)
    requires Shape(events, before, after) && Alternates(EdgeOf, sent, before)
    ensures Alternates(EdgeOf, sent + events, after)
  {
    hide Alternates;
    if |events| == 0 {
      assert sent + events == sent;
    } else {
      AlternatesOn(EdgeOf, sent, events[0], before);
      if |events| == 1 {
        assert sent + events == sent + [events[0]];
      } else {
        AlternatesOn(EdgeOf, sent + [events[0]], events[1], after);
        if |events| == 2 {
          assert sent + events == sent + [events[0]] + [events[1]];
        } else {
          AlternatesOn(EdgeOf, sent + [events[0]] + [events[1]], events[2], after);
          assert sent + events == sent + [events[0]] + [events[1]] + [events[2]];
        }
      }
    }
  }

  /** Speech starts and ends strictly alternate in every run. */
  lemma {:induction false} SpeechEdgesAlternate(c: Config, inputs: seq<Input>)
    ensures Alternates(EdgeOf, After(c, inputs).sent, After(c, inputs).state.active)
  {
    if inputs != [] {
      hide OnAudio, Alternates;
      var n := |inputs| - 1;
      var r := After(c, inputs[..n]);
      SpeechEdgesAlternate(c, inputs[..n]);
      if inputs[n].Audio? {
        var (s, events) := OnAudio(c, r.state, inputs[n].time, inputs[n].confidence);
        ChunkShape(c, r.state, inputs[n].time, inputs[n].confidence);
        ShapeAlternates(r.sent, events, r.state.active, s.active);
      }
    }
  }

  // ---------- Grace ----------

  /** An interruption leaves at least the usual grace, less one nanosecond. */
  predicate PatienceKept(c: Config) {
    !c.allowInterruptions || c.patienceIncrease >= -1
  }

  /** At the time of the last chunk: when speech is not active, the last of it lies
      further back than the grace in force, and a changed grace is still recent. */
  ghost predicate Settled(s: State, clock: int) {
    && (s.lastSpeech.Some? ==> s.lastSpeech.value <= clock)
    && (!s.active && s.lastSpeech.Some? ==> clock - s.lastSpeech.value > s.grace)
    && (s.lastInterruption.Some? ==> clock - s.lastInterruption.value <= PATIENCE_RESET)
    && (s.grace == BASE_GRACE || (s.grace >= BASE_GRACE - 1 && s.lastInterruption.Some?))
  }

  /** Time may pass, and patience revert, without bringing the last speech back into the grace. */
  lemma {:induction false} LaterStillSettled(s: State, clock: int, now: int)
    requires Settled(s, clock) && clock <= now
    ensures Settled(ResetPatience(s, now), now)
  {
  }

  lemma {:induction false} ReachableSettled(c: Config, inputs: seq<Input>, now: int)
    requires PatienceKept(c) && TimeFlows(inputs) && NotAfter(inputs, now)
    ensures exists clock :: clock <= now && Settled(After(c, inputs).state, clock)
  {
    if inputs == [] {
      assert Settled(After(c, inputs).state, now);
    } else {
      var n := |inputs| - 1;
      var last := inputs[n];
      var s := After(c, inputs[..n]).state;
      if last.Audio? {
        assert NotAfter(inputs[..n], last.time);
        ReachableSettled(c, inputs[..n], last.time);
        var clock :| clock <= last.time && Settled(s, clock);
        LaterStillSettled(s, clock, last.time);
        ChunkSettles(c, s, last.time, last.confidence);
        assert Settled(After(c, inputs).state, last.time);
      } else {
        assert NotAfter(inputs[..n], now);
        ReachableSettled(c, inputs[..n], now);
        var clock :| clock <= now && Settled(s, clock);
        assert Settled(After(c, inputs).state, clock);
      }
    }
  }

  lemma {:induction false} ChunkSettles(c: Config, s: State, now: int, confidence: Option<real>)
    requires PatienceKept(c) && Settled(ResetPatience(s, now), now)
    ensures Settled(OnAudio(c, s, now, confidence).0, now)
  {
  }

  /** Speech is only ever active once something was heard. */
  lemma {:induction false} ActiveWasHeard(c: Config, inputs: seq<Input>)
    ensures After(c, inputs).state.active ==> After(c, inputs).state.lastSpeech.Some?
  {
    if inputs != [] { ActiveWasHeard(c, inputs[..|inputs| - 1]); }
  }

  /** The last chunk heard as speech, if any. */
  function LastHeard(c: Config, inputs: seq<Input>): Option<int> {
    if inputs == [] then None
    else
      var last := inputs[|inputs| - 1];
      if last.Audio? && last.confidence.Some? && last.confidence.value >= c.minConfidence then Some(last.time)
      else LastHeard(c, inputs[..|inputs| - 1])
  }

  lemma {:induction false} LastHeardIsKept(c: Config, inputs: seq<Input>)
    ensures After(c, inputs).state.lastSpeech == LastHeard(c, inputs)
  {
    if inputs != [] { LastHeardIsKept(c, inputs[..|inputs| - 1]); }
  }

  /** Whether the bot was last reported to speak. */
  function BotSpeaking(inputs: seq<Input>): bool {
    if inputs == [] then false
    else if inputs[|inputs| - 1].Bot? then inputs[|inputs| - 1].speaking
    else BotSpeaking(inputs[..|inputs| - 1])
  }

  /** Whether the last chunk reported was reported as speech. */
  predicate Speaking(sent: seq<Event>) { sent != [] && sent[|sent| - 1] == UserSpeaking }

  lemma {:induction false} ShapeSpeaks(sent: seq<Event>, events: seq<Event>, before: bool, after: bool)
    requires Shape(events, before, after) && before == Speaking(sent)
    ensures Speaking(sent + events) == after
  {
    if events == [] { assert sent + events == sent; }
  }

  lemma {:induction false} HistoryIsKept(c: Config, inputs: seq<Input>)
    ensures After(c, inputs).state.botSpeaking == BotSpeaking(inputs)
    ensures After(c, inputs).state.active == Speaking(After(c, inputs).sent)
  {
    if inputs != [] {
      hide OnAudio, Speaking, Shape;
      var n := |inputs| - 1;
      var r := After(c, inputs[..n]);
      HistoryIsKept(c, inputs[..n]);
      if inputs[n].Audio? {
        var (s, events) := OnAudio(c, r.state, inputs[n].time, inputs[n].confidence);
        ChunkShape(c, r.state, inputs[n].time, inputs[n].confidence);
        ShapeSpeaks(r.sent, events, r.state.active, s.active);
        AudioKeepsBot(c, r.state, inputs[n].time, inputs[n].confidence);
      }
    }
  }

  lemma AudioKeepsBot(c: Config, s: State, now: int, confidence: Option<real>)
    ensures OnAudio(c, s, now, confidence).0.botSpeaking == s.botSpeaking
  {}

  /** What one processed chunk can emit after any run: exactly one of speaking and
      silence, last; a start or an end before it exactly when that differs from the last
      one reported; an end exactly when more than the grace in force has passed since the
      last chunk heard as speech, on a chunk that is not; a suspected interruption exactly
      when speech starts, on a chunk that is speech, while the bot speaks and may be
      interrupted. */
  lemma {:induction false} ChunkEffects(c: Config, inputs: seq<Input>, now: int, confidence: real)
    ensures var s := After(c, inputs).state; var (s', events) := OnAudio(c, s, now, Some(confidence));
            var before := Speaking(After(c, inputs).sent);
            && events != []
            && (forall i :: 0 <= i < |events| - 1 ==> !events[i].UserSpeaking? && !events[i].Silence?)
            && (events[|events| - 1] == UserSpeaking || events[|events| - 1] == Silence)
            && (SpeechStarted in events <==> !before && Speaking(events))
            && (SpeechEnded in events <==> before && !Speaking(events))
            && (SpeechEnded in events <==>
                  before && confidence < c.minConfidence && LastHeard(c, inputs).Some? &&
                  now - LastHeard(c, inputs).value > ResetPatience(s, now).grace)
            && (InterruptionSuspected in events <==>
                  SpeechStarted in events && confidence >= c.minConfidence && BotSpeaking(inputs) &&
                  c.allowInterruptions)
  {
    hide After;
    ActiveWasHeard(c, inputs);
    LastHeardIsKept(c, inputs);
    HistoryIsKept(c, inputs);
  }

  /** When an interruption was last suspected, if ever. */
  function LastSuspected(c: Config, inputs: seq<Input>): Option<int> {
    if inputs == [] then None
    else
      var n := |inputs| - 1;
      if inputs[n].Audio? &&
         InterruptionSuspected in OnAudio(c, After(c, inputs[..n]).state, inputs[n].time, inputs[n].confidence).1
      then Some(inputs[n].time)
      else LastSuspected(c, inputs[..n])
  }

  /** The grace at a given time: 300 ms, and the increase for five seconds after a
      suspected interruption. */
  function Grace(c: Config, inputs: seq<Input>, now: int): int {
    var suspected := LastSuspected(c, inputs);
    if suspected.Some? && now - suspected.value <= 5_000_000_000
    then 300_000_000 + c.patienceIncrease else 300_000_000
  }

  /** What is remembered of the last suspicion; one forgotten lies too far back. */
  ghost predicate Remembers(c: Config, s: State, suspected: Option<int>, now: int) {
    if s.lastInterruption.Some?
    then s.lastInterruption == suspected && s.grace == BASE_GRACE + c.patienceIncrease
    else s.grace == BASE_GRACE && (suspected.Some? ==> now - suspected.value > PATIENCE_RESET)
  }

  lemma {:induction false} ChunkRemembers(
    c: Config, s: State, suspected: Option<int>, now: int, confidence: Option<real>)
    requires Remembers(c, s, suspected, now)
    ensures var (s', events) := OnAudio(c, s, now, confidence);
            Remembers(c, s', if InterruptionSuspected in events then Some(now) else suspected, now)
  {
  }

  lemma {:induction false} SuspicionIsKept(c: Config, inputs: seq<Input>, now: int)
    requires TimeFlows(inputs) && NotAfter(inputs, now)
    ensures Remembers(c, After(c, inputs).state, LastSuspected(c, inputs), now)
  {
    if inputs != [] {
      hide OnAudio;
      var n := |inputs| - 1;
      if inputs[n].Audio? {
        assert NotAfter(inputs[..n], inputs[n].time);
        SuspicionIsKept(c, inputs[..n], inputs[n].time);
        ChunkRemembers(c, After(c, inputs[..n]).state, LastSuspected(c, inputs[..n]), inputs[n].time,
                       inputs[n].confidence);
      } else {
        assert NotAfter(inputs[..n], now);
        SuspicionIsKept(c, inputs[..n], now);
      }
    }
  }

  /** With clocks that run forward: a chunk is reported as speech exactly when it is
      speech, or comes within the grace of the last one that was; and that grace is
      lengthened exactly for five seconds after a suspected interruption. */
  lemma {:induction false} SpeakingWhen(c: Config, inputs: seq<Input>, now: int, confidence: real)
    requires TimeFlows(inputs) && NotAfter(inputs, now)
    ensures var s := After(c, inputs).state;
            && ResetPatience(s, now).grace == Grace(c, inputs, now)
            && (Speaking(OnAudio(c, s, now, Some(confidence)).1) <==>
                  confidence >= c.minConfidence ||
                  (LastHeard(c, inputs).Some? && now - LastHeard(c, inputs).value <= Grace(c, inputs, now)))
  {
    hide After, LastSuspected;
    SuspicionIsKept(c, inputs, now);
    LastHeardIsKept(c, inputs);
  }

  /** The detector reports a probability. */
  predicate Probability(p: real) { 0.0 <= p <= 1.0 }

  predicate Detected(inputs: seq<Input>) {
    forall i :: 0 <= i < |inputs| && inputs[i].Audio? && inputs[i].confidence.Some?
      ==> Probability(inputs[i].confidence.value)
  }

  /** Speech never starts on a chunk that is not speech itself, whatever was detected before. */
  ghost predicate StartsOnlyOnSpeech(c: Config) {
    forall inputs, now, low ::
      TimeFlows(inputs) && NotAfter(inputs, now) && Detected(inputs) && Probability(low) && low < c.minConfidence
      ==> SpeechStarted !in OnAudio(c, After(c, inputs).state, now, Some(low)).1
  }

  lemma {:induction false} QuietChunkStartsNothing(c: Config, inputs: seq<Input>, now: int, low: real)
    requires PatienceKept(c) && TimeFlows(inputs) && NotAfter(inputs, now) && low < c.minConfidence
    ensures SpeechStarted !in OnAudio(c, After(c, inputs).state, now, Some(low)).1
  {
    var s := After(c, inputs).state;
    ReachableSettled(c, inputs, now);
    var clock :| clock <= now && Settled(s, clock);
    LaterStillSettled(s, clock, now);
  }

  /** With a threshold that no confidence reaches, nothing is ever speech. */
  lemma {:induction false} NothingHeard(c: Config, inputs: seq<Input>)
    requires c.minConfidence > 1.0 && Detected(inputs)
    ensures After(c, inputs).state.lastSpeech.None?
  {
    if inputs != [] {
      var n := |inputs| - 1;
      NothingHeard(c, inputs[..n]);
      assert inputs[n].Audio? && inputs[n].confidence.Some? ==> Probability(inputs[n].confidence.value);
    }
  }

  /** With less patience after an interruption, speech can end while the shorter grace
      is in force and start again on a silent chunk once the usual grace is back. */
  lemma {:induction false} RestartOnSilence(c: Config)
    requires !PatienceKept(c) && 0.0 < c.minConfidence <= 1.0
    ensures !StartsOnlyOnSpeech(c)
  {
    var heard, quiet := Some(c.minConfidence), Some(0.0);
    var speech := PATIENCE_RESET + 1 - BASE_GRACE;
    var grace := BASE_GRACE + c.patienceIncrease;
    var a := [Bot(true)];
    var b := a + [Audio(0, heard)];
    var d := b + [Audio(speech, heard)];
    var e := d + [Audio(PATIENCE_RESET, quiet)];
    assert a[..0] == [] && b[..1] == a && d[..2] == b && e[..3] == d;
    assert After(c, []) == Run(Initial(), []);
    assert After(c, a).state == Initial().(botSpeaking := true);
    assert After(c, b).state == State(Some(0), false, true, true, grace, Some(0));
    assert After(c, d).state == State(Some(speech), false, true, true, grace, Some(0));
    assert After(c, e).state == State(Some(speech), false, false, true, grace, Some(0));
    var (_, events) := OnAudio(c, After(c, e).state, PATIENCE_RESET + 1, quiet);
    assert events[0] == SpeechStarted;
    assert NotAfter(e, PATIENCE_RESET + 1) && TimeFlows(e) && Detected(e) && Probability(0.0);
  }

  /** The branch that starts speech inside the grace period is dead, in every run
      whose clock does not go back, if and only if interruptions cost no patience, or
      the threshold is one that every confidence reaches or none does. */
  lemma {:induction false} GraceStartIsDead(c: Config)
    ensures StartsOnlyOnSpeech(c) <==> PatienceKept(c) || c.minConfidence <= 0.0 || c.minConfidence > 1.0
  {
    if PatienceKept(c) || c.minConfidence <= 0.0 || c.minConfidence > 1.0 {
      forall inputs, now, low |
        TimeFlows(inputs) && NotAfter(inputs, now) && Detected(inputs) && Probability(low) && low < c.minConfidence
        ensures SpeechStarted !in OnAudio(c, After(c, inputs).state, now, Some(low)).1
      {
        if PatienceKept(c) {
          QuietChunkStartsNothing(c, inputs, now, low);
        } else {
          NothingHeard(c, inputs);
        }
      }
    } else {
      RestartOnSilence(c);
    }
  }
}
