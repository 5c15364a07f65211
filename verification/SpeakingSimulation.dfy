/** The word-by-word speaking simulation and its channels. */
module SpeakingSimulation {
  import opened Edges
  import opened Sequences
  import opened Text
  import opened TextTheorems

  const CHANNEL_CAPACITY := 100

  /** A one-shot timer variable: unset, counting, fired with its tick still in the
      channel, or fired with the tick already taken. */
  datatype Timer = Unset | Running | Ticked | Spent

  datatype Event = SpeakingStarted | SpeakingEnded | SpokenWord(word: string)

  datatype Sim = Sim(words: seq<string>, timer: Timer, isSpeaking: bool, sent: seq<Event>)

  function InitialSim(): Sim { Sim([], Unset, false, []) }

  function Emit(s: Sim, e: Event): Sim { s.(sent := s.sent + [e]) }

  function EndSpeaking(s: Sim): Sim {
    if s.isSpeaking then Emit(s.(isSpeaking := false), SpeakingEnded) else s
  }

  function SendNextWord(s: Sim): Sim {
    if s.words == [] then s
    else
      var s1 := Emit(s.(words := s.words[1..]), SpokenWord(s.words[0]));
      if s1.words != [] then s1.(timer := Running)
      else EndSpeaking(s1.(timer := Unset))
  }

  function OnText(s: Sim, text: string): Sim {
    var newWords := Fields(text);
    if newWords == [] then s
    else
      var s1 := if !s.isSpeaking && s.words == [] then Emit(s.(isSpeaking := true), SpeakingStarted) else s;
      var s2 := s1.(words := s1.words + newWords);
      if s2.timer == Unset then SendNextWord(s2) else s2
  }

  function OnReset(s: Sim): Sim {
    EndSpeaking(s.(words := [], timer := Unset))
  }

  /** The loop took the tick: speak the next word. */
  function OnTick(s: Sim): Sim {
    var s1 := s.(timer := Spent);
    if s1.words != [] then SendNextWord(s1)
    else EndSpeaking(s1.(timer := Unset))  // marked "should not happen"
  }

  /** The simulation with its two channels, whether its loop still runs, and the words
      accepted since the last reset was handled. */
  datatype System = System(sim: Sim, texts: seq<string>, resetPending: bool, running: bool, accepted: seq<string>)

  function InitialSystem(): System { System(InitialSim(), [], false, true, []) }

  datatype Label = Offer(text: string) | OfferReset | TimerFires | LoopText | LoopReset | LoopTick | LoopExit

  /** A full text channel drops the offer; a step that is not possible changes nothing.
      A handled reset empties the text channel; an exiting loop leaves it as it is. */
  function Step(y: System, l: Label): System {
    match l
    case Offer(text) =>
      if |y.texts| >= CHANNEL_CAPACITY then y
      else y.(texts := y.texts + [text], accepted := y.accepted + Fields(text))
    case OfferReset => y.(resetPending := true)
    case TimerFires => if y.sim.timer == Running then y.(sim := y.sim.(timer := Ticked)) else y
    case LoopText =>
      if !y.running || y.texts == [] then y else y.(sim := OnText(y.sim, y.texts[0]), texts := y.texts[1..])
    case LoopReset =>
      if !Resets(y, l) then y
      else y.(sim := OnReset(y.sim), texts := [], resetPending := false, accepted := [])
    case LoopTick => if y.running && y.sim.timer == Ticked then y.(sim := OnTick(y.sim)) else y
    case LoopExit =>
      if !Resets(y, l) then y else y.(sim := OnReset(y.sim), running := false, accepted := AllWords(y.texts))
  }

  /** The steps that drop queued words. */
  predicate Resets(y: System, l: Label) {
    y.running && (l == LoopExit || (l == LoopReset && y.resetPending))
  }

  function AllWords(texts: seq<string>): seq<string> {
    if texts == [] then [] else Fields(texts[0]) + AllWords(texts[1..])
  }

  function Run(labels: seq<Label>): System {
    if labels == [] then InitialSystem()
    else Step(Run(labels[..|labels| - 1]), labels[|labels| - 1])
  }

  // ---------- The loop's own state ----------

  class SimulationLoop {
    var words: seq<string>
    var timer: Timer
    var isSpeaking: bool
    var sent: seq<Event>

    ghost function Now(): Sim
      reads this
    {
      Sim(words, timer, isSpeaking, sent)
    }

    constructor ()
      ensures Now() == InitialSim()
    {
      words, timer, isSpeaking, sent := [], Unset, false, [];
    }

    method SendPacket(e: Event)
      modifies this`sent
      ensures sent == old(sent) + [e]
    {
      sent := sent + [e];
    }

    method StopSpeaking()
      modifies this`isSpeaking, this`sent
      ensures Now() == EndSpeaking(old(Now()))
    {
      if isSpeaking {
        isSpeaking := false;
        SendPacket(SpeakingEnded);
      }
    }

    method SendNext()
      modifies this
      ensures Now() == SendNextWord(old(Now()))
    {
      if |words| == 0 { return; }
      var word := words[0];
      words := words[1..];
      SendPacket(SpokenWord(word));
      if |words| > 0 {
        if timer == Unset {
          timer := Running;
        } else {
          if timer == Ticked { timer := Spent; }  // stop failed: drain the tick
          timer := Running;
        }
      } else {
        if timer != Unset { timer := Unset; }
        StopSpeaking();
      }
    }

    method ReceiveText(text: string)
      modifies this
      ensures Now() == OnText(old(Now()), text)
    {
      hide Fields;
      var newWords := Fields(text);
      if |newWords| == 0 { return; }
      var wasSpeaking := isSpeaking;
      if !wasSpeaking && |words| == 0 {
        isSpeaking := true;
        SendPacket(SpeakingStarted);
      }
      words := words + newWords;
      if timer == Unset && |words| > 0 { SendNext(); }
    }

    method ReceiveReset()
      modifies this
      ensures Now() == OnReset(old(Now()))
    {
      words := [];
      if timer != Unset { timer := Unset; }
      StopSpeaking();
    }

    method ReceiveTick()
      requires timer == Ticked
      modifies this
      ensures Now() == OnTick(old(Now()))
    {
      timer := Spent;
      if |words| > 0 {
        SendNext();
      } else {
        timer := Unset;
        StopSpeaking();
      }
    }
  }

  // ---------- Properties ----------

  /** At a loop head: speaking, words queued and timer armed are the same thing. */
  ghost predicate InStep(s: Sim) {
    && (s.isSpeaking <==> s.words != [])
    && (s.isSpeaking <==> s.timer != Unset)
    && s.timer != Spent
  }

  function EdgeOf(e: Event): Edge {
    match e
    case SpeakingStarted => Start
    case SpeakingEnded => End
    case SpokenWord(_) => Neither
  }

  /** Words only come out while speaking. */
  predicate WordsWhileSpeaking(sent: seq<Event>) {
    forall i :: 0 <= i < |sent| && sent[i].SpokenWord? ==> Alternates(EdgeOf, sent[..i], true)
  }

  lemma {:induction false} EmitAlternates(s: Sim, e: Event, active: bool)
    requires Alternates(EdgeOf, s.sent, active) && WordsWhileSpeaking(s.sent)
    requires if EdgeOf(e) == Start then !active else active
    ensures Alternates(EdgeOf, Emit(s, e).sent, Switch(EdgeOf(e), active)) && WordsWhileSpeaking(Emit(s, e).sent)
  {
    AlternatesOn(EdgeOf, s.sent, e, active);
    var sent := Emit(s, e).sent;
    forall i | 0 <= i <= |s.sent| ensures sent[..i] == s.sent[..i] {}
  }

  ghost predicate Good(s: Sim) {
    InStep(s) && Alternates(EdgeOf, s.sent, s.isSpeaking) && WordsWhileSpeaking(s.sent)
  }

  lemma {:induction false} SendNextKeepsGood(s: Sim)
    requires s.isSpeaking && s.words != [] && Alternates(EdgeOf, s.sent, true) && WordsWhileSpeaking(s.sent)
    ensures Good(SendNextWord(s))
  {
    EmitAlternates(s, SpokenWord(s.words[0]), true);
    EmitAlternates(Emit(s, SpokenWord(s.words[0])), SpeakingEnded, true);
  }

  lemma {:induction false} StepKeepsGood(y: System, l: Label)
    requires Good(y.sim)
    ensures Good(Step(y, l).sim)
  {
    var s := y.sim;
    match l
    case LoopText =>
      if y.texts != [] && Fields(y.texts[0]) != [] {
        if !s.isSpeaking {
          EmitAlternates(s, SpeakingStarted, false);
          SendNextKeepsGood(Emit(s.(isSpeaking := true), SpeakingStarted).(words := s.words + Fields(y.texts[0])));
        }
      }
    case LoopReset => if s.isSpeaking { EmitAlternates(s, SpeakingEnded, true); }
    case LoopExit => if s.isSpeaking { EmitAlternates(s, SpeakingEnded, true); }
    case LoopTick => if s.timer == Ticked { SendNextKeepsGood(s.(timer := Spent)); }
    case _ =>
  }

  /** In every reachable state, speaking is the same as words queued and as the timer
      being armed, and start and end events alternate around the spoken words. */
  lemma {:induction false} AlwaysGood(labels: seq<Label>)
    ensures Good(Run(labels).sim)
  {
    if labels != [] {
      AlwaysGood(labels[..|labels| - 1]);
      StepKeepsGood(Run(labels[..|labels| - 1]), labels[|labels| - 1]);
    }
  }

  /** A tick always finds a word to speak: the defensive branch is dead. */
  lemma {:induction false} TickFindsAWord(labels: seq<Label>)
    requires Run(labels).sim.timer == Ticked
    ensures Run(labels).sim.words != []
  {
    AlwaysGood(labels);
  }

  lemma {:induction false} StepStaysSilent(y: System, l: Label)
    requires InStep(y.sim) && (!y.running ==> !y.sim.isSpeaking)
    ensures !Step(y, l).running ==> !Step(y, l).sim.isSpeaking
  {
    hide Fields;
  }

  lemma {:induction false} ExitedIsSilent(labels: seq<Label>)
    ensures Good(Run(labels).sim) && (!Run(labels).running ==> !Run(labels).sim.isSpeaking)
  {
    AlwaysGood(labels);
    if labels != [] {
      hide Step, Alternates;
      var n := |labels| - 1;
      ExitedIsSilent(labels[..n]);
      StepStaysSilent(Run(labels[..n]), labels[n]);
    }
  }

  /** Once the loop has exited the bot is silent, and every start has had its end. */
  lemma {:induction false} ExitEndsSpeaking(labels: seq<Label>)
    requires !Run(labels).running
    ensures !Run(labels).sim.isSpeaking && Alternates(EdgeOf, Run(labels).sim.sent, false)
  {
    hide Run, Alternates;
    ExitedIsSilent(labels);
  }

  // ---------- Conservation of words ----------

  function SpokenWords(sent: seq<Event>): seq<string> {
    if sent == [] then []
    else
      var last := sent[|sent| - 1];
      SpokenWords(sent[..|sent| - 1]) + (if last.SpokenWord? then [last.word] else [])
  }

  lemma {:induction false} AllWordsAppend(texts: seq<string>, text: string)
    ensures AllWords(texts + [text]) == AllWords(texts) + Fields(text)
  {
    hide Fields;
    if texts == [] {
      assert [text][1..] == [] && Fields(text) + [] == Fields(text);
    } else {
      AllWordsAppend(texts[1..], text);
      assert (texts + [text])[1..] == texts[1..] + [text];
    }
  }

  lemma {:induction false} SpokenAppend(sent: seq<Event>, e: Event)
    ensures SpokenWords(sent + [e]) == SpokenWords(sent) + (if e.SpokenWord? then [e.word] else [])
  {
    assert (sent + [e])[..|sent|] == sent;
  }

  /** Spoken words then queued words. */
  function Flow(s: Sim): seq<string> { SpokenWords(s.sent) + s.words }

  lemma {:induction false} SendNextKeepsFlow(s: Sim)
    ensures Flow(SendNextWord(s)) == Flow(s)
  {
    if s.words != [] {
      SpokenAppend(s.sent, SpokenWord(s.words[0]));
      SpokenAppend(s.sent + [SpokenWord(s.words[0])], SpeakingEnded);
      assert SpokenWords(s.sent) + [s.words[0]] + s.words[1..] == SpokenWords(s.sent) + s.words;
    }
  }

  lemma {:induction false} TextExtendsFlow(s: Sim, text: string)
    ensures Flow(OnText(s, text)) == Flow(s) + Fields(text)
  {
    hide Fields;
    var more := Fields(text);
    if more != [] {
      SpokenAppend(s.sent, SpeakingStarted);
      var s1 := if !s.isSpeaking && s.words == [] then Emit(s.(isSpeaking := true), SpeakingStarted) else s;
      SendNextKeepsFlow(s1.(words := s1.words + more));
      assert SpokenWords(s.sent) + (s.words + more) == SpokenWords(s.sent) + s.words + more;
    }
  }

  /** How many words had been spoken when the last reset was handled. */
  function SpokenAtReset(labels: seq<Label>): nat {
    if labels == [] then 0
    else
      var n := |labels| - 1;
      if Resets(Run(labels[..n]), labels[n])
      then |SpokenWords(Run(labels[..n]).sim.sent)|
      else SpokenAtReset(labels[..n])
  }

  /** `spoken` words were out at the last reset; since then spoken, queued and
      waiting words are the accepted ones. */
  ghost predicate Conserved(y: System, spoken: nat) {
    && spoken <= |SpokenWords(y.sim.sent)|
    && Flow(y.sim)[spoken..] + AllWords(y.texts) == y.accepted
  }

  lemma {:induction false} ResetSpeaksNothing(s: Sim)
    ensures SpokenWords(OnReset(s).sent) == SpokenWords(s.sent) && OnReset(s).words == []
  {
    SpokenAppend(s.sent, SpeakingEnded);
  }

  lemma {:induction false} NextSpeaksOn(s: Sim)
    ensures |SpokenWords(SendNextWord(s).sent)| >= |SpokenWords(s.sent)|
  {
    if s.words != [] {
      SpokenAppend(s.sent, SpokenWord(s.words[0]));
      SpokenAppend(s.sent + [SpokenWord(s.words[0])], SpeakingEnded);
    }
  }

  lemma {:induction false} TextSpeaksOn(s: Sim, text: string)
    ensures |SpokenWords(OnText(s, text).sent)| >= |SpokenWords(s.sent)|
  {
    hide Fields, SendNextWord, SpokenWords;
    var more := Fields(text);
    if more != [] {
      SpokenAppend(s.sent, SpeakingStarted);
      var s1 := if !s.isSpeaking && s.words == [] then Emit(s.(isSpeaking := true), SpeakingStarted) else s;
      NextSpeaksOn(s1.(words := s1.words + more));
    }
  }

  lemma {:induction false} TextConserves(y: System, spoken: nat)
    requires y.running && y.texts != [] && Conserved(y, spoken)
    ensures Conserved(Step(y, LoopText), spoken)
  {
    hide Fields;
    TextExtendsFlow(y.sim, y.texts[0]);
    TextSpeaksOn(y.sim, y.texts[0]);
    Regroup(Flow(y.sim), spoken, Fields(y.texts[0]), AllWords(y.texts[1..]));
  }

  lemma {:induction false} OfferConserves(y: System, spoken: nat, text: string)
    requires Conserved(y, spoken)
    ensures Conserved(Step(y, Offer(text)), spoken)
  {
    hide Fields;
    AllWordsAppend(y.texts, text);
    Regroup(Flow(y.sim), spoken, Fields(text), AllWords(y.texts));
  }

  lemma {:induction false} StepConserves(y: System, l: Label, spoken: nat)
    requires Good(y.sim) && Conserved(y, spoken)
    ensures Conserved(Step(y, l),
              if Resets(y, l) then |SpokenWords(y.sim.sent)| else spoken)
  {
    hide Fields;
    match l
    case Offer(text) => OfferConserves(y, spoken, text);
    case LoopText => if y.running && y.texts != [] { TextConserves(y, spoken); }
    case LoopReset => ResetSpeaksNothing(y.sim);
    case LoopExit => ResetSpeaksNothing(y.sim);
    case LoopTick =>
      SendNextKeepsFlow(y.sim.(timer := Spent));
      NextSpeaksOn(y.sim.(timer := Spent));
    case TimerFires =>
    case OfferReset =>
  }

  /** Between resets, the words spoken, then those queued, then those still in the
      channel are exactly the accepted words, in order. */
  lemma {:induction false} WordsConserved(labels: seq<Label>)
    ensures Conserved(Run(labels), SpokenAtReset(labels))
  {
    if labels != [] {
      var n := |labels| - 1;
      WordsConserved(labels[..n]);
      AlwaysGood(labels[..n]);
      StepConserves(Run(labels[..n]), labels[n], SpokenAtReset(labels[..n]));
    }
  }

  // ---------- What a reset drops ----------

  /** The accepted words that a reset handled now would drop: those queued and those
      still in the channel. */
  function Unspoken(y: System): seq<string> { y.sim.words + AllWords(y.texts) }

  /** A handled reset drops exactly the accepted words not yet spoken, whether they were
      accepted before or after the reset was asked for, and speaks none of them. */
  lemma {:induction false} ResetDropsUnspoken(labels: seq<Label>)
    requires Resets(Run(labels), LoopReset)
    ensures var y, y' := Run(labels), Run(labels + [LoopReset]);
            && SpokenAtReset(labels) <= |SpokenWords(y.sim.sent)|
            && SpokenWords(y.sim.sent)[SpokenAtReset(labels)..] + Unspoken(y) == y.accepted
            && SpokenWords(y'.sim.sent) == SpokenWords(y.sim.sent) && Unspoken(y') == [] == y'.accepted
  {
    hide Fields;
    var y := Run(labels);
    WordsConserved(labels);
    assert (labels + [LoopReset])[..|labels|] == labels;
    ResetSpeaksNothing(y.sim);
    Regroup(SpokenWords(y.sim.sent), SpokenAtReset(labels), y.sim.words, AllWords(y.texts));
    assert AllWords([]) == [];
  }

  // ---------- Pace ----------

  /** Speaking starts announced. */
  function Starts(sent: seq<Event>): nat {
    if sent == [] then 0
    else Starts(sent[..|sent| - 1]) + (if sent[|sent| - 1] == SpeakingStarted then 1 else 0)
  }

  /** Timer ticks that the loop has taken. */
  function TicksTaken(labels: seq<Label>): nat {
    if labels == [] then 0
    else
      var n := |labels| - 1;
      TicksTaken(labels[..n]) + (if TakesTick(Run(labels[..n]), labels[n]) then 1 else 0)
  }

  lemma {:induction false} StartsAppend(sent: seq<Event>, e: Event)
    ensures Starts(sent + [e]) == Starts(sent) + (if e == SpeakingStarted then 1 else 0)
  {
    assert (sent + [e])[..|sent|] == sent;
  }

  lemma {:induction false} NextSpeaksOne(s: Sim)
    requires s.words != []
    ensures |SpokenWords(SendNextWord(s).sent)| == |SpokenWords(s.sent)| + 1
    ensures Starts(SendNextWord(s).sent) == Starts(s.sent)
  {
    SpokenAppend(s.sent, SpokenWord(s.words[0]));
    SpokenAppend(s.sent + [SpokenWord(s.words[0])], SpeakingEnded);
    StartsAppend(s.sent, SpokenWord(s.words[0]));
    StartsAppend(s.sent + [SpokenWord(s.words[0])], SpeakingEnded);
  }

  /** Words out that neither a start nor a tick accounts for. */
  function Unpaced(s: Sim, ticks: nat): int { |SpokenWords(s.sent)| - Starts(s.sent) - ticks }

  lemma {:induction false} TextPaces(s: Sim, text: string)
    requires InStep(s)
    ensures Unpaced(OnText(s, text), 0) == Unpaced(s, 0)
  {
    hide Fields, SendNextWord, SpokenWords, Starts;
    var more := Fields(text);
    if more != [] && !s.isSpeaking {
      SpokenAppend(s.sent, SpeakingStarted);
      StartsAppend(s.sent, SpeakingStarted);
      NextSpeaksOne(Emit(s.(isSpeaking := true), SpeakingStarted).(words := s.words + more));
    }
  }

  lemma {:induction false} ResetPaces(s: Sim)
    ensures Unpaced(OnReset(s), 0) == Unpaced(s, 0)
  {
    SpokenAppend(s.sent, SpeakingEnded);
    StartsAppend(s.sent, SpeakingEnded);
  }

  predicate TakesTick(y: System, l: Label) { l == LoopTick && y.running && y.sim.timer == Ticked }

  lemma {:induction false} StepPaces(y: System, l: Label)
    requires InStep(y.sim)
    ensures Unpaced(Step(y, l).sim, if TakesTick(y, l) then 1 else 0) == Unpaced(y.sim, 0)
  {
    hide Fields, SendNextWord, SpokenWords, Starts, OnText, OnReset;
    match l
    case LoopText => if y.running && y.texts != [] { TextPaces(y.sim, y.texts[0]); }
    case LoopReset => ResetPaces(y.sim);
    case LoopExit => ResetPaces(y.sim);
    case LoopTick => if y.sim.timer == Ticked { NextSpeaksOne(y.sim.(timer := Spent)); }
    case _ =>
  }

  /** One word goes out with each announced start, one with each tick taken, and none
      otherwise. */
  lemma {:induction false} OneWordEach(labels: seq<Label>)
    ensures |SpokenWords(Run(labels).sim.sent)| == Starts(Run(labels).sim.sent) + TicksTaken(labels)
  {
    if labels != [] {
      hide Step, SpokenWords, Starts, Alternates;
      var n := |labels| - 1;
      OneWordEach(labels[..n]);
      AlwaysGood(labels[..n]);
      StepPaces(Run(labels[..n]), labels[n]);
    } else {
      assert SpokenWords([]) == [] && Starts([]) == 0;
    }
  }

  /** The text channel never holds more than 100 texts, and takes an offer exactly when
      it holds fewer. */
  lemma {:induction false} ChannelHolds(labels: seq<Label>, text: string)
    ensures var y := Run(labels);
            |y.texts| <= 100 &&
            Step(y, Offer(text)).texts == if |y.texts| == 100 then y.texts else y.texts + [text]
  {
    hide Fields;
    if labels != [] { ChannelHolds(labels[..|labels| - 1], text); }
  }

  /** A text taken by the loop queues exactly its words: those that white space sets
      apart in it. */
  lemma {:induction false} TextQueuesItsWords(s: Sim, text: string, words: seq<string>)
    ensures LaidOut(text, words) ==> Flow(OnText(s, text)) == Flow(s) + words
  {
    hide LaidOut;
    FieldsExact(text, words);
    TextExtendsFlow(s, text);
  }
}
