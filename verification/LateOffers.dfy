/** Texts offered to the speaking simulation after a reset was asked for and before its
    loop handles it. */
module LateOffers {
  import opened Edges
  import opened Sequences
  import opened Text
  import opened SpeakingSimulation

  function After(y: System, labels: seq<Label>): System {
    if labels == [] then y
    else Step(After(y, labels[..|labels| - 1]), labels[|labels| - 1])
  }

  /** The same steps without the offers. */
  function WithoutOffers(labels: seq<Label>): seq<Label> {
    if labels == [] then []
    else
      var last := labels[|labels| - 1];
      WithoutOffers(labels[..|labels| - 1]) + (if last.Offer? then [] else [last])
  }

  /** The loop neither handles the reset nor exits. */
  predicate Waiting(labels: seq<Label>) {
    forall i :: 0 <= i < |labels| ==> labels[i] != LoopReset && labels[i] != LoopExit
  }

  function SpokenCount(y: System): nat { |SpokenWords(y.sim.sent)| }

  // ---------- With and without the late offers ----------

  /** `a` is what `b` would be with late offers, none of whose words is spoken yet: they
      are still in the channel, or queued behind all that `b` has. */
  ghost predicate Shadows(a: System, b: System) {
    && Resets(a, LoopReset) && Resets(b, LoopReset)
    && b.texts <= a.texts && b.sim.words <= a.sim.words
    && (a.sim.words == b.sim.words ==> a.sim == b.sim)
    && (a.sim.words != b.sim.words ==>
          && b.texts == [] && a.sim.isSpeaking && (a.sim.timer == Running || a.sim.timer == Ticked)
          && b.sim == if b.sim.words != [] then a.sim.(words := b.sim.words)
                      else Sim([], Unset, false, a.sim.sent + [SpeakingEnded]))
  }

  function StepWithout(b: System, l: Label): System { if l.Offer? then b else Step(b, l) }

  /** A late word is spoken: more words are out than `b` can ever speak. */
  ghost predicate Outspoken(a: System, b: System) {
    SpokenCount(a) > SpokenCount(b) + |Unspoken(b)|
  }

  lemma {:induction false} TickShadows(a: System, b: System)
    requires Shadows(a, b) && Good(a.sim) && Good(b.sim)
    ensures Shadows(Step(a, LoopTick), Step(b, LoopTick)) || Outspoken(Step(a, LoopTick), b)
  {
    hide Fields, Alternates;
    if a.sim.timer == Ticked && a.sim.words != b.sim.words {
      var word := a.sim.words[0];
      if b.sim.words != [] {
        assert b.sim.words[0] == word;
        assert a.sim.words[1..] != [];
      } else {
        SpokenAppend(a.sim.sent, SpokenWord(word));
        SpokenAppend(a.sim.sent + [SpokenWord(word)], SpeakingEnded);
        SpokenAppend(a.sim.sent, SpeakingEnded);
        assert AllWords(b.texts) == [];
      }
    }
  }

  lemma {:induction false} TextShadows(a: System, b: System)
    requires Shadows(a, b) && Good(a.sim) && Good(b.sim)
    ensures Shadows(Step(a, LoopText), Step(b, LoopText)) || Outspoken(Step(a, LoopText), b)
  {
    hide Fields, Alternates;
    if b.texts == [] && a.texts != [] {
      var more := Fields(a.texts[0]);
      assert AllWords(b.texts) == [];
      if more != [] && a.sim.timer == Unset {
        FirstWordSpoken(a.sim, a.texts[0]);
        assert a.sim == b.sim;
      }
    }
  }

  /** From silence a text with a word speaks its first word at once. */
  lemma {:induction false} FirstWordSpoken(s: Sim, text: string)
    requires InStep(s) && s.timer == Unset && Fields(text) != []
    ensures SpokenWords(OnText(s, text).sent) == SpokenWords(s.sent) + [Fields(text)[0]]
  {
    hide Fields;
    var more := Fields(text);
    assert s.words + more == more;
    SpokenAppend(s.sent, SpeakingStarted);
    SpokenAppend(s.sent + [SpeakingStarted], SpokenWord(more[0]));
    SpokenAppend(s.sent + [SpeakingStarted] + [SpokenWord(more[0])], SpeakingEnded);
  }

  lemma {:induction false} StepShadows(a: System, b: System, l: Label)
    requires Shadows(a, b) && Good(a.sim) && Good(b.sim) && l != LoopReset && l != LoopExit
    ensures Shadows(Step(a, l), StepWithout(b, l)) || Outspoken(Step(a, l), b)
  {
    hide Fields, Alternates;
    match l
    case LoopTick => TickShadows(a, b);
    case LoopText => TextShadows(a, b);
    case _ =>
  }

  // ---------- Counting words ----------

  lemma {:induction false} SpeaksOnly(y: System, l: Label)
    requires l != LoopReset && l != LoopExit
    ensures SpokenCount(Step(y, l)) >= SpokenCount(y)
  {
    hide Fields;
    match l
    case LoopText => if y.texts != [] { TextSpeaksOn(y.sim, y.texts[0]); }
    case LoopTick => NextSpeaksOn(y.sim.(timer := Spent));
    case _ =>
  }

  /** Without offers, every word spoken is one that was waiting. */
  lemma {:induction false} WaitingWordsKept(y: System, l: Label)
    requires Good(y.sim) && l != LoopReset && l != LoopExit && !l.Offer?
    ensures SpokenCount(Step(y, l)) + |Unspoken(Step(y, l))| == SpokenCount(y) + |Unspoken(y)|
  {
    hide Fields;
    match l
    case LoopText =>
      if y.running && y.texts != [] {
        TextExtendsFlow(y.sim, y.texts[0]);
        assert AllWords(y.texts) == Fields(y.texts[0]) + AllWords(y.texts[1..]);
      }
    case LoopTick => SendNextKeepsFlow(y.sim.(timer := Spent));
    case _ =>
  }

  // ---------- Runs ----------

  lemma {:induction false} AfterSteps(y: System, labels: seq<Label>, l: Label)
    ensures After(y, labels + [l]) == Step(After(y, labels), l)
  {
    assert (labels + [l])[..|labels|] == labels;
  }

  lemma {:induction false} WithoutStep(y: System, labels: seq<Label>)
    requires labels != []
    ensures var n := |labels| - 1;
            After(y, WithoutOffers(labels)) == StepWithout(After(y, WithoutOffers(labels[..n])), labels[n])
  {
    hide Step;
    var n := |labels| - 1;
    AfterSteps(y, WithoutOffers(labels[..n]), labels[n]);
    assert WithoutOffers(labels[..n]) + [] == WithoutOffers(labels[..n]);
  }

  lemma {:induction false} AfterGood(y: System, labels: seq<Label>)
    requires Good(y.sim)
    ensures Good(After(y, labels).sim)
  {
    hide Step, Good;
    if labels != [] {
      AfterGood(y, labels[..|labels| - 1]);
      StepKeepsGood(After(y, labels[..|labels| - 1]), labels[|labels| - 1]);
    }
  }

  /** Either no late word has been spoken and the one run shadows the other, or more
      words are out than were waiting when the reset was asked for. */
  lemma {:induction false} ShadowedOrOutspoken(y: System, labels: seq<Label>)
    requires Good(y.sim) && Resets(y, LoopReset) && Waiting(labels)
    ensures var a, b := After(y, labels), After(y, WithoutOffers(labels));
            && Good(a.sim) && Good(b.sim)
            && SpokenCount(b) + |Unspoken(b)| == SpokenCount(y) + |Unspoken(y)|
            && (Shadows(a, b) || SpokenCount(a) > SpokenCount(y) + |Unspoken(y)|)
  {
    hide Step, Good, SpokenWords, Unspoken;
    if labels != [] {
      hide Shadows;
      var n := |labels| - 1;
      var l := labels[n];
      var a, b := After(y, labels[..n]), After(y, WithoutOffers(labels[..n]));
      ShadowedOrOutspoken(y, labels[..n]);
      AfterGood(y, labels);
      AfterGood(y, WithoutOffers(labels));
      WithoutStep(y, labels);
      SpeaksOnly(a, l);
      if Shadows(a, b) { StepShadows(a, b, l); }
      if !l.Offer? { WaitingWordsKept(b, l); }
    }
  }

  lemma {:induction false} ShadowsReset(a: System, b: System)
    requires Shadows(a, b) && Good(a.sim) && Good(b.sim)
    ensures Step(a, LoopReset) == Step(b, LoopReset) && SpokenCount(a) == SpokenCount(b)
  {
    hide Fields, Alternates;
    if a.sim.words != b.sim.words && b.sim.words == [] {
      SpokenAppend(a.sim.sent, SpeakingEnded);
    }
  }

  /** A reset that was asked for is meant to drop what is offered from then on. Whatever
      happens before the loop handles it, the state it leaves is the one without the
      late offers if and only if the loop speaks no more words in between than were
      waiting, queued or in the channel, when the reset was asked for. */
  lemma {:induction false} LateOffersAreLost(history: seq<Label>, labels: seq<Label>)
    requires Resets(Run(history), LoopReset) && Waiting(labels)
    ensures var y := Run(history);
            Step(After(y, labels), LoopReset) == Step(After(y, WithoutOffers(labels)), LoopReset)
            <==> SpokenCount(After(y, labels)) <= SpokenCount(y) + |Unspoken(y)|
  {
    hide Step, Good, SpokenWords, Unspoken, Shadows, Run;
    var y := Run(history);
    AlwaysGood(history);
    ShadowedOrOutspoken(y, labels);
    var a, b := After(y, labels), After(y, WithoutOffers(labels));
    if Shadows(a, b) {
      ShadowsReset(a, b);
    } else {
      StillResets(y, labels);
      WaitingWithout(labels);
      StillResets(y, WithoutOffers(labels));
      ResetKeepsCount(a);
      ResetKeepsCount(b);
    }
  }

  lemma {:induction false} WaitingWithout(labels: seq<Label>)
    requires Waiting(labels)
    ensures Waiting(WithoutOffers(labels))
  {
    if labels != [] { WaitingWithout(labels[..|labels| - 1]); }
  }

  lemma {:induction false} StillResets(y: System, labels: seq<Label>)
    requires Resets(y, LoopReset) && Waiting(labels)
    ensures Resets(After(y, labels), LoopReset)
  {
    hide Fields;
    if labels != [] { StillResets(y, labels[..|labels| - 1]); }
  }

  lemma ResetKeepsCount(y: System)
    requires Resets(y, LoopReset)
    ensures SpokenCount(Step(y, LoopReset)) == SpokenCount(y)
  {
    ResetSpeaksNothing(y.sim);
  }

  // ---------- Both outcomes ----------

  /** A late text that the loop takes from silence is spoken although the reset came first. */
  lemma {:induction false} LateTextSpoken(text: string)
    requires Fields(text) != []
    ensures Run([OfferReset, Offer(text), LoopText, LoopReset]).sim.sent
            == [SpeakingStarted, SpokenWord(Fields(text)[0]), SpeakingEnded]
  {
    hide Fields;
    var a, b := [OfferReset], [OfferReset, Offer(text)];
    var c, d := b + [LoopText], b + [LoopText, LoopReset];
    assert a[..0] == [] && b[..1] == a && c[..2] == b && d[..3] == c;
    assert Run([]) == InitialSystem();
    assert Run(b).texts == [text] && Run(b).sim == InitialSim();
    assert d == [OfferReset, Offer(text), LoopText, LoopReset];
  }

  /** A late text that the loop takes while earlier words are queued is queued behind
      them, and can still be lost without a trace. */
  lemma {:induction false} LateTextQueued(early: string, late: string)
    requires |Fields(early)| >= 2
    ensures Run([Offer(early), LoopText, OfferReset, Offer(late), LoopText, LoopReset])
            == Run([Offer(early), LoopText, OfferReset, LoopReset])
  {
    hide Fields;
    var h := [Offer(early), LoopText, OfferReset];
    var a, b := h + [Offer(late)], h + [Offer(late), LoopText];
    var c, d := h + [Offer(late), LoopText, LoopReset], h + [LoopReset];
    assert h[..2][..1][..0] == [] && h[..2][..1] == [Offer(early)] && h[..2] == [Offer(early), LoopText];
    assert a[..3] == h && b[..4] == a && c[..5] == b && d[..3] == h;
    assert Run([]) == InitialSystem();
    assert Run([Offer(early)]).texts == [early];
    assert Run(h).sim.timer == Running && Run(h).texts == [];
    assert Run(a).texts == [late];
    assert Run(b).sim.sent == Run(h).sim.sent && Run(b).sim.isSpeaking;
    assert c == [Offer(early), LoopText, OfferReset, Offer(late), LoopText, LoopReset];
    assert d == [Offer(early), LoopText, OfferReset, LoopReset];
  }
}
