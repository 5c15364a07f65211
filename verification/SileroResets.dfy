/** The voice-activity model over sessions with its periodic resets. */
module SileroResets {
  import opened Options
  import opened Bytes
  import opened Framing
  import opened Sequences
  import opened Silero

  /** One call; `resetDue` when two seconds have passed since the last reset. */
  datatype Call = Call(audio: seq<byte>, resetDue: bool)

  /** The model, all it has computed, and the residual, after one more call. */
  function OneCall<H>(
    net: Network<H>, sampleRate: int, blank: H, before: Outcome<Model<H>, real, Inference>, call: Call)
    : Outcome<Model<H>, real, Inference>
    requires InputLength(sampleRate).Some?
  {
    var m := if call.resetDue then Model(blank, Zeros(|before.state.context|)) else before.state;
    var o := Listen(net, sampleRate, m, if call.resetDue then [] else before.rest, call.audio);
    Outcome(o.state, before.outputs + o.outputs, o.rest)
  }

  function Session<H>(net: Network<H>, sampleRate: int, blank: H, calls: seq<Call>)
    : Outcome<Model<H>, real, Inference>
    requires InputLength(sampleRate).Some?
  {
    if calls == [] then Outcome(Model(blank, []), [], [])
    else
      OneCall(net, sampleRate, blank, Session(net, sampleRate, blank, calls[..|calls| - 1]), calls[|calls| - 1])
  }

  /** The samples handed over, in stretches from one reset to the next. */
  function Stretches(calls: seq<Call>): (stretches: seq<seq<real>>)
    ensures stretches != []
  {
    if calls == [] then [[]]
    else
      var Call(audio, resetDue) := calls[|calls| - 1];
      var before := Stretches(calls[..|calls| - 1]);
      if resetDue then before + [Normalize(audio)]
      else before[..|before| - 1] + [before[|before| - 1] + Normalize(audio)]
  }

  function Last<T>(xs: seq<T>): T
    requires xs != []
  {
    xs[|xs| - 1]
  }

  /** The windows over each stretch, in turn; every stretch starts from a silent context. */
  function AllWindows(stretches: seq<seq<real>>, size: nat, contextSize: nat): seq<seq<real>>
    requires size > 0
  {
    if stretches == [] then []
    else
      AllWindows(stretches[..|stretches| - 1], size, contextSize)
      + Windows(Zeros(contextSize) + Last(stretches), size, contextSize)
  }

  /** The network's answers over each stretch, in turn; every stretch starts from a blank state. */
  function AllAnswers<H>(net: Network<H>, blank: H, stretches: seq<seq<real>>, size: nat, contextSize: nat): seq<real>
    requires size > 0
  {
    if stretches == [] then []
    else
      AllAnswers(net, blank, stretches[..|stretches| - 1], size, contextSize)
      + Answers(net, blank, Windows(Zeros(contextSize) + Last(stretches), size, contextSize)).1
  }

  lemma {:induction false} AnswersAppend<H>(net: Network<H>, hidden: H, a: seq<seq<real>>, b: seq<seq<real>>)
    ensures var (middle, first) := Answers(net, hidden, a); var (end, second) := Answers(net, middle, b);
            Answers(net, hidden, a + b) == (end, first + second)
  {
    if a == [] {
      assert a + b == b;
      assert [] + Answers(net, hidden, b).1 == Answers(net, hidden, b).1;
    } else {
      var (confidence, next) := net(a[0], hidden);
      AnswersAppend(net, next, a[1..], b);
      assert (a + b)[0] == a[0] && (a + b)[1..] == a[1..] + b;
      var first, second := Answers(net, next, a[1..]).1, Answers(net, Answers(net, next, a[1..]).0, b).1;
      assert [confidence] + (first + second) == [confidence] + first + second;
    }
  }

  // ---------- Windows of a growing stream ----------

  lemma {:induction false} WindowsAppend(stream: seq<real>, more: seq<real>, size: nat, contextSize: nat)
    requires size > 0
    ensures Windows(stream + more, size, contextSize)
            == Windows(stream, size, contextSize)
               + Windows(Leftover(stream, size, contextSize) + more, size, contextSize)
    ensures Leftover(stream + more, size, contextSize)
            == Leftover(Leftover(stream, size, contextSize) + more, size, contextSize)
    decreases |stream|
  {
    hide Windows, Leftover;
    if |stream| < contextSize + size {
      ShortStream(stream, size, contextSize);
      assert [] + Windows(stream + more, size, contextSize) == Windows(stream + more, size, contextSize);
    } else {
      WindowsAppend(stream[size..], more, size, contextSize);
      LongStream(stream, size, contextSize);
      LongStream(stream + more, size, contextSize);
      assert (stream + more)[size..] == stream[size..] + more;
      assert (stream + more)[..contextSize + size] == stream[..contextSize + size];
      var first, rest := [stream[..contextSize + size]], Windows(stream[size..], size, contextSize);
      Regroup(first, 0, rest, Windows(Leftover(stream[size..], size, contextSize) + more, size, contextSize));
    }
  }

  /** The windows and what is left over account for every sample after the context. */
  lemma {:induction false} WindowsCount(stream: seq<real>, size: nat, contextSize: nat)
    requires size > 0 && |stream| >= contextSize
    ensures var left := Leftover(stream, size, contextSize);
            && |stream| == Times(size, |Windows(stream, size, contextSize)|) + |left|
            && contextSize <= |left| < contextSize + size && left == stream[|stream| - |left|..]
    decreases |stream|
  {
    hide Windows, Leftover;
    if |stream| < contextSize + size {
      ShortStream(stream, size, contextSize);
    } else {
      WindowsCount(stream[size..], size, contextSize);
      LongStream(stream, size, contextSize);
    }
  }

  // ---------- Sessions ----------

  /** What has been computed and what is kept belong to these stretches. */
  ghost predicate Follows<H>(
    net: Network<H>, blank: H, o: Outcome<Model<H>, real, Inference>, stretches: seq<seq<real>>,
    size: nat, contextSize: nat)
    requires size > 0 && stretches != []
  {
    && Confidences(o.outputs) == AllAnswers(net, blank, stretches, size, contextSize)
    && o.state.hidden == Answers(net, blank, Windows(Zeros(contextSize) + Last(stretches), size, contextSize)).0
    && (o.state.context == [] || |o.state.context| == contextSize) && |o.rest| < size
    && Inputs(o.outputs) == AllWindows(stretches, size, contextSize)
    && StartContext(o.state, contextSize) + o.rest == Leftover(Zeros(contextSize) + Last(stretches), size, contextSize)
  }

  lemma InputsConcat(a: seq<Inference>, b: seq<Inference>)
    ensures Inputs(a + b) == Inputs(a) + Inputs(b)
    ensures Confidences(a + b) == Confidences(a) + Confidences(b)
  {}

  lemma {:induction false} ContextKept<H>(
    net: Network<H>, size: nat, contextSize: nat, m: Model<H>, buffer: seq<real>)
    requires size >= contextSize > 0 && (m.context == [] || |m.context| == contextSize)
    ensures var m' := Consume(size, InferStep(net, contextSize), m, buffer).state;
            m'.context == [] || |m'.context| == contextSize
    decreases |buffer|
  {
    hide Infer;
    if |buffer| >= size {
      InferWindow(net, contextSize, m, buffer[..size]);
      ContextKept(net, size, contextSize, Infer(net, contextSize, m, buffer[..size]).0, buffer[size..]);
    }
  }

  lemma {:induction false} SameStretch<H>(
    net: Network<H>, size: nat, contextSize: nat, blank: H, o: Outcome<Model<H>, real, Inference>,
    stretches: seq<seq<real>>, more: seq<real>)
    requires size >= contextSize > 0 && stretches != [] && Follows(net, blank, o, stretches, size, contextSize)
    ensures var next := Consume(size, InferStep(net, contextSize), o.state, o.rest + more);
            var n := |stretches| - 1;
            Follows(net, blank, Outcome(next.state, o.outputs + next.outputs, next.rest),
                    stretches[..n] + [stretches[n] + more], size, contextSize)
  {
    hide Consume, Windows, Leftover, Inputs, Answers, Confidences;
    var n := |stretches| - 1;
    var next := Consume(size, InferStep(net, contextSize), o.state, o.rest + more);
    var stream := Zeros(contextSize) + stretches[n];
    InputsAreWindows(net, size, contextSize, o.state, o.rest + more);
    ContextKept(net, size, contextSize, o.state, o.rest + more);
    assert StartContext(o.state, contextSize) + (o.rest + more) == Leftover(stream, size, contextSize) + more;
    WindowsAppend(stream, more, size, contextSize);
    assert stream + more == Zeros(contextSize) + (stretches[n] + more);
    InputsConcat(o.outputs, next.outputs);
    InferencesAreAnswers(net, size, contextSize, o.state, o.rest + more);
    var seen, added := Windows(stream, size, contextSize),
                     Windows(Leftover(stream, size, contextSize) + more, size, contextSize);
    AnswersAppend(net, blank, seen, added);
    Regroup(AllAnswers(net, blank, stretches[..n], size, contextSize), 0, Answers(net, blank, seen).1,
            Answers(net, o.state.hidden, added).1);
    var grown := stretches[..n] + [stretches[n] + more];
    assert grown[..n] == stretches[..n];
    Regroup(AllWindows(stretches[..n], size, contextSize), 0, Windows(stream, size, contextSize),
            Windows(Leftover(stream, size, contextSize) + more, size, contextSize));
  }

  lemma {:induction false} NewStretch<H>(
    net: Network<H>, size: nat, contextSize: nat, blank: H, o: Outcome<Model<H>, real, Inference>,
    stretches: seq<seq<real>>, samples: seq<real>)
    requires size >= contextSize > 0 && stretches != [] && Follows(net, blank, o, stretches, size, contextSize)
    ensures var m := Model(blank, Zeros(|o.state.context|));
            var next := Consume(size, InferStep(net, contextSize), m, [] + samples);
            Follows(net, blank, Outcome(next.state, o.outputs + next.outputs, next.rest), stretches + [samples], size,
                    contextSize)
  {
    hide Consume, Windows, Leftover, Inputs, Answers, Confidences;
    var m := Model(blank, Zeros(|o.state.context|));
    assert [] + samples == samples;
    var next := Consume(size, InferStep(net, contextSize), m, samples);
    InputsAreWindows(net, size, contextSize, m, samples);
    ContextKept(net, size, contextSize, m, samples);
    assert StartContext(m, contextSize) == Zeros(contextSize);
    InputsConcat(o.outputs, next.outputs);
    InferencesAreAnswers(net, size, contextSize, m, samples);
    assert (stretches + [samples])[..|stretches|] == stretches;
  }

  /** Over every session, resets included, the network sees exactly the overlapping
      windows of each stretch between resets, in turn, and answers those of a stretch
      one after the other, from a blank state. */
  lemma {:induction false} SessionFollows<H>(net: Network<H>, sampleRate: int, blank: H, calls: seq<Call>)
    requires InputLength(sampleRate).Some?
    ensures Follows(net, blank, Session(net, sampleRate, blank, calls), Stretches(calls),
                    InputLength(sampleRate).value, ContextSize(sampleRate))
  {
    var size, contextSize := InputLength(sampleRate).value, ContextSize(sampleRate);
    if calls == [] {
      NothingYet(net, size, contextSize, blank);
    } else {
      hide Follows, Normalize;
      var n := |calls| - 1;
      SessionFollows(net, sampleRate, blank, calls[..n]);
      var before, stretches := Session(net, sampleRate, blank, calls[..n]), Stretches(calls[..n]);
      if calls[n].resetDue {
        NewStretch(net, size, contextSize, blank, before, stretches, Normalize(calls[n].audio));
      } else {
        SameStretch(net, size, contextSize, blank, before, stretches, Normalize(calls[n].audio));
      }
    }
  }

  lemma NothingYet<H>(net: Network<H>, size: nat, contextSize: nat, blank: H)
    requires size >= contextSize > 0
    ensures Follows<H>(net, blank, Outcome(Model(blank, []), [], []), [[]], size, contextSize)
  {
    var none: seq<real> := [];
    ShortStream(Zeros(contextSize) + none, size, contextSize);
    assert [none][..0] == [];
    assert Zeros(contextSize) + none == Zeros(contextSize);
  }

  /** A reset loses exactly the residual: of the stretch it ends, the last samples,
      fewer than one frame; every sample before them was the new part of one window. */
  lemma {:induction false} ResetLosesResidual<H>(net: Network<H>, sampleRate: int, blank: H, calls: seq<Call>)
    requires InputLength(sampleRate).Some?
    ensures var size, contextSize := InputLength(sampleRate).value, ContextSize(sampleRate);
            var lost, stretch := Session(net, sampleRate, blank, calls).rest, Last(Stretches(calls));
            && |lost| < size
            && |stretch| == size * |Windows(Zeros(contextSize) + stretch, size, contextSize)| + |lost|
            && lost == stretch[|stretch| - |lost|..]
  {
    hide Windows, Leftover, Session, Stretches;
    var size, contextSize := InputLength(sampleRate).value, ContextSize(sampleRate);
    var o, stretch := Session(net, sampleRate, blank, calls), Last(Stretches(calls));
    var stream := Zeros(contextSize) + stretch;
    SessionFollows(net, sampleRate, blank, calls);
    WindowsCount(stream, size, contextSize);
    TimesIsProduct(size, |Windows(stream, size, contextSize)|);
    var left := Leftover(stream, size, contextSize);
    assert left == StartContext(o.state, contextSize) + o.rest;
    assert o.rest == left[contextSize..];
  }
}
