/** Which texts the speech handler has spoken, over a response and over any run. */
module SpokenTexts {
  import opened Segmentation
  import opened Sequences
  import opened Text
  import opened TextTheorems

  /** The texts that calls hand to the service. */
  function Buffered(calls: seq<Call>): seq<string> {
    if calls == [] then []
    else
      var n := |calls| - 1;
      Buffered(calls[..n]) + (if calls[n].BufferText? then [calls[n].text] else [])
  }

  lemma {:induction false} ShortBuffered(a: Call, b: Call)
    ensures Buffered([]) == []
    ensures Buffered([a]) == if a.BufferText? then [a.text] else []
    ensures Buffered([a, b]) == Buffered([a]) + Buffered([b])
  {
    assert [a][..0] == [] && [b][..0] == [] && [a, b][..1] == [a];
  }

  /** What an event has spoken: the text taken, if any. */
  lemma {:induction false} EventBuffers(c: Config, s: State, e: Event, r: Reply)
    ensures var t := Takes(c, s, e); Buffered(Calls(c, s, e, r)) == if t == Nothing then [] else [Spoken(c, t)]
  {
    hide ShouldFlush, TrimSpace, Buffered, Spoken;
    var t, calls := Takes(c, s, e), Calls(c, s, e, r);
    ShortBuffered(Flush, Flush);
    ShortBuffered(Reset, Flush);
    if t != Nothing {
      ShortBuffered(BufferText(Spoken(c, t)), Flush);
      assert calls == [BufferText(Spoken(c, t))] || calls == [BufferText(Spoken(c, t)), Flush];
    } else {
      assert calls == [] || calls == [Flush] || calls == [Reset];
    }
  }

  /** The speaking simulation is offered what the service is: no more, no less. */
  lemma {:induction false} OffersAreBuffered(c: Config, s: State, e: Event, r: Reply)
    ensures Offers(c, s, e) == Buffered(Calls(c, s, e, r))
  {
    hide Buffered, Spoken, Takes, Calls;
    EventBuffers(c, s, e, r);
  }

  predicate IsStreamed(e: Event) { e.Chunk? && !e.consumeImmediately }

  /** The texts handed over on streamed chunks, or on the other events. */
  ghost function Texts(c: Config, s: State, inputs: seq<Input>, streamed: bool): seq<string> {
    if inputs == [] then []
    else
      var n := |inputs| - 1;
      var Input(e, r) := inputs[n];
      Texts(c, s, inputs[..n], streamed) +
        (if IsStreamed(e) == streamed then Buffered(Calls(c, Run(c, s, inputs[..n]), e, r)) else [])
  }

  /** The texts that do not wait for the stream: chunks to be spoken immediately,
      normalised, and texts to be spoken as they are; empty ones are left out. */
  function ImmediateTexts(c: Config, inputs: seq<Input>): seq<string> {
    if inputs == [] then []
    else
      var n := |inputs| - 1;
      var text :=
        match inputs[n].event
        case Chunk(text, true) => c.normalize(text)
        case Speak(text) => text
        case _ => "";
      ImmediateTexts(c, inputs[..n]) + (if text == "" then [] else [text])
  }

  /** Within a response, the texts spoken early are the segments of the stream,
      normalised, in order; the other texts are those that do not wait for it. */
  lemma {:induction false} SpokenEarly(c: Config, s: State, inputs: seq<Input>)
    requires s.textBuffer == "" && Uninterrupted(inputs)
    ensures Streams(c, Segments(c, s, inputs), Run(c, s, inputs).textBuffer, Streamed(inputs))
    ensures Texts(c, s, inputs, true) == Map(c.normalize, Segments(c, s, inputs))
    ensures Texts(c, s, inputs, false) == ImmediateTexts(c, inputs)
  {
    SegmentsAreTheStream(c, s, inputs);
    EarlyTexts(c, s, inputs);
    OtherTexts(c, s, inputs);
  }

  lemma {:induction false} EarlyTexts(c: Config, s: State, inputs: seq<Input>)
    ensures Texts(c, s, inputs, true) == Map(c.normalize, Segments(c, s, inputs))
  {
    if inputs != [] {
      hide ShouldFlush, TrimSpace, Buffered, Calls;
      var n := |inputs| - 1;
      var Input(e, r) := inputs[n];
      EarlyTexts(c, s, inputs[..n]);
      EventBuffers(c, Run(c, s, inputs[..n]), e, r);
      var before, t := Segments(c, s, inputs[..n]), Takes(c, Run(c, s, inputs[..n]), e);
      if t.Early? { MapLast(c.normalize, before + [t.raw]); }
    }
  }

  lemma {:induction false} OtherTexts(c: Config, s: State, inputs: seq<Input>)
    requires Uninterrupted(inputs)
    ensures Texts(c, s, inputs, false) == ImmediateTexts(c, inputs)
  {
    if inputs != [] {
      hide ShouldFlush, TrimSpace, Buffered, Calls;
      var n := |inputs| - 1;
      OtherTexts(c, s, inputs[..n]);
      EventBuffers(c, Run(c, s, inputs[..n]), inputs[n].event, inputs[n].reply);
    }
  }

  /** The end of a response speaks what is left of the stream, without the white space at
      its ends, unless nothing else is left; and leaves no text for the next response. */
  lemma {:induction false} CompletionSpeaksTheRest(c: Config, s: State, r: Reply) returns (rest: string)
    ensures Trimmed(s.textBuffer, rest)
    ensures Buffered(Calls(c, s, ResponseCompleted, r)) == if rest == "" then [] else [rest]
    ensures Next(c, s, ResponseCompleted, r).textBuffer == ""
  {
    hide TrimSpace, Trimmed, Buffered, Calls;
    rest := TrimSpace(s.textBuffer);
    TrimSpaceExact(s.textBuffer, rest);
    EventBuffers(c, s, ResponseCompleted, r);
  }

  /** A text that does not wait for the stream is followed by a flush at once, if the
      service takes it, and does not touch the stream or the flag. */
  lemma {:induction false} ImmediateIsFlushed(c: Config, s: State, e: Event, r: Reply)
    requires (e.Chunk? && e.consumeImmediately) || e.Speak?
    ensures var texts := ImmediateTexts(c, [Input(e, r)]);
            Calls(c, s, e, r) == if texts == [] then []
                                 else if r.bufferOk then [BufferText(texts[0]), Flush] else [BufferText(texts[0])]
    ensures Next(c, s, e, r) == s
  {
    assert [Input(e, r)][..0] == [];
  }

  // ---------- Any run ----------

  predicate IsBoundary(e: Event) { e.ResponseStarted? || e.ResponseCompleted? || e.InterruptionConfirmed? }

  /** Where the current response begins: after the last boundary. */
  function Begins(inputs: seq<Input>): (k: nat)
    ensures k <= |inputs|
  {
    if inputs == [] then 0
    else if IsBoundary(inputs[|inputs| - 1].event) then |inputs|
    else Begins(inputs[..|inputs| - 1])
  }

  lemma {:induction false} BeginsThere(inputs: seq<Input>)
    ensures Uninterrupted(inputs[Begins(inputs)..])
    ensures Begins(inputs) > 0 ==> IsBoundary(inputs[Begins(inputs) - 1].event)
  {
    if inputs != [] && !IsBoundary(inputs[|inputs| - 1].event) {
      var n := |inputs| - 1;
      BeginsThere(inputs[..n]);
      var k := Begins(inputs);
      assert inputs[k..] == inputs[..n][k..] + [inputs[n]];
    }
  }

  lemma {:induction false} RunLast(c: Config, s: State, inputs: seq<Input>, last: Input)
    ensures Run(c, s, inputs + [last]) == Next(c, Run(c, s, inputs), last.event, last.reply)
  {
    hide Next;
    assert (inputs + [last])[..|inputs|] == inputs;
  }

  lemma {:induction false} RunAppends(c: Config, s: State, before: seq<Input>, inputs: seq<Input>)
    ensures Run(c, s, before + inputs) == Run(c, Run(c, s, before), inputs)
  {
    if inputs == [] {
      assert before + inputs == before;
    } else {
      hide Next, Run;
      var n := |inputs| - 1;
      RunAppends(c, s, before, inputs[..n]);
      assert inputs == inputs[..n] + [inputs[n]];
      Assoc(before, inputs[..n], [inputs[n]]);
      RunLast(c, s, before + inputs[..n], inputs[n]);
      RunLast(c, Run(c, s, before), inputs[..n], inputs[n]);
    }
  }

  lemma {:induction false} BoundaryClears(c: Config, inputs: seq<Input>)
    requires inputs != [] ==> IsBoundary(inputs[|inputs| - 1].event)
    ensures Run(c, Fresh(), inputs).textBuffer == ""
  {
    hide ShouldFlush, TrimSpace;
  }

  /** In every run of a new handler, responses do not mix: the text held, and the texts
      spoken early since the last boundary, come from what was streamed since then. */
  lemma {:induction false} ResponsesDoNotMix(c: Config, inputs: seq<Input>)
    ensures var k := Begins(inputs);
            var start, current := Run(c, Fresh(), inputs[..k]), inputs[k..];
            && Streams(c, Segments(c, start, current), Run(c, Fresh(), inputs).textBuffer, Streamed(current))
            && Texts(c, start, current, true) == Map(c.normalize, Segments(c, start, current))
            && Texts(c, start, current, false) == ImmediateTexts(c, current)
  {
    hide Run, Streams, Texts, Segments, Streamed;
    var k := Begins(inputs);
    BeginsThere(inputs);
    BoundaryClears(c, inputs[..k]);
    SpokenEarly(c, Run(c, Fresh(), inputs[..k]), inputs[k..]);
    RunAppends(c, Fresh(), inputs[..k], inputs[k..]);
    assert inputs[..k] + inputs[k..] == inputs;
  }
}
