/** How the speech handler cuts a streamed response into texts for the synthesis service. */
module Segmentation {
  import opened Sequences
  import opened Text

  datatype Config = Config(breakWords: seq<string>, minTextLength: int, normalize: string -> string)

  datatype Event =
    | ResponseStarted
    | Chunk(text: string, consumeImmediately: bool)
    | ResponseCompleted
    | InterruptionSuspected
    | InterruptionConfirmed
    | Speak(text: string)
    | OtherEvent

  /** Whether the service accepts what the event makes it buffer, flush and reset. */
  datatype Reply = Reply(bufferOk: bool, flushOk: bool, resetOk: bool)

  /** What an event takes out of the stream for the service. */
  datatype Taken = Nothing | Early(raw: string) | Rest(raw: string) | Immediate(text: string)

  datatype Call = BufferText(text: string) | Flush | Reset

  datatype State = State(textBuffer: string, hasBuffered: bool)

  ghost predicate OccursAt(text: string, word: string, i: nat) {
    i + |word| <= |text| && text[i..i + |word|] == word
  }

  ghost predicate Contains(text: string, word: string) {
    exists i: nat :: OccursAt(text, word, i)
  }

  ghost predicate HasBreakWord(c: Config, text: string) {
    exists k :: 0 <= k < |c.breakWords| && Contains(text, c.breakWords[k])
  }

  ghost predicate ShouldFlush(c: Config, text: string) {
    HasBreakWord(c, text) && |text| >= c.minTextLength
  }

  ghost function Takes(c: Config, s: State, e: Event): Taken {
    match e
    case Chunk(text, true) => if c.normalize(text) == "" then Nothing else Immediate(c.normalize(text))
    case Chunk(text, false) => if ShouldFlush(c, s.textBuffer + text) then Early(s.textBuffer + text) else Nothing
    case ResponseCompleted => if TrimSpace(s.textBuffer) == "" then Nothing else Rest(s.textBuffer)
    case Speak(text) => if text == "" then Nothing else Immediate(text)
    case _ => Nothing
  }

  /** The text that reaches the service and the speaking simulation. */
  function Spoken(c: Config, t: Taken): string
    requires t != Nothing
  {
    match t
    case Early(raw) => c.normalize(raw)
    case Rest(raw) => TrimSpace(raw)
    case Immediate(text) => text
  }

  ghost function Next(c: Config, s: State, e: Event, r: Reply): State {
    match e
    case Chunk(text, true) => s
    case Chunk(text, false) =>
      if Takes(c, s, e).Early? then State("", s.hasBuffered || r.bufferOk)
      else State(s.textBuffer + text, s.hasBuffered)
    case ResponseCompleted =>
      var had := s.hasBuffered || (Takes(c, s, e).Rest? && r.bufferOk);
      State("", had && !r.flushOk)
    case InterruptionConfirmed => State("", false)
    case ResponseStarted => State("", false)
    case _ => s
  }

  ghost function Calls(c: Config, s: State, e: Event, r: Reply): seq<Call> {
    var t := Takes(c, s, e);
    var buffer := if t == Nothing then [] else [BufferText(Spoken(c, t))];
    match e
    case ResponseCompleted => buffer + (if s.hasBuffered || (t.Rest? && r.bufferOk) then [Flush] else [])
    case InterruptionConfirmed => [Reset]
    case _ => buffer + (if t.Immediate? && r.bufferOk then [Flush] else [])
  }

  /** What is offered to the speaking simulation. */
  ghost function Offers(c: Config, s: State, e: Event): seq<string> {
    var t := Takes(c, s, e);
    if t == Nothing then [] else [Spoken(c, t)]
  }

  class TTSHandler {
    const config: Config
    var textBuffer: string
    var hasBufferedSinceLastFlush: bool
    var calls: seq<Call>
    var offered: seq<string>  // texts handed to the speaking simulation

    ghost function Now(): State
      reads this
    {
      State(textBuffer, hasBufferedSinceLastFlush)
    }

    constructor (config: Config)
      ensures this.config == config && Now() == State("", false) && calls == [] && offered == []
    {
      this.config := config;
      textBuffer, hasBufferedSinceLastFlush, calls, offered := "", false, [], [];
    }

    method IndexOfBreakWord(text: string, word: string) returns (index: int)
      ensures index == -1 <==> !Contains(text, word)
      ensures index != -1 ==> index >= 0 && OccursAt(text, word, index)
    {
      for i := 0 to |text| + 1
        invariant forall j: nat :: j < i ==> !OccursAt(text, word, j)
      {
        if i + |word| <= |text| && text[i..i + |word|] == word {
          assert OccursAt(text, word, i);
          return i;
        }
      }
      return -1;
    }

    method DetectBreakWord(text: string) returns (found: bool)
      ensures found <==> HasBreakWord(config, text)
    {
      for k := 0 to |config.breakWords|
        invariant forall j :: 0 <= j < k ==> !Contains(text, config.breakWords[j])
      {
        var idx := IndexOfBreakWord(text, config.breakWords[k]);
        if idx != -1 { return true; }
      }
      return false;
    }

    method BufferAndOffer(text: string)
      modifies this`calls, this`offered
      ensures calls == old(calls) + [BufferText(text)] && offered == old(offered) + [text]
    {
      calls := calls + [BufferText(text)];
      offered := offered + [text];
    }

    /** Adds a chunk to the stream, and takes an early segment out when there is one. */
    method ReceiveChunk(chunk: string, r: Reply)
      modifies this
      ensures Now() == Next(config, old(Now()), Chunk(chunk, false), r)
      ensures calls == old(calls) + Calls(config, old(Now()), Chunk(chunk, false), r)
      ensures offered == old(offered) + Offers(config, old(Now()), Chunk(chunk, false))
    {
      hide TrimSpace, HasBreakWord;
      textBuffer := textBuffer + chunk;
      var hasBreakWord := DetectBreakWord(textBuffer);
      if hasBreakWord && |textBuffer| >= config.minTextLength {
        var text := config.normalize(textBuffer);
        textBuffer := "";
        BufferAndOffer(text);
        if r.bufferOk { hasBufferedSinceLastFlush := true; }
      }
    }

    /** Takes what is left of the stream, and flushes the service. */
    method CompleteResponse(r: Reply)
      modifies this
      ensures Now() == Next(config, old(Now()), ResponseCompleted, r)
      ensures calls == old(calls) + Calls(config, old(Now()), ResponseCompleted, r)
      ensures offered == old(offered) + Offers(config, old(Now()), ResponseCompleted)
    {
      hide TrimSpace, HasBreakWord;
      var remaining := TrimSpace(textBuffer);
      textBuffer := "";
      var hadBufferedText := hasBufferedSinceLastFlush;
      if remaining != "" {
        BufferAndOffer(remaining);
        if r.bufferOk {
          hasBufferedSinceLastFlush := true;
          hadBufferedText := true;
        }
      }
      if hadBufferedText {
        calls := calls + [Flush];
        if r.flushOk { hasBufferedSinceLastFlush := false; }
      }
    }

    /** Buffers and flushes a text that does not wait for the stream. */
    method SpeakAtOnce(text: string, r: Reply)
      modifies this`calls, this`offered
      ensures calls == old(calls) + [BufferText(text)] + (if r.bufferOk then [Flush] else [])
      ensures offered == old(offered) + [text]
    {
      BufferAndOffer(text);
      if r.bufferOk { calls := calls + [Flush]; }
    }

    method HandleEvent(e: Event, r: Reply)
      modifies this
      ensures Now() == Next(config, old(Now()), e, r)
      ensures calls == old(calls) + Calls(config, old(Now()), e, r)
      ensures offered == old(offered) + Offers(config, old(Now()), e)
    {
      hide TrimSpace, ShouldFlush;
      match e
      case Chunk(chunk, true) =>
        var text := config.normalize(chunk);
        if text != "" { SpeakAtOnce(text, r); }
      case Chunk(chunk, false) =>
        ReceiveChunk(chunk, r);
      case ResponseCompleted =>
        CompleteResponse(r);
      case InterruptionConfirmed =>
        textBuffer := "";
        hasBufferedSinceLastFlush := false;
        calls := calls + [Reset];
      case ResponseStarted =>
        textBuffer := "";
        hasBufferedSinceLastFlush := false;
      case Speak(text) =>
        if text != "" { SpeakAtOnce(text, r); }
      case InterruptionSuspected =>
      case OtherEvent =>
    }
  }

  // ---------- Segments of one response ----------

  datatype Input = Input(event: Event, reply: Reply)

  /** Within one uninterrupted response the text buffer is only touched by chunks. */
  predicate Uninterrupted(inputs: seq<Input>) {
    forall i :: 0 <= i < |inputs| ==>
      var e := inputs[i].event; !e.ResponseStarted? && !e.ResponseCompleted? && !e.InterruptionConfirmed?
  }

  ghost function Run(c: Config, s: State, inputs: seq<Input>): State {
    if inputs == [] then s
    else
      var n := |inputs| - 1;
      Next(c, Run(c, s, inputs[..n]), inputs[n].event, inputs[n].reply)
  }

  /** The raw early segments, in order. */
  ghost function Segments(c: Config, s: State, inputs: seq<Input>): seq<string> {
    if inputs == [] then []
    else
      var n := |inputs| - 1;
      var t := Takes(c, Run(c, s, inputs[..n]), inputs[n].event);
      Segments(c, s, inputs[..n]) + (if t.Early? then [t.raw] else [])
  }

  function Streamed(inputs: seq<Input>): string {
    if inputs == [] then ""
    else
      var n := |inputs| - 1;
      Streamed(inputs[..n]) +
        (if inputs[n].event.Chunk? && !inputs[n].event.consumeImmediately then inputs[n].event.text else "")
  }

  /** Some break word lies in the text, and the text has the minimum length. */
  ghost predicate BreaksOff(c: Config, text: string) {
    |text| >= c.minTextLength && exists before, word, after :: word in c.breakWords && text == before + word + after
  }

  lemma {:induction false} BreaksOffExact(c: Config, text: string)
    ensures ShouldFlush(c, text) <==> BreaksOff(c, text)
  {
    if HasBreakWord(c, text) {
      var k :| 0 <= k < |c.breakWords| && Contains(text, c.breakWords[k]);
      var word := c.breakWords[k];
      var i: nat :| OccursAt(text, word, i);
      assert text == text[..i] + word + text[i + |word|..] && word in c.breakWords;
    }
    if BreaksOff(c, text) {
      var before, word, after :| word in c.breakWords && text == before + word + after;
      var k :| 0 <= k < |c.breakWords| && c.breakWords[k] == word;
      assert OccursAt(text, c.breakWords[k], |before|);
      assert Contains(text, c.breakWords[k]);
    }
  }

  /** The segments and then the text held are the streamed text. Every segment has a
      break word and the minimum length; the text held lacks one or the other. */
  ghost predicate Streams(c: Config, segments: seq<string>, held: string, streamed: string) {
    && Flatten(segments) + held == streamed
    && (forall seg :: seg in segments ==> BreaksOff(c, seg))
    && (held == "" || !BreaksOff(c, held))
  }

  lemma {:induction false} ChunkStreams(
    c: Config, segments: seq<string>, s: State, streamed: string, text: string, r: Reply)
    requires Streams(c, segments, s.textBuffer, streamed)
    ensures var e := Chunk(text, false); var t := Takes(c, s, e);
            Streams(c, segments + (if t.Early? then [t.raw] else []), Next(c, s, e, r).textBuffer, streamed + text)
  {
    hide ShouldFlush, BreaksOff, TrimSpace, Flatten;
    StreamGrows(segments, s.textBuffer, text);
    BreaksOffExact(c, s.textBuffer + text);
    assert segments + [] == segments;
  }

  /** Nothing is lost, repeated or reordered: at every point of one uninterrupted
      response, the early segments then the text held are the text streamed so far. */
  lemma {:induction false} SegmentsAreTheStream(c: Config, s: State, inputs: seq<Input>)
    requires s.textBuffer == "" && Uninterrupted(inputs)
    ensures Streams(c, Segments(c, s, inputs), Run(c, s, inputs).textBuffer, Streamed(inputs))
  {
    if inputs == [] {
      assert Flatten(Segments(c, s, inputs)) == "";
    } else {
      hide ShouldFlush, TrimSpace, Streams;
      var n := |inputs| - 1;
      var Input(e, r) := inputs[n];
      var segments, before := Segments(c, s, inputs[..n]), Run(c, s, inputs[..n]);
      SegmentsAreTheStream(c, s, inputs[..n]);
      if e.Chunk? && !e.consumeImmediately {
        ChunkStreams(c, segments, before, Streamed(inputs[..n]), e.text, r);
      } else {
        assert segments + [] == segments && Streamed(inputs[..n]) + "" == Streamed(inputs[..n]);
      }
    }
  }

  lemma {:induction false} StreamGrows(segments: seq<string>, held: string, text: string)
    ensures Flatten(segments) + held + text == Flatten(segments) + (held + text)
    ensures Flatten(segments) + held + text == Flatten(segments + [held + text]) + ""
  {
    assert (segments + [held + text])[..|segments|] == segments;
  }

  // ---------- Flushes ----------

  /** Whether the service holds text it was not yet told to flush. */
  function Unflushed(calls: seq<Call>, r: Reply, before: bool): bool {
    if calls == [] then before
    else
      var n := |calls| - 1;
      match calls[n]
      case BufferText(_) => Unflushed(calls[..n], r, before) || r.bufferOk
      case Flush => Unflushed(calls[..n], r, before) && !r.flushOk
      case Reset => Unflushed(calls[..n], r, before) && !r.resetOk
  }

  /** The calls flush a service that holds nothing. */
  predicate FlushesNothing(calls: seq<Call>, r: Reply, before: bool) {
    exists k :: 0 <= k < |calls| && calls[k] == Flush && !Unflushed(calls[..k], r, before)
  }

  function Fresh(): State { State("", false) }

  /** Whether the service holds unflushed text after the run of a new handler. */
  ghost function Holds(c: Config, inputs: seq<Input>): bool {
    if inputs == [] then false
    else
      var n := |inputs| - 1;
      var Input(e, r) := inputs[n];
      Unflushed(Calls(c, Run(c, Fresh(), inputs[..n]), e, r), r, Holds(c, inputs[..n]))
  }

  /** The flag has outlived the text it stood for: a text spoken at once was flushed,
      and took along what was waiting, since the last accepted early segment. A start
      or a confirmed interruption lowers the flag; a completion leaves it up only when
      its flush fails with nothing new accepted. */
  ghost function Stale(c: Config, inputs: seq<Input>): bool {
    if inputs == [] then false
    else
      var n := |inputs| - 1;
      var s := Run(c, Fresh(), inputs[..n]);
      StaleAfter(Stale(c, inputs[..n]), s.hasBuffered, inputs[n], Takes(c, s, inputs[n].event))
  }

  function StaleAfter(before: bool, hasBuffered: bool, input: Input, taken: Taken): bool {
    var Input(e, r) := input;
    if e.ResponseStarted? || e.InterruptionConfirmed? then false
    else if e.ResponseCompleted? then before && !r.flushOk && !(taken.Rest? && r.bufferOk)
    else if taken.Early? && r.bufferOk then false
    else if taken.Immediate? && r.bufferOk then hasBuffered && r.flushOk
    else before
  }

  lemma OneCall(a: Call, r: Reply, before: bool)
    ensures FlushesNothing([a], r, before) <==> a == Flush && !before
    ensures Unflushed([a], r, before) ==
            match a
            case BufferText(_) => before || r.bufferOk
            case Flush => before && !r.flushOk
            case Reset => before && !r.resetOk
  {
    assert [a][..0] == [];
    assert [a][0] == a;
  }

  lemma TwoCalls(a: Call, b: Call, r: Reply, before: bool)
    ensures FlushesNothing([a, b], r, before) <==>
            FlushesNothing([a], r, before) || FlushesNothing([b], r, Unflushed([a], r, before))
    ensures Unflushed([a, b], r, before) == Unflushed([b], r, Unflushed([a], r, before))
  {
    OneCall(a, r, before);
    OneCall(b, r, Unflushed([a], r, before));
    assert [a, b][..0] == [] && [a, b][..1] == [a];
    assert [a, b][0] == a && [a, b][1] == b;
  }

  /** What one event's calls do to a service, knowing only whether it held text. */
  lemma CallsEffect(c: Config, s: State, e: Event, r: Reply, before: bool)
    ensures var calls, t := Calls(c, s, e, r), Takes(c, s, e);
            var held := before || (t != Nothing && r.bufferOk);
            && Unflushed(calls, r, before) == (
                 if e.InterruptionConfirmed? then before && !r.resetOk
                 else if Flush in calls then held && !r.flushOk
                 else held)
            && (FlushesNothing(calls, r, before) <==> Flush in calls && !held)
  {
    hide TrimSpace, ShouldFlush, Unflushed, FlushesNothing;
    var calls := Calls(c, s, e, r);
    if |calls| == 0 {
      NoCall(r, before);
      assert calls == [];
    } else if |calls| == 1 {
      OneCall(calls[0], r, before);
      assert calls == [calls[0]];
    } else {
      OneCall(calls[0], r, before);
      OneCall(calls[1], r, Unflushed([calls[0]], r, before));
      TwoCalls(calls[0], calls[1], r, before);
      assert calls == [calls[0], calls[1]];
    }
  }

  lemma NoCall(r: Reply, before: bool)
    ensures Unflushed([], r, before) == before && !FlushesNothing([], r, before)
  {}

  /** In every run of a new handler the flag is up over an empty service exactly when it is stale. */
  lemma {:induction false} StaleIsExact(c: Config, inputs: seq<Input>)
    ensures Run(c, Fresh(), inputs).hasBuffered && !Holds(c, inputs) <==> Stale(c, inputs)
  {
    hide TrimSpace, ShouldFlush, Unflushed;
    if inputs != [] {
      var n := |inputs| - 1;
      var Input(e, r) := inputs[n];
      StaleIsExact(c, inputs[..n]);
      CallsEffect(c, Run(c, Fresh(), inputs[..n]), e, r, Holds(c, inputs[..n]));
    }
  }

  /** A flush is meant to follow at least one buffered text. In every run of a new
      handler, the next event breaks that rule if and only if it completes a response
      on a stale flag, with nothing new that the service accepts. */
  lemma FlushRule(c: Config, inputs: seq<Input>, e: Event, r: Reply)
    ensures var s := Run(c, Fresh(), inputs);
            FlushesNothing(Calls(c, s, e, r), r, Holds(c, inputs)) <==>
              e.ResponseCompleted? && Stale(c, inputs) && !(r.bufferOk && TrimSpace(s.textBuffer) != "")
  {
    hide TrimSpace, ShouldFlush, Unflushed, FlushesNothing, Stale;
    StaleIsExact(c, inputs);
    CallsEffect(c, Run(c, Fresh(), inputs), e, r, Holds(c, inputs));
  }

  /** The rule is broken in ordinary use: an early segment, then a text spoken at
      once, then a completion with nothing left. */
  lemma FlushRuleBroken(c: Config, streamed: string, spoken: string)
    requires ShouldFlush(c, streamed) && spoken != ""
    ensures var ok := Reply(true, true, true);
            var inputs := [Input(Chunk(streamed, false), ok), Input(Speak(spoken), ok)];
            && Stale(c, inputs)
            && FlushesNothing(Calls(c, Run(c, Fresh(), inputs), ResponseCompleted, ok), ok, Holds(c, inputs))
  {
    hide ShouldFlush, TrimSpace, Unflushed, FlushesNothing, Holds;
    var ok := Reply(true, true, true);
    var one := [Input(Chunk(streamed, false), ok)];
    var two := one + [Input(Speak(spoken), ok)];
    assert "" + streamed == streamed;
    assert one[..0] == [] && two[..1] == one;
    assert Run(c, Fresh(), []) == Fresh();
    assert Run(c, Fresh(), one) == State("", true);
    assert Run(c, Fresh(), two) == State("", true);
    assert Stale(c, two);
    FlushRule(c, two, ResponseCompleted, ok);
    NothingLeft();
    assert two == [Input(Chunk(streamed, false), ok), Input(Speak(spoken), ok)];
  }

  // ---------- Text left behind ----------

  /** The service holds text that no flag stands for: a response started, or a
      reset failed, over text still held; or a text spoken at once was not flushed. */
  ghost function Forgotten(c: Config, inputs: seq<Input>): bool {
    if inputs == [] then false
    else
      var n := |inputs| - 1;
      var s := Run(c, Fresh(), inputs[..n]);
      ForgottenAfter(Forgotten(c, inputs[..n]), s.hasBuffered, s.hasBuffered && !Stale(c, inputs[..n]),
                     inputs[n], Takes(c, s, inputs[n].event))
  }

  /** `owed`: the flag is up and stands for text the service holds. */
  function ForgottenAfter(before: bool, hasBuffered: bool, owed: bool, input: Input, taken: Taken): bool {
    var Input(e, r) := input;
    if e.ResponseStarted? then before || owed
    else if e.InterruptionConfirmed? then (before || owed) && !r.resetOk
    else if e.ResponseCompleted? then before && !(taken.Rest? && r.bufferOk)
    else if taken.Early? && r.bufferOk then false
    else if taken.Immediate? && r.bufferOk then !hasBuffered && !r.flushOk
    else before
  }

  /** In every run of a new handler, the service holds text that no flag stands for
      exactly when it is forgotten. */
  lemma {:induction false} ForgottenIsExact(c: Config, inputs: seq<Input>)
    ensures Holds(c, inputs) && !Run(c, Fresh(), inputs).hasBuffered <==> Forgotten(c, inputs)
  {
    hide TrimSpace, ShouldFlush, Unflushed, Stale;
    if inputs != [] {
      var n := |inputs| - 1;
      var Input(e, r) := inputs[n];
      ForgottenIsExact(c, inputs[..n]);
      StaleIsExact(c, inputs[..n]);
      CallsEffect(c, Run(c, Fresh(), inputs[..n]), e, r, Holds(c, inputs[..n]));
    }
  }

  /** A completed response is meant to have been spoken to its end. In every run of a
      new handler, a completion whose calls all succeed leaves the service empty if and
      only if no text was forgotten, or there is new text left to flush it along. */
  lemma CompletionEmpties(c: Config, inputs: seq<Input>)
    ensures var s, ok := Run(c, Fresh(), inputs), Reply(true, true, true);
            !Holds(c, inputs + [Input(ResponseCompleted, ok)])
            <==> !Forgotten(c, inputs) || TrimSpace(s.textBuffer) != ""
  {
    hide TrimSpace, ShouldFlush, Unflushed, Forgotten;
    var ok := Reply(true, true, true);
    var all := inputs + [Input(ResponseCompleted, ok)];
    assert all[..|inputs|] == inputs;
    ForgottenIsExact(c, inputs);
    CallsEffect(c, Run(c, Fresh(), inputs), ResponseCompleted, ok, Holds(c, inputs));
  }

  /** Text is left behind in ordinary use: an early segment, then a new response that
      completes with nothing said. */
  lemma TextLeftBehind(c: Config, streamed: string)
    requires ShouldFlush(c, streamed)
    ensures var ok := Reply(true, true, true);
            var inputs := [Input(Chunk(streamed, false), ok), Input(ResponseStarted, ok)];
            Forgotten(c, inputs) && Holds(c, inputs + [Input(ResponseCompleted, ok)])
  {
    hide ShouldFlush, TrimSpace, Unflushed, Holds;
    var ok := Reply(true, true, true);
    var one := [Input(Chunk(streamed, false), ok)];
    var two := one + [Input(ResponseStarted, ok)];
    assert "" + streamed == streamed;
    assert one[..0] == [] && two[..1] == one;
    assert Run(c, Fresh(), []) == Fresh();
    assert Run(c, Fresh(), one) == State("", true);
    assert Run(c, Fresh(), two) == State("", false);
    assert Forgotten(c, two);
    NothingLeft();
    CompletionEmpties(c, two);
    assert two == [Input(Chunk(streamed, false), ok), Input(ResponseStarted, ok)];
  }

  lemma NothingLeft()
    ensures TrimSpace("") == ""
  {}
}
