/** Cutting a stream into frames of a fixed size for a stateful consumer. */
module Framing {
  import opened Sequences

  /** What consuming a buffer leaves: the consumer's state, its outputs in order, and the residual. */
  datatype Outcome<S, A, B> = Outcome(state: S, outputs: seq<B>, rest: seq<A>)

  function Consume<S, A, B>(size: nat, step: (S, seq<A>) -> (S, B), state: S, buffer: seq<A>): (o: Outcome<S, A, B>)
    requires size > 0
    ensures |o.rest| < size && |o.rest| <= |buffer|
    decreases |buffer|
  {
    if |buffer| < size then Outcome(state, [], buffer)
    else
      var (s, out) := step(state, buffer[..size]);
      var o := Consume(size, step, s, buffer[size..]);
      Outcome(o.state, [out] + o.outputs, o.rest)
  }

  lemma {:induction false} ConsumeFrame<S, A, B>(
    size: nat, step: (S, seq<A>) -> (S, B), state: S, frame: seq<A>, tail: seq<A>)
    requires 0 < size == |frame|
    ensures var (s, out) := step(state, frame);
            var o := Consume(size, step, s, tail);
            Consume(size, step, state, frame + tail) == Outcome(o.state, [out] + o.outputs, o.rest)
  {
    assert (frame + tail)[..size] == frame && (frame + tail)[size..] == tail;
  }

  /** Consuming `buffer` from `state`, after outputs `done`, is what is left of `whole`. */
  ghost predicate Remains<S, A, B>(
    size: nat, step: (S, seq<A>) -> (S, B), whole: Outcome<S, A, B>, done: seq<B>, state: S, buffer: seq<A>)
    requires size > 0
  {
    var o := Consume(size, step, state, buffer);
    whole == Outcome(o.state, done + o.outputs, o.rest)
  }

  lemma {:induction false} RemainsStart<S, A, B>(size: nat, step: (S, seq<A>) -> (S, B), state: S, buffer: seq<A>)
    requires size > 0
    ensures Remains(size, step, Consume(size, step, state, buffer), [], state, buffer)
  {
    assert [] + Consume(size, step, state, buffer).outputs == Consume(size, step, state, buffer).outputs;
  }

  lemma {:induction false} RemainsStep<S, A, B>(
    size: nat, step: (S, seq<A>) -> (S, B), whole: Outcome<S, A, B>, done: seq<B>, state: S, buffer: seq<A>)
    requires 0 < size <= |buffer| && Remains(size, step, whole, done, state, buffer)
    ensures var (s, out) := step(state, buffer[..size]); Remains(size, step, whole, done + [out], s, buffer[size..])
  {
    var (s, out) := step(state, buffer[..size]);
    var o := Consume(size, step, s, buffer[size..]);
    assert done + ([out] + o.outputs) == done + [out] + o.outputs;
  }

  lemma {:induction false} RemainsEnd<S, A, B>(
    size: nat, step: (S, seq<A>) -> (S, B), whole: Outcome<S, A, B>, done: seq<B>, state: S, buffer: seq<A>)
    requires |buffer| < size && Remains(size, step, whole, done, state, buffer)
    ensures whole == Outcome(state, done, buffer)
  {
    assert done + [] == done;
  }

  lemma {:induction false} RemainsPrepended<S, A, B>(
    size: nat, step: (S, seq<A>) -> (S, B), whole: Outcome<S, A, B>, out: B, done: seq<B>, state: S, buffer: seq<A>)
    requires size > 0 && Remains(size, step, whole, done, state, buffer)
    ensures Remains(size, step, Outcome(whole.state, [out] + whole.outputs, whole.rest), [out] + done, state, buffer)
  {
    var o := Consume(size, step, state, buffer);
    assert [out] + (done + o.outputs) == [out] + done + o.outputs;
  }

  /** n frames of the given size, in samples. */
  function Times(size: nat, n: nat): nat {
    if n == 0 then 0 else size + Times(size, n - 1)
  }

  lemma {:induction false} TimesIsProduct(size: nat, n: nat)
    ensures Times(size, n) == size * n
  {
    if n > 0 {
      TimesIsProduct(size, n - 1);
      assert size * n == size + size * (n - 1);
    }
  }

  /** How much is consumed: whole frames, and all but the residual at the end. */
  lemma {:induction false} ConsumeCounts<S, A, B>(size: nat, step: (S, seq<A>) -> (S, B), state: S, buffer: seq<A>)
    requires size > 0
    ensures var o := Consume(size, step, state, buffer);
            |buffer| == Times(size, |o.outputs|) + |o.rest| && o.rest == buffer[|buffer| - |o.rest|..]
    decreases |buffer|
  {
    if |buffer| >= size {
      ConsumeCounts(size, step, step(state, buffer[..size]).0, buffer[size..]);
    }
  }

  /** A buffer cut into as many frames as fit. */
  function Frames<A>(size: nat, buffer: seq<A>): (frames: seq<seq<A>>)
    requires size > 0
    ensures forall i :: 0 <= i < |frames| ==> |frames[i]| == size
    decreases |buffer|
  {
    if |buffer| < size then [] else [buffer[..size]] + Frames(size, buffer[size..])
  }

  /** The consumer run over frames in order. */
  function Fold<S, A, B>(step: (S, seq<A>) -> (S, B), state: S, frames: seq<seq<A>>): (S, seq<B>) {
    if frames == [] then (state, [])
    else
      var (s, out) := step(state, frames[0]);
      var (end, outs) := Fold(step, s, frames[1..]);
      (end, [out] + outs)
  }

  /** What no further frame fits into. */
  function Residual<A>(size: nat, buffer: seq<A>): (rest: seq<A>)
    requires size > 0
    ensures |rest| < size
    decreases |buffer|
  {
    if |buffer| < size then buffer else Residual(size, buffer[size..])
  }

  /** Nothing is lost, repeated or reordered: the frames then the residual are the buffer. */
  lemma {:induction false} FramesAreTheBuffer<A>(size: nat, buffer: seq<A>)
    requires size > 0
    ensures Flatten(Frames(size, buffer)) + Residual(size, buffer) == buffer
    decreases |buffer|
  {
    if |buffer| < size {
      assert [] + buffer == buffer;
    } else {
      hide Flatten;
      FramesAreTheBuffer(size, buffer[size..]);
      FlattenCons(buffer[..size], Frames(size, buffer[size..]));
      Regroup(buffer[..size], 0, Flatten(Frames(size, buffer[size..])), Residual(size, buffer[size..]));
      assert buffer[..size] + buffer[size..] == buffer;
    }
  }

  /** The consumer is run over exactly those frames, in order, and the residual is kept. */
  lemma {:induction false} ConsumesTheFrames<S, A, B>(
    size: nat, step: (S, seq<A>) -> (S, B), state: S, buffer: seq<A>)
    requires size > 0
    ensures var (end, outs) := Fold(step, state, Frames(size, buffer));
            Consume(size, step, state, buffer) == Outcome(end, outs, Residual(size, buffer))
    decreases |buffer|
  {
    if |buffer| >= size {
      var frame, tail := buffer[..size], buffer[size..];
      ConsumesTheFrames(size, step, step(state, frame).0, tail);
      assert ([frame] + Frames(size, tail))[1..] == Frames(size, tail);
    }
  }

  /** Feeding a second chunk onto the residual of the first is feeding both at once. */
  lemma {:induction false} ConsumeConcat<S, A, B>(
    size: nat, step: (S, seq<A>) -> (S, B), state: S, a: seq<A>, b: seq<A>)
    requires size > 0
    ensures var first := Consume(size, step, state, a);
            Remains(size, step, Consume(size, step, state, a + b), first.outputs, first.state, first.rest + b)
    decreases |a|
  {
    if |a| < size {
      RemainsStart(size, step, state, a + b);
    } else {
      var frame, tail := a[..size], a[size..];
      var (s, out) := step(state, frame);
      assert a == frame + tail && a + b == frame + (tail + b);
      ConsumeConcat(size, step, s, tail, b);
      ConsumeFrame(size, step, state, frame, tail);
      ConsumeFrame(size, step, state, frame, tail + b);
      RemainsPrepended(size, step, Consume(size, step, s, tail + b), out, Consume(size, step, s, tail).outputs,
                       Consume(size, step, s, tail).state, Consume(size, step, s, tail).rest + b);
    }
  }

  /** Chunk by chunk, each on top of the residual of the one before. */
  function ConsumeAll<S, A, B>(
    size: nat, step: (S, seq<A>) -> (S, B), state: S, rest: seq<A>, chunks: seq<seq<A>>): Outcome<S, A, B>
    requires size > 0
  {
    if chunks == [] then Outcome(state, [], rest)
    else
      var n := |chunks| - 1;
      var before := ConsumeAll(size, step, state, rest, chunks[..n]);
      var last := Consume(size, step, before.state, before.rest + chunks[n]);
      Outcome(last.state, before.outputs + last.outputs, last.rest)
  }

  /** Chunking independence: however a stream is split, the outputs, the final
      state and the residual are those of a single call. */
  lemma {:induction false} ChunkingIndependent<S, A, B>(
    size: nat, step: (S, seq<A>) -> (S, B), state: S, rest: seq<A>, chunks: seq<seq<A>>)
    requires 0 < size && |rest| < size
    ensures ConsumeAll(size, step, state, rest, chunks) == Consume(size, step, state, rest + Flatten(chunks))
  {
    if chunks == [] {
      assert rest + Flatten(chunks) == rest;
    } else {
      var n := |chunks| - 1;
      ChunkingIndependent(size, step, state, rest, chunks[..n]);
      ConsumeConcat(size, step, state, rest + Flatten(chunks[..n]), chunks[n]);
      assert rest + Flatten(chunks) == rest + Flatten(chunks[..n]) + chunks[n];
    }
  }
}
