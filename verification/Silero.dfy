/** Framing of the voice-activity model: fixed windows with context carried over. */
module Silero {
  import opened Options
  import opened Bytes
  import opened Framing
  import opened Sequences

  function InputLength(sampleRate: int): Option<nat> {
    if sampleRate == 8000 then Some(256)
    else if sampleRate == 16000 then Some(512)
    else None
  }

  function ContextSize(sampleRate: int): nat {
    if sampleRate == 16000 then 64 else 32
  }

  /** The neural network: full input and hidden state to confidence and next hidden state. */
  type Network<!H> = (seq<real>, H) -> (real, H)

  /** Between calls; an empty context has not been allocated yet. */
  datatype Model<H> = Model(hidden: H, context: seq<real>)
  datatype Inference = Inference(input: seq<real>, confidence: real)

  function Zeros(n: nat): (xs: seq<real>)
    ensures |xs| == n && forall i :: 0 <= i < n ==> xs[i] == 0.0
  {
    seq(n, _ => 0.0)
  }

  function Infer<H>(net: Network<H>, contextSize: nat, m: Model<H>, samples: seq<real>): (Model<H>, Inference) {
    var context := if m.context == [] then Zeros(contextSize) else m.context;
    var full := context + samples;
    var (confidence, hidden) := net(full, m.hidden);
    (Model(hidden, full[if contextSize <= |full| then |full| - contextSize else 0..]), Inference(full, confidence))
  }

  function InferStep<H>(net: Network<H>, contextSize: nat): (Model<H>, seq<real>) -> (Model<H>, Inference) {
    (m, samples) => Infer(net, contextSize, m, samples)
  }

  function Scale(sample: int): real { sample as real / 32768.0 }

  /** 16-bit samples scaled to the unit interval. */
  function Normalize(bs: seq<byte>): (xs: seq<real>)
    ensures |xs| == |bs| / 2
  {
    Map(Scale, Samples(bs))
  }

  lemma NormalizeConcat(a: seq<byte>, b: seq<byte>)
    requires |a| % 2 == 0
    ensures Normalize(a + b) == Normalize(a) + Normalize(b)
  {
    SamplesConcat(a, b);
  }

  /** One call at a fixed, supported rate. */
  function Listen<H>(net: Network<H>, sampleRate: int, m: Model<H>, buffer: seq<real>, audio: seq<byte>)
    : Outcome<Model<H>, real, Inference>
    requires InputLength(sampleRate).Some?
  {
    Consume(InputLength(sampleRate).value, InferStep(net, ContextSize(sampleRate)), m, buffer + Normalize(audio))
  }

  function LastConfidence(inferences: seq<Inference>): real {
    if inferences == [] then 0.0 else inferences[|inferences| - 1].confidence
  }

  datatype Result = NotInitialized | UnsupportedRate | Confidence(value: real)

  class SileroVAD<H> {
    const net: Network<H>
    const blank: H  // the all-zero hidden state
    var initialized: bool
    var hidden: H
    var context: seq<real>
    var audioBuffer: seq<real>

    ghost function Now(): Model<H>
      reads this
    {
      Model(hidden, context)
    }

    /** The context belongs to the sample rate, if it has been allocated. */
    ghost predicate ContextFits(sampleRate: int)
      reads this
    {
      context == [] || |context| == ContextSize(sampleRate)
    }

    constructor (net: Network<H>, blank: H)
      ensures this.net == net && this.blank == blank && !initialized
      ensures Now() == Model(blank, []) && audioBuffer == []
    {
      this.net, this.blank := net, blank;
      initialized, hidden, context, audioBuffer := false, blank, [], [];
    }

    method Initialize()
      modifies this`initialized
      ensures initialized
    {
      initialized := true;
    }

    method ResetModelState()
      modifies this`hidden, this`context, this`audioBuffer
      ensures Now() == Model(blank, Zeros(|old(context)|)) && audioBuffer == []
    {
      hidden := blank;
      context := Zeros(|context|);
      audioBuffer := [];
    }

    /** `resetDue` is the periodic reset: two seconds or more since the last one. */
    method VoiceConfidence(audio: seq<byte>, sampleRate: int, resetDue: bool)
      returns (result: Result, ghost inferences: seq<Inference>)
      requires ContextFits(sampleRate)
      modifies this
      ensures initialized == old(initialized) && ContextFits(sampleRate)
      ensures !initialized ==> result == NotInitialized && Now() == old(Now()) && audioBuffer == old(audioBuffer)
      ensures var before := if resetDue then Model(blank, Zeros(|old(context)|)) else old(Now());
              var buffer := if resetDue then [] else old(audioBuffer);
              initialized ==>
                if InputLength(sampleRate).None? then
                  result == UnsupportedRate && Now() == before && audioBuffer == buffer
                else
                  && Outcome(Now(), inferences, audioBuffer) == Listen(net, sampleRate, before, buffer, audio)
                  && result == Confidence(LastConfidence(inferences))
    {
      inferences := [];
      if !initialized { return NotInitialized, inferences; }
      if resetDue { ResetModelState(); }
      ghost var before, buffer := Now(), audioBuffer;
      var audioFloat := Normalize(audio);
      if InputLength(sampleRate).None? { return UnsupportedRate, inferences; }
      var inputLength := InputLength(sampleRate).value;
      audioBuffer := audioBuffer + audioFloat;
      if |audioBuffer| < inputLength { return Confidence(0.0), inferences; }
      var lastConfidence;
      lastConfidence, inferences := ProcessBuffer(inputLength, ContextSize(sampleRate));
      return Confidence(lastConfidence), inferences;
    }

    /** Processes every complete frame of the buffer. */
    method ProcessBuffer(inputLength: nat, contextSize: nat)
      returns (lastConfidence: real, ghost inferences: seq<Inference>)
      requires inputLength > 0 && (context == [] || |context| == contextSize)
      modifies this`hidden, this`context, this`audioBuffer
      ensures context == [] || |context| == contextSize
      ensures Outcome(Now(), inferences, audioBuffer)
              == Consume(inputLength, InferStep(net, contextSize), old(Now()), old(audioBuffer))
      ensures lastConfidence == LastConfidence(inferences)
    {
      lastConfidence, inferences := 0.0, [];
      ghost var step := InferStep(net, contextSize);
      ghost var whole := Consume(inputLength, step, Now(), audioBuffer);
      RemainsStart(inputLength, step, Now(), audioBuffer);
      while |audioBuffer| >= inputLength
        invariant context == [] || |context| == contextSize
        invariant Remains(inputLength, step, whole, inferences, Now(), audioBuffer)
        invariant lastConfidence == LastConfidence(inferences)
        decreases |audioBuffer|
      {
        RemainsStep(inputLength, step, whole, inferences, Now(), audioBuffer);
        var samples := audioBuffer[..inputLength];
        audioBuffer := audioBuffer[inputLength..];
        ghost var inference;
        lastConfidence, inference := ProcessFrame(samples, contextSize);
        inferences := inferences + [inference];
      }
      RemainsEnd(inputLength, step, whole, inferences, Now(), audioBuffer);
    }

    /** One inference over the context and one frame. */
    method ProcessFrame(samples: seq<real>, contextSize: nat) returns (confidence: real, ghost inference: Inference)
      requires context == [] || |context| == contextSize
      modifies this`hidden, this`context
      ensures InferStep(net, contextSize)(old(Now()), samples) == (Now(), inference)
      ensures |context| == contextSize && confidence == inference.confidence
    {
      if |context| == 0 { context := Zeros(contextSize); }
      var fullInput := context + samples;
      var out := net(fullInput, hidden);
      confidence, hidden := out.0, out.1;
      context := fullInput[|fullInput| - contextSize..];
      inference := Inference(fullInput, confidence);
    }
  }

  // ---------- Properties ----------

  function NormalizeAll(chunks: seq<seq<byte>>): seq<seq<real>> { Map(Normalize, chunks) }

  lemma {:induction false} NormalizeFlatten(chunks: seq<seq<byte>>)
    requires WholeSamples(chunks)
    ensures |Flatten(chunks)| % 2 == 0 && Normalize(Flatten(chunks)) == Flatten(NormalizeAll(chunks))
  {
    if chunks != [] {
      var n := |chunks| - 1;
      NormalizeFlatten(chunks[..n]);
      NormalizeConcat(Flatten(chunks[..n]), chunks[n]);
      assert NormalizeAll(chunks)[..n] == NormalizeAll(chunks[..n]);
    }
  }

  /** A sequence of calls without a reset in between. */
  function ListenAll<H>(net: Network<H>, sampleRate: int, m: Model<H>, buffer: seq<real>, chunks: seq<seq<byte>>)
    : Outcome<Model<H>, real, Inference>
    requires InputLength(sampleRate).Some?
  {
    if chunks == [] then Outcome(m, [], buffer)
    else
      var n := |chunks| - 1;
      var before := ListenAll(net, sampleRate, m, buffer, chunks[..n]);
      var last := Listen(net, sampleRate, before.state, before.rest, chunks[n]);
      Outcome(last.state, before.outputs + last.outputs, last.rest)
  }

  lemma {:induction false} ListenAllConsumes<H>(
    net: Network<H>, sampleRate: int, m: Model<H>, buffer: seq<real>, chunks: seq<seq<byte>>)
    requires InputLength(sampleRate).Some?
    ensures ListenAll(net, sampleRate, m, buffer, chunks) ==
            ConsumeAll(InputLength(sampleRate).value, InferStep(net, ContextSize(sampleRate)), m, buffer,
                       NormalizeAll(chunks))
  {
    if chunks != [] {
      var n := |chunks| - 1;
      ListenAllConsumes(net, sampleRate, m, buffer, chunks[..n]);
      assert NormalizeAll(chunks)[..n] == NormalizeAll(chunks[..n]);
    }
  }

  /** However whole samples are split into calls, the model sees the same inputs in
      the same order, and ends in the same state with the same residual, as in one call. */
  lemma {:induction false} ListeningIgnoresChunking<H>(
    net: Network<H>, sampleRate: int, m: Model<H>, buffer: seq<real>, chunks: seq<seq<byte>>)
    requires InputLength(sampleRate).Some? && |buffer| < InputLength(sampleRate).value && WholeSamples(chunks)
    ensures ListenAll(net, sampleRate, m, buffer, chunks) == Listen(net, sampleRate, m, buffer, Flatten(chunks))
    ensures |ListenAll(net, sampleRate, m, buffer, chunks).rest| < InputLength(sampleRate).value
  {
    NormalizeFlatten(chunks);
    ListenAllConsumes(net, sampleRate, m, buffer, chunks);
    ChunkingIndependent(InputLength(sampleRate).value, InferStep(net, ContextSize(sampleRate)), m, buffer,
                        NormalizeAll(chunks));
  }

  /** Overlapping windows over a stream: each is `contextSize + size` long and
      starts `size` after the one before it. */
  function Windows(stream: seq<real>, size: nat, contextSize: nat): seq<seq<real>>
    requires size > 0
    decreases |stream|
  {
    if |stream| < contextSize + size then []
    else [stream[..contextSize + size]] + Windows(stream[size..], size, contextSize)
  }

  /** The end of the stream that no further window fits into. */
  function Leftover(stream: seq<real>, size: nat, contextSize: nat): seq<real>
    requires size > 0
    decreases |stream|
  {
    if |stream| < contextSize + size then stream else Leftover(stream[size..], size, contextSize)
  }

  function StartContext<H>(m: Model<H>, contextSize: nat): seq<real> {
    if m.context == [] then Zeros(contextSize) else m.context
  }

  function Inputs(inferences: seq<Inference>): (inputs: seq<seq<real>>)
    ensures |inputs| == |inferences| && forall i :: 0 <= i < |inputs| ==> inputs[i] == inferences[i].input
  {
    seq(|inferences|, i requires 0 <= i < |inferences| => inferences[i].input)
  }

  /** One inference: its input is the context and the frame, whose end is the next context. */
  lemma {:induction false} InferWindow<H>(net: Network<H>, contextSize: nat, m: Model<H>, frame: seq<real>)
    requires |frame| >= contextSize > 0 && (m.context == [] || |m.context| == contextSize)
    ensures var (m1, out) := Infer(net, contextSize, m, frame);
            && out.input == StartContext(m, contextSize) + frame
            && |m1.context| == contextSize && m1.context == frame[|frame| - contextSize..]
  {
  }

  /** The model sees overlapping windows of the stream that begins with the starting
      context: no sample is skipped, and each frame comes with the samples right
      before it. What is kept, context then residual, is the end of that stream. */
  lemma {:induction false} InputsAreWindows<H>(
    net: Network<H>, size: nat, contextSize: nat, m: Model<H>, buffer: seq<real>)
    requires size >= contextSize > 0 && (m.context == [] || |m.context| == contextSize)
    ensures var o := Consume(size, InferStep(net, contextSize), m, buffer);
            var stream := StartContext(m, contextSize) + buffer;
            && Inputs(o.outputs) == Windows(stream, size, contextSize)
            && StartContext(o.state, contextSize) + o.rest == Leftover(stream, size, contextSize)
    decreases |buffer|
  {
    hide Infer, Consume, Windows, Leftover, Inputs;
    var step, stream := InferStep(net, contextSize), StartContext(m, contextSize) + buffer;
    if |buffer| < size {
      ShortBuffer(step, size, m, buffer);
      ShortStream(stream, size, contextSize);
      assert stream == StartContext(m, contextSize) + buffer;
    } else {
      var frame, tail := buffer[..size], buffer[size..];
      InferWindow(net, contextSize, m, frame);
      var (m1, out) := Infer(net, contextSize, m, frame);
      assert buffer == frame + tail;
      ConsumeFrame(size, step, m, frame, tail);
      InputsAreWindows(net, size, contextSize, m1, tail);
      assert out.input == stream[..contextSize + size];
      assert m1.context + tail == stream[size..];
      LongStream(stream, size, contextSize);
      InputsCons(out, Consume(size, step, m1, tail).outputs);
    }
  }

  lemma ShortBuffer<H>(
    step: (Model<H>, seq<real>) -> (Model<H>, Inference), size: nat, m: Model<H>, buffer: seq<real>)
    requires |buffer| < size
    ensures Consume(size, step, m, buffer) == Outcome(m, [], buffer) && Inputs([]) == []
  {}

  lemma ShortStream(stream: seq<real>, size: nat, contextSize: nat)
    requires |stream| < contextSize + size && size > 0
    ensures Windows(stream, size, contextSize) == [] && Leftover(stream, size, contextSize) == stream
  {}

  lemma LongStream(stream: seq<real>, size: nat, contextSize: nat)
    requires |stream| >= contextSize + size && size > 0
    ensures Windows(stream, size, contextSize)
            == [stream[..contextSize + size]] + Windows(stream[size..], size, contextSize)
    ensures Leftover(stream, size, contextSize) == Leftover(stream[size..], size, contextSize)
  {}

  lemma InputsCons(out: Inference, more: seq<Inference>)
    ensures Inputs([out] + more) == [out.input] + Inputs(more)
  {}

  /** The network run over inputs in turn, carrying its state: the last state, and every confidence. */
  function Answers<H>(net: Network<H>, hidden: H, inputs: seq<seq<real>>): (H, seq<real>) {
    if inputs == [] then (hidden, [])
    else
      var (confidence, next) := net(inputs[0], hidden);
      var (end, rest) := Answers(net, next, inputs[1..]);
      (end, [confidence] + rest)
  }

  function Confidences(inferences: seq<Inference>): seq<real> { Map((i: Inference) => i.confidence, inferences) }

  /** The confidences and the hidden state are those of the network itself, run over
      its inputs in turn: each inference starts from the state the one before left. */
  lemma {:induction false} InferencesAreAnswers<H>(
    net: Network<H>, size: nat, contextSize: nat, m: Model<H>, buffer: seq<real>)
    requires size > 0
    ensures var o := Consume(size, InferStep(net, contextSize), m, buffer);
            (o.state.hidden, Confidences(o.outputs)) == Answers(net, m.hidden, Inputs(o.outputs))
    decreases |buffer|
  {
    if |buffer| < size {
      assert Confidences([]) == [] && Inputs([]) == [];
    } else {
      var (m1, out) := Infer(net, contextSize, m, buffer[..size]);
      var rest := Consume(size, InferStep(net, contextSize), m1, buffer[size..]);
      InferencesAreAnswers(net, size, contextSize, m1, buffer[size..]);
      InputsCons(out, rest.outputs);
      assert Confidences([out] + rest.outputs) == [out.confidence] + Confidences(rest.outputs);
      assert ([out.input] + Inputs(rest.outputs))[1..] == Inputs(rest.outputs);
    }
  }

  /** What a call reports: the network's answer to the last window it completed, or 0
      when it completed none. */
  lemma LastConfidenceIs(inferences: seq<Inference>)
    ensures LastConfidence(inferences) ==
            if |inferences| == 0 then 0.0 else Confidences(inferences)[|inferences| - 1]
  {}

  /** The frames in use: 512 new samples after 64 at 16 kHz, 256 after 32 at 8 kHz, no other rate. */
  lemma FramesInUse(sampleRate: int)
    ensures InputLength(sampleRate).Some? <==> sampleRate == 8000 || sampleRate == 16000
    ensures sampleRate == 16000 ==> InputLength(sampleRate) == Some(512) && ContextSize(sampleRate) == 64
    ensures sampleRate == 8000 ==> InputLength(sampleRate) == Some(256) && ContextSize(sampleRate) == 32
  {}

  /** Scaling is exact and keeps samples in [-1, 1). */
  lemma NormalizedExactly(bs: seq<byte>, i: nat)
    requires 2 * i + 1 < |bs|
    ensures Normalize(bs)[i] * 32768.0 == Int16(bs[2 * i], bs[2 * i + 1]) as real
    ensures -1.0 <= Normalize(bs)[i] < 1.0
  {
    hide Int16;
  }

  /** So over any sequence of calls the model sees exactly the overlapping windows of
      the whole stream, wherever the calls cut it. */
  lemma {:induction false} SessionInputsAreWindows<H>(
    net: Network<H>, sampleRate: int, m: Model<H>, buffer: seq<real>, chunks: seq<seq<byte>>)
    requires InputLength(sampleRate).Some? && |buffer| < InputLength(sampleRate).value && WholeSamples(chunks)
    requires m.context == [] || |m.context| == ContextSize(sampleRate)
    ensures var o := ListenAll(net, sampleRate, m, buffer, chunks);
            var size, contextSize := InputLength(sampleRate).value, ContextSize(sampleRate);
            var stream := StartContext(m, contextSize) + (buffer + Normalize(Flatten(chunks)));
            && Inputs(o.outputs) == Windows(stream, size, contextSize)
            && StartContext(o.state, contextSize) + o.rest == Leftover(stream, size, contextSize)
  {
    ListeningIgnoresChunking(net, sampleRate, m, buffer, chunks);
    InputsAreWindows(net, InputLength(sampleRate).value, ContextSize(sampleRate), m,
                     buffer + Normalize(Flatten(chunks)));
  }

  /** And it answers them in turn, from the hidden state it started with. */
  lemma {:induction false} SessionAnswers<H>(
    net: Network<H>, sampleRate: int, m: Model<H>, buffer: seq<real>, chunks: seq<seq<byte>>)
    requires InputLength(sampleRate).Some? && |buffer| < InputLength(sampleRate).value && WholeSamples(chunks)
    requires m.context == [] || |m.context| == ContextSize(sampleRate)
    ensures var o := ListenAll(net, sampleRate, m, buffer, chunks);
            var size, contextSize := InputLength(sampleRate).value, ContextSize(sampleRate);
            var stream := StartContext(m, contextSize) + (buffer + Normalize(Flatten(chunks)));
            (o.state.hidden, Confidences(o.outputs)) == Answers(net, m.hidden, Windows(stream, size, contextSize))
  {
    ListeningIgnoresChunking(net, sampleRate, m, buffer, chunks);
    var size, contextSize := InputLength(sampleRate).value, ContextSize(sampleRate);
    InputsAreWindows(net, size, contextSize, m, buffer + Normalize(Flatten(chunks)));
    InferencesAreAnswers(net, size, contextSize, m, buffer + Normalize(Flatten(chunks)));
  }

  /** The same hidden state and the same effective context: the network cannot tell them apart. */
  predicate Alike<H(==)>(m1: Model<H>, m2: Model<H>, contextSize: nat) {
    m1.hidden == m2.hidden && StartContext(m1, contextSize) == StartContext(m2, contextSize)
  }

  lemma {:induction false} AlikeConsume<H>(
    net: Network<H>, size: nat, contextSize: nat, m1: Model<H>, m2: Model<H>, buffer: seq<real>)
    requires size > 0 && Alike(m1, m2, contextSize)
    ensures var o1 := Consume(size, InferStep(net, contextSize), m1, buffer);
            var o2 := Consume(size, InferStep(net, contextSize), m2, buffer);
            o1.outputs == o2.outputs && o1.rest == o2.rest && Alike(o1.state, o2.state, contextSize)
    decreases |buffer|
  {
    if |buffer| >= size {
      assert Infer(net, contextSize, m1, buffer[..size]) == Infer(net, contextSize, m2, buffer[..size]);
      AlikeConsume(net, size, contextSize, Infer(net, contextSize, m1, buffer[..size]).0,
                   Infer(net, contextSize, m2, buffer[..size]).0, buffer[size..]);
    }
  }

  lemma {:induction false} AlikeListen<H>(
    net: Network<H>, sampleRate: int, m1: Model<H>, m2: Model<H>, buffer: seq<real>, chunks: seq<seq<byte>>)
    requires InputLength(sampleRate).Some? && Alike(m1, m2, ContextSize(sampleRate))
    ensures var o1 := ListenAll(net, sampleRate, m1, buffer, chunks);
            var o2 := ListenAll(net, sampleRate, m2, buffer, chunks);
            o1.outputs == o2.outputs && o1.rest == o2.rest && Alike(o1.state, o2.state, ContextSize(sampleRate))
  {
    hide Alike, Normalize, Infer;
    if chunks != [] {
      var n := |chunks| - 1;
      AlikeListen(net, sampleRate, m1, m2, buffer, chunks[..n]);
      var o1 := ListenAll(net, sampleRate, m1, buffer, chunks[..n]);
      var o2 := ListenAll(net, sampleRate, m2, buffer, chunks[..n]);
      AlikeConsume(net, InputLength(sampleRate).value, ContextSize(sampleRate), o1.state, o2.state,
                   o1.rest + Normalize(chunks[n]));
    }
  }

  /** After a reset the model behaves like a new one, over every sequence of calls,
      although its context stays allocated. */
  lemma ResetIsLikeNew<H>(net: Network<H>, sampleRate: int, blank: H, chunks: seq<seq<byte>>)
    requires InputLength(sampleRate).Some?
    ensures var reset := ListenAll(net, sampleRate, Model(blank, Zeros(ContextSize(sampleRate))), [], chunks);
            var anew := ListenAll(net, sampleRate, Model(blank, []), [], chunks);
            && reset.outputs == anew.outputs && reset.rest == anew.rest
            && Alike(reset.state, anew.state, ContextSize(sampleRate))
  {
    AlikeListen(net, sampleRate, Model(blank, Zeros(ContextSize(sampleRate))), Model(blank, []), [], chunks);
  }
}
