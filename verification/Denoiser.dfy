/** The noise suppressor's framing, for mono and stereo audio that is already at 48 kHz. */
module Denoiser {
  import opened Bytes
  import opened Channels
  import opened Framing
  import opened Sequences

  const FRAME_SIZE := 480

  type Frame = f: seq<real> | |f| == 480 witness seq(480, _ => 0.0)

  /** One step of the suppression model: its state and a frame to the next state and the clean frame. */
  type Process<!S> = (S, seq<real>) -> (S, Frame)

  function Raw(sample: int): real { sample as real }

  /** 16-bit samples at their own scale, as the model expects them. */
  function ToFloat(bs: seq<byte>): (xs: seq<real>)
    ensures |xs| == |bs| / 2
  {
    Map(Raw, Samples(bs))
  }

  lemma ToFloatConcat(a: seq<byte>, b: seq<byte>)
    requires |a| % 2 == 0
    ensures ToFloat(a + b) == ToFloat(a) + ToFloat(b)
  {
    SamplesConcat(a, b);
  }

  /** Clamped to 16 bits and cut toward zero. */
  function ToSample(x: real): (n: int)
    ensures -0x8000 <= n < 0x8000
    ensures 0.0 <= x <= 32767.0 ==> n as real <= x < n as real + 1.0
    ensures -32768.0 <= x <= 0.0 ==> n as real - 1.0 < x <= n as real
    ensures x >= 32767.0 ==> n == 32767
    ensures x <= -32768.0 ==> n == -32768
  {
    if x > 32767.0 then 32767
    else if x < -32768.0 then -32768
    else if x >= 0.0 then x.Floor
    else -((-x).Floor)
  }

  function ToPcm(xs: seq<real>): (bs: seq<byte>)
    ensures |bs| == 2 * |xs|
  {
    if xs == [] then [] else ToPcm(xs[..|xs| - 1]) + PutInt16(ToSample(xs[|xs| - 1]))
  }

  lemma {:induction false} ToPcmLast(xs: seq<real>, x: real)
    ensures ToPcm(xs + [x]) == ToPcm(xs) + PutInt16(ToSample(x))
  {
    hide PutInt16, ToSample;
    assert (xs + [x])[..|xs|] == xs;
  }

  lemma {:induction false} ToPcmConcat(a: seq<real>, b: seq<real>)
    ensures ToPcm(a + b) == ToPcm(a) + ToPcm(b)
  {
    if b == [] {
      assert a + b == a && ToPcm(a) + [] == ToPcm(a);
    } else {
      hide ToPcm, PutInt16, ToSample;
      var n := |b| - 1;
      ToPcmConcat(a, b[..n]);
      assert b == b[..n] + [b[n]];
      Assoc(a, b[..n], [b[n]]);
      ToPcmLast(a + b[..n], b[n]);
      ToPcmLast(b[..n], b[n]);
      Assoc(ToPcm(a), ToPcm(b[..n]), PutInt16(ToSample(b[n])));
    }
  }

  function Join(frames: seq<Frame>): (xs: seq<real>)
    ensures |xs| == FRAME_SIZE * |frames|
  {
    if frames == [] then [] else Join(frames[..|frames| - 1]) + frames[|frames| - 1]
  }

  lemma {:induction false} JoinLast(frames: seq<Frame>, frame: Frame)
    ensures Join(frames + [frame]) == Join(frames) + frame
  {
    assert (frames + [frame])[..|frames|] == frames;
  }

  lemma {:induction false} JoinConcat(a: seq<Frame>, b: seq<Frame>)
    ensures Join(a + b) == Join(a) + Join(b)
  {
    if b == [] {
      assert a + b == a && Join(a) + [] == Join(a);
    } else {
      hide Join;
      var n := |b| - 1;
      JoinConcat(a, b[..n]);
      assert b == b[..n] + [b[n]];
      Assoc(a, b[..n], [b[n]]);
      JoinLast(a + b[..n], b[n]);
      JoinLast(b[..n], b[n]);
      Assoc(Join(a), Join(b[..n]), b[n]);
    }
  }

  function Step<S>(process: Process<S>): (S, seq<real>) -> (S, Frame) { process }

  /** One Denoise call: the next state, the residual, and the bytes returned. */
  function DenoiseStep<S>(process: Process<S>, state: S, inBuf: seq<real>, pcm: seq<byte>): Outcome<S, real, Frame> {
    Consume(FRAME_SIZE, Step(process), state, inBuf + ToFloat(pcm))
  }

  function Silence(n: nat): (xs: seq<real>)
    ensures |xs| == n && forall i :: 0 <= i < n ==> xs[i] == 0.0
  {
    seq(n, _ => 0.0)
  }

  function Pad(inBuf: seq<real>): (padded: seq<real>)
    requires |inBuf| < FRAME_SIZE
    ensures |padded| == FRAME_SIZE
  {
    inBuf + Silence(FRAME_SIZE - |inBuf|)
  }

  datatype Result = OddLength | Pcm(bytes: seq<byte>)

  /** What an accepted call works on: mono audio, mixed down from stereo if need be. */
  function Down(stereo: bool, pcm: seq<byte>): seq<byte> {
    if stereo then Mixed(pcm, |pcm| / 4) else pcm
  }

  /** What it returns, in the format of its input. */
  function Up(stereo: bool, mono: seq<byte>): seq<byte> {
    if stereo then Doubled(mono, |mono| / 2) else mono
  }

  class RNNoiseDenoiser<S> {
    const process: Process<S>
    const stereo: bool
    var state: S
    var inBuf: seq<real>

    constructor (process: Process<S>, stereo: bool, state: S)
      ensures this.process == process && this.stereo == stereo && this.state == state && inBuf == []
    {
      this.process, this.stereo, this.state, inBuf := process, stereo, state, [];
    }

    method Denoise(pcm: seq<byte>) returns (result: Result)
      requires |inBuf| < FRAME_SIZE
      modifies this`state, this`inBuf
      ensures |pcm| % 2 != 0 ==> result == OddLength && unchanged(this)
      ensures |pcm| % 2 == 0 ==>
                var o := DenoiseStep(process, old(state), old(inBuf), Down(stereo, pcm));
                state == o.state && inBuf == o.rest && result == Pcm(Up(stereo, ToPcm(Join(o.outputs))))
      ensures |inBuf| < FRAME_SIZE
    {
      if |pcm| == 0 {
        assert inBuf + ToFloat(Down(stereo, pcm)) == inBuf;
        return Pcm([]);
      }
      if |pcm| % 2 != 0 { return OddLength; }
      var mono := pcm;
      if stereo { mono := StereoToMono(pcm); }
      var outFloat := ProcessFrames(mono);
      if |outFloat| == 0 { return Pcm([]); }
      var outPcm := ToPcm(outFloat);
      if stereo { outPcm := MonoToStereo(outPcm); }
      return Pcm(outPcm);
    }

    /** Takes mono samples into the buffer and processes every complete frame. */
    method ProcessFrames(mono: seq<byte>) returns (outFloat: seq<real>)
      requires |inBuf| < FRAME_SIZE
      modifies this`state, this`inBuf
      ensures var o := DenoiseStep(process, old(state), old(inBuf), mono);
              state == o.state && inBuf == o.rest && outFloat == Join(o.outputs)
    {
      inBuf := inBuf + ToFloat(mono);

      ghost var whole := Consume(FRAME_SIZE, Step(process), state, inBuf);
      ghost var done: seq<Frame> := [];
      RemainsStart(FRAME_SIZE, Step(process), state, inBuf);
      outFloat := [];
      while |inBuf| >= FRAME_SIZE
        invariant outFloat == Join(done) && Remains(FRAME_SIZE, Step(process), whole, done, state, inBuf)
        decreases |inBuf|
      {
        RemainsStep(FRAME_SIZE, Step(process), whole, done, state, inBuf);
        var out := process(state, inBuf[..FRAME_SIZE]);
        state := out.0;
        outFloat := outFloat + out.1;
        inBuf := inBuf[FRAME_SIZE..];
        assert (done + [out.1])[..|done|] == done;
        done := done + [out.1];
      }
      RemainsEnd(FRAME_SIZE, Step(process), whole, done, state, inBuf);
    }

    /** Pads the residual with silence to a full frame, and returns what comes out. */
    method Flush() returns (bytes: seq<byte>)
      requires |inBuf| < FRAME_SIZE
      modifies this`state, this`inBuf
      ensures inBuf == []
      ensures old(inBuf) == [] ==> bytes == [] && state == old(state)
      ensures old(inBuf) != [] ==>
                var (s, frame) := process(old(state), Pad(old(inBuf))); state == s && bytes == Up(stereo, ToPcm(frame))
    {
      if |inBuf| == 0 { return []; }
      var padded := Pad(inBuf);
      inBuf := [];
      var out := process(state, padded);
      state := out.0;
      bytes := ToPcm(out.1);
      if stereo { bytes := MonoToStereo(bytes); }
    }

    /** Drops the residual; the model state stays. */
    method Reset()
      modifies this`inBuf
      ensures inBuf == []
    {
      inBuf := [];
    }
  }

  // ---------- Sequences of calls ----------

  /** The denoiser after a sequence of Denoise calls, and all they returned, in order. */
  datatype Session<S> = Session(state: S, inBuf: seq<real>, returned: seq<byte>)

  /** A call of odd length is rejected and changes nothing. */
  function OneCall<S>(process: Process<S>, stereo: bool, before: Session<S>, pcm: seq<byte>): Session<S> {
    if |pcm| % 2 != 0 then before
    else
      var o := DenoiseStep(process, before.state, before.inBuf, Down(stereo, pcm));
      Session(o.state, o.rest, before.returned + Up(stereo, ToPcm(Join(o.outputs))))
  }

  function DenoiseCalls<S>(process: Process<S>, stereo: bool, state: S, chunks: seq<seq<byte>>): Session<S> {
    if chunks == [] then Session(state, [], [])
    else
      var n := |chunks| - 1;
      OneCall(process, stereo, DenoiseCalls(process, stereo, state, chunks[..n]), chunks[n])
  }

  /** The mono audio that a call takes in. */
  function Taken(stereo: bool, pcm: seq<byte>): seq<byte> {
    if |pcm| % 2 != 0 then [] else Down(stereo, pcm)
  }

  function TakenAll(stereo: bool, chunks: seq<seq<byte>>): seq<seq<byte>> {
    Map(pcm => Taken(stereo, pcm), chunks)
  }

  lemma TakenEven(stereo: bool, pcm: seq<byte>)
    ensures |Taken(stereo, pcm)| % 2 == 0
  {
    hide Mixed;
  }

  lemma {:induction false} TakenWhole(stereo: bool, chunks: seq<seq<byte>>)
    ensures WholeSamples(TakenAll(stereo, chunks))
  {
    hide Taken;
    forall i | 0 <= i < |chunks| ensures |TakenAll(stereo, chunks)[i]| % 2 == 0 { TakenEven(stereo, chunks[i]); }
  }

  function Floats(chunks: seq<seq<byte>>): seq<seq<real>> { Map(ToFloat, chunks) }

  lemma {:induction false} FloatsFlatten(chunks: seq<seq<byte>>)
    requires WholeSamples(chunks)
    ensures |Flatten(chunks)| % 2 == 0 && ToFloat(Flatten(chunks)) == Flatten(Floats(chunks))
  {
    if chunks != [] {
      var n := |chunks| - 1;
      FloatsFlatten(chunks[..n]);
      ToFloatConcat(Flatten(chunks[..n]), chunks[n]);
      assert Floats(chunks)[..n] == Floats(chunks[..n]);
    }
  }

  lemma {:induction false} UpConcat(stereo: bool, a: seq<byte>, m: nat, b: seq<byte>, n: nat)
    requires |a| == 2 * m && |b| == 2 * n
    ensures Up(stereo, a + b) == Up(stereo, a) + Up(stereo, b)
  {
    hide Doubled;
    if stereo {
      assert |a| / 2 == m && |b| / 2 == n && |a + b| / 2 == m + n;
      DoubledConcat(a, m, b, n);
    }
  }

  lemma JoinedUp(stereo: bool, a: seq<Frame>, b: seq<Frame>)
    ensures Up(stereo, ToPcm(Join(a + b))) == Up(stereo, ToPcm(Join(a))) + Up(stereo, ToPcm(Join(b)))
  {
    hide ToPcm, Join, Up;
    JoinConcat(a, b);
    ToPcmConcat(Join(a), Join(b));
    UpConcat(stereo, ToPcm(Join(a)), |Join(a)|, ToPcm(Join(b)), |Join(b)|);
  }

  lemma {:induction false} CallsConsume<S>(process: Process<S>, stereo: bool, state: S, chunks: seq<seq<byte>>)
    ensures var o := ConsumeAll(FRAME_SIZE, Step(process), state, [], Floats(TakenAll(stereo, chunks)));
            DenoiseCalls(process, stereo, state, chunks) == Session(o.state, o.rest, Up(stereo, ToPcm(Join(o.outputs))))
  {
    hide ToPcm, Join, Up, ToFloat, Down;
    if chunks == [] {
      NothingOut(stereo);
    } else {
      var n := |chunks| - 1;
      var parts := Floats(TakenAll(stereo, chunks));
      CallsConsume(process, stereo, state, chunks[..n]);
      assert parts[..n] == Floats(TakenAll(stereo, chunks[..n]));
      var before := ConsumeAll(FRAME_SIZE, Step(process), state, [], parts[..n]);
      ChunkingIndependent(FRAME_SIZE, Step(process), state, [], parts[..n]);
      var last := Consume(FRAME_SIZE, Step(process), before.state, before.rest + parts[n]);
      JoinedUp(stereo, before.outputs, last.outputs);
      if |chunks[n]| % 2 != 0 {
        NothingIn();
        NothingOut(stereo);
        assert before.rest + [] == before.rest && before.outputs + [] == before.outputs;
      }
    }
  }

  lemma NothingIn()
    ensures ToFloat([]) == []
  {}

  lemma NothingOut(stereo: bool)
    ensures Up(stereo, ToPcm(Join([]))) == []
  {}

  /** Whatever calls are made, accepted or rejected, the denoiser ends up where one pass
      over the stream of what they took in leaves it, and has returned what that returns. */
  lemma {:induction false} CallsTakeAStream<S>(process: Process<S>, stereo: bool, state: S, chunks: seq<seq<byte>>)
    ensures var o := DenoiseStep(process, state, [], Flatten(TakenAll(stereo, chunks)));
            DenoiseCalls(process, stereo, state, chunks) == Session(o.state, o.rest, Up(stereo, ToPcm(Join(o.outputs))))
    ensures |Flatten(TakenAll(stereo, chunks))| % 2 == 0
  {
    hide ToPcm, Join, Up, ToFloat, Taken;
    CallsConsume(process, stereo, state, chunks);
    TakenWhole(stereo, chunks);
    FloatsFlatten(TakenAll(stereo, chunks));
    ChunkingIndependent(FRAME_SIZE, Step(process), state, [], Floats(TakenAll(stereo, chunks)));
  }

  /** A stereo denoiser does on every sequence of calls what a mono one does on the mix,
      with every returned sample doubled. */
  lemma {:induction false} StereoIsMonoTwice<S>(process: Process<S>, state: S, chunks: seq<seq<byte>>)
    ensures var mono := DenoiseCalls(process, false, state, TakenAll(true, chunks));
            DenoiseCalls(process, true, state, chunks) == Session(mono.state, mono.inBuf, Up(true, mono.returned))
  {
    hide ToPcm, Join, DenoiseStep, DenoiseCalls, Mixed, Doubled;
    CallsTakeAStream(process, true, state, chunks);
    CallsTakeAStream(process, false, state, TakenAll(true, chunks));
    TakenWhole(true, chunks);
    assert TakenAll(false, TakenAll(true, chunks)) == TakenAll(true, chunks);
  }

  // ---------- The model's own steps ----------

  /** The model run over frames in turn, carrying its state: the last state, and all it puts out. */
  function Suppress<S>(process: Process<S>, state: S, frames: seq<seq<real>>): (S, seq<real>) {
    if frames == [] then (state, [])
    else
      var (next, clean) := process(state, frames[0]);
      var (end, rest) := Suppress(process, next, frames[1..]);
      (end, clean + rest)
  }

  lemma {:induction false} ConsumeSuppresses<S>(process: Process<S>, state: S, buffer: seq<real>)
    ensures var o := Consume(FRAME_SIZE, Step(process), state, buffer);
            (o.state, Join(o.outputs)) == Suppress(process, state, Frames(FRAME_SIZE, buffer)) &&
            o.rest == Residual(FRAME_SIZE, buffer)
    decreases |buffer|
  {
    if |buffer| >= FRAME_SIZE {
      hide Join;
      var frame, tail := buffer[..FRAME_SIZE], buffer[FRAME_SIZE..];
      var (next, clean) := process(state, frame);
      ConsumeSuppresses(process, next, tail);
      assert ([frame] + Frames(FRAME_SIZE, tail))[1..] == Frames(FRAME_SIZE, tail);
      JoinConcat([clean], Consume(FRAME_SIZE, Step(process), next, tail).outputs);
      JoinOne(clean);
    }
  }

  lemma {:induction false} JoinOne(frame: Frame)
    ensures Join([frame]) == frame
  {
    assert [frame][..0] == [] && [] + frame == frame;
  }

  /** Over any calls, the model is run on exactly the 480-sample frames of what they took
      in, each from the state the frame before it left; what it puts out is what they
      return, and the samples after the last full frame are kept. */
  lemma {:induction false} CallsSuppress<S>(process: Process<S>, stereo: bool, state: S, chunks: seq<seq<byte>>)
    ensures var taken := ToFloat(Flatten(TakenAll(stereo, chunks)));
            var (end, clean) := Suppress(process, state, Frames(480, taken));
            DenoiseCalls(process, stereo, state, chunks) == Session(end, Residual(480, taken), Up(stereo, ToPcm(clean)))
  {
    hide ToPcm, Join, Up, ToFloat, TakenAll, Suppress, DenoiseCalls;
    var taken := ToFloat(Flatten(TakenAll(stereo, chunks)));
    CallsTakeAStream(process, stereo, state, chunks);
    ConsumeSuppresses(process, state, taken);
    assert [] + taken == taken;
  }

  /** Down-mixing averages the two channels toward zero; mono audio is taken as it is. */
  lemma {:induction false} DownMixes(pcm: seq<byte>, i: nat)
    requires 4 * i + 4 <= |pcm|
    ensures Down(false, pcm) == pcm && i < |Samples(Down(true, pcm))| == |pcm| / 4
    ensures var left, right := Samples(pcm)[2 * i], Samples(pcm)[2 * i + 1];
            var mono := Samples(Down(true, pcm))[i];
            && (left <= mono <= right || right <= mono <= left)
            && (left + right >= 0 ==> 0 <= left + right - 2 * mono <= 1)
            && (left + right <= 0 ==> 0 <= 2 * mono - (left + right) <= 1)
  {
    hide Int16, Mixed;
    assert Samples(pcm)[2 * i] == Int16(pcm[4 * i], pcm[4 * i + 1]);
    assert Samples(pcm)[2 * i + 1] == Int16(pcm[4 * i + 2], pcm[4 * i + 3]);
    MixedBetween(pcm, |pcm| / 4, i);
  }

  /** Each sample that comes out is cut to 16 bits, and goes to both channels in stereo. */
  lemma {:induction false} UpSamples(xs: seq<real>, i: nat)
    requires i < |xs|
    ensures Samples(Up(false, ToPcm(xs)))[i] == ToSample(xs[i])
    ensures |Up(true, ToPcm(xs))| == 4 * |xs|
    ensures Samples(Up(true, ToPcm(xs)))[2 * i] == Samples(Up(true, ToPcm(xs)))[2 * i + 1] == ToSample(xs[i])
  {
    hide ToSample, PutInt16, Int16, Doubled;
    ToPcmAt(xs, i);
    var pcm := ToPcm(xs);
    var stereo := Up(true, pcm);
    DoubledAt(pcm, |xs|, i);
    assert stereo == Doubled(pcm, |xs|);
    assert Samples(pcm)[i] == Int16(pcm[2 * i], pcm[2 * i + 1]);
    assert Samples(stereo)[2 * i] == Int16(stereo[2 * (2 * i)], stereo[2 * (2 * i) + 1]);
    assert Samples(stereo)[2 * i + 1] == Int16(stereo[2 * (2 * i + 1)], stereo[2 * (2 * i + 1) + 1]);
  }

  lemma {:induction false} ToPcmAt(xs: seq<real>, i: nat)
    requires i < |xs|
    ensures Samples(ToPcm(xs))[i] == ToSample(xs[i])
  {
    hide ToSample, PutInt16, Int16, Samples;
    var n := |xs| - 1;
    var last := PutInt16(ToSample(xs[n]));
    SamplesConcat(ToPcm(xs[..n]), last);
    if i < n {
      ToPcmAt(xs[..n], i);
    } else {
      assert Samples(last)[0] == Int16(last[0], last[1]);
    }
  }

  /** The model is given the samples at their own scale. */
  lemma FloatsAreSamples(bs: seq<byte>, i: nat)
    requires 2 * i + 2 <= |bs|
    ensures ToFloat(bs)[i] == Int16(bs[2 * i], bs[2 * i + 1]) as real
  {
    hide Int16;
  }

  // ---------- Lengths ----------

  function FrameBytes(stereo: bool): nat { if stereo then 4 else 2 }

  /** Samples per channel that the accepted calls take in. */
  function TakenCount(stereo: bool, chunks: seq<seq<byte>>): nat {
    if chunks == [] then 0
    else
      var last := chunks[|chunks| - 1];
      TakenCount(stereo, chunks[..|chunks| - 1]) + (if |last| % 2 != 0 then 0 else |last| / FrameBytes(stereo))
  }

  /** Bytes that accepted calls drop because they end in the middle of a stereo frame. */
  function CutBytes(stereo: bool, chunks: seq<seq<byte>>): nat {
    if chunks == [] then 0
    else
      var last := chunks[|chunks| - 1];
      CutBytes(stereo, chunks[..|chunks| - 1]) + (if |last| % 2 != 0 then 0 else |last| % FrameBytes(stereo))
  }

  function Accepted(chunks: seq<seq<byte>>): seq<seq<byte>> {
    if chunks == [] then []
    else
      var last := chunks[|chunks| - 1];
      Accepted(chunks[..|chunks| - 1]) + (if |last| % 2 != 0 then [] else [last])
  }

  lemma TakenLength(stereo: bool, pcm: seq<byte>)
    ensures |Taken(stereo, pcm)| == if |pcm| % 2 != 0 then 0 else 2 * (|pcm| / FrameBytes(stereo))
  {
    hide Mixed;
  }

  lemma {:induction false} TakenLengths(stereo: bool, chunks: seq<seq<byte>>)
    ensures |Flatten(TakenAll(stereo, chunks))| == 2 * TakenCount(stereo, chunks)
  {
    hide Taken, FrameBytes;
    if chunks != [] {
      var n := |chunks| - 1;
      TakenLengths(stereo, chunks[..n]);
      TakenLength(stereo, chunks[n]);
      assert TakenAll(stereo, chunks)[..n] == TakenAll(stereo, chunks[..n]);
    }
  }

  lemma UpLength(stereo: bool, mono: seq<byte>, samples: nat)
    requires |mono| == 2 * samples
    ensures |Up(stereo, mono)| == FrameBytes(stereo) * samples
  {
    hide Doubled;
  }

  /** Bytes Flush would return now. */
  function Flushed<S>(process: Process<S>, stereo: bool, s: Session<S>): seq<byte>
    requires |s.inBuf| < FRAME_SIZE
  {
    if s.inBuf == [] then [] else Up(stereo, ToPcm(process(s.state, Pad(s.inBuf)).1))
  }

  lemma FlushedLength<S>(process: Process<S>, stereo: bool, s: Session<S>)
    requires |s.inBuf| < FRAME_SIZE
    ensures |Flushed(process, stereo, s)| == if s.inBuf == [] then 0 else FrameBytes(stereo) * FRAME_SIZE
  {
    hide Doubled;
    if s.inBuf != [] { UpLength(stereo, ToPcm(process(s.state, Pad(s.inBuf)).1), FRAME_SIZE); }
  }

  lemma {:induction false} RoundedUp(frames: nat, rest: nat, total: nat)
    requires rest < FRAME_SIZE && total == FRAME_SIZE * frames + rest
    ensures (total + FRAME_SIZE - 1) / FRAME_SIZE == frames + (if rest == 0 then 0 else 1)
  {
  }

  /** After any calls, samples out plus residual are the samples taken in, with a
      residual below one frame; a final Flush brings the output to the samples taken in
      rounded up to whole frames. */
  lemma {:induction false} CallsKeepLength<S>(process: Process<S>, stereo: bool, state: S, chunks: seq<seq<byte>>)
    ensures var s := DenoiseCalls(process, stereo, state, chunks); var taken := TakenCount(stereo, chunks);
            && |s.inBuf| < FRAME_SIZE && |s.inBuf| <= taken
            && |s.returned| == FrameBytes(stereo) * (taken - |s.inBuf|)
            && |s.returned + Flushed(process, stereo, s)|
               == FrameBytes(stereo) * (FRAME_SIZE * ((taken + FRAME_SIZE - 1) / FRAME_SIZE))
  {
    hide Consume, ToFloat, ToPcm, Join, Pad, Flatten, DenoiseCalls, Up, Taken, Flushed, FrameBytes;
    var taken := TakenCount(stereo, chunks);
    var stream := Flatten(TakenAll(stereo, chunks));
    var floats := ToFloat(stream);
    CallsTakeAStream(process, stereo, state, chunks);
    TakenLengths(stereo, chunks);
    assert [] + floats == floats && |floats| == taken;
    var o := Consume(FRAME_SIZE, Step(process), state, floats);
    ConsumeCounts(FRAME_SIZE, Step(process), state, floats);
    TimesIsProduct(FRAME_SIZE, |o.outputs|);
    RoundedUp(|o.outputs|, |o.rest|, taken);
    var s := DenoiseCalls(process, stereo, state, chunks);
    assert s == Session(o.state, o.rest, Up(stereo, ToPcm(Join(o.outputs))));
    UpLength(stereo, ToPcm(Join(o.outputs)), taken - |o.rest|);
    FlushedLength(process, stereo, s);
    Scaled(FrameBytes(stereo), taken - |o.rest|, if o.rest == [] then 0 else FRAME_SIZE);
  }

  lemma {:induction false} Scaled(factor: nat, a: nat, b: nat)
    ensures factor * a + factor * b == factor * (a + b)
    ensures factor * 0 == 0
  {
  }

  /** The accepted bytes are those taken in and those cut off; so samples out and
      residual balance the samples of the accepted stream if and only if fewer bytes
      than one frame were cut off. */
  lemma {:induction false} LengthsBalance(stereo: bool, chunks: seq<seq<byte>>)
    ensures var all := |Flatten(Accepted(chunks))|;
            && all == FrameBytes(stereo) * TakenCount(stereo, chunks) + CutBytes(stereo, chunks)
            && (TakenCount(stereo, chunks) == all / FrameBytes(stereo)
                <==> CutBytes(stereo, chunks) < FrameBytes(stereo))
  {
    AcceptedLength(stereo, chunks);
  }

  lemma {:induction false} AcceptedLength(stereo: bool, chunks: seq<seq<byte>>)
    ensures |Flatten(Accepted(chunks))| == FrameBytes(stereo) * TakenCount(stereo, chunks) + CutBytes(stereo, chunks)
  {
    if chunks != [] {
      var n := |chunks| - 1;
      AcceptedLength(stereo, chunks[..n]);
      var before := Accepted(chunks[..n]);
      if |chunks[n]| % 2 != 0 {
        assert before + [] == before;
      } else {
        assert (before + [chunks[n]])[..|before|] == before;
      }
    }
  }

  /** Flushing is denoising the silence that completes the last frame. */
  lemma {:induction false} FlushIsSilence<S>(process: Process<S>, stereo: bool, state: S, inBuf: seq<real>)
    requires 0 < |inBuf| < FRAME_SIZE
    ensures var o := Consume(FRAME_SIZE, Step(process), state, inBuf + Silence(FRAME_SIZE - |inBuf|));
            o.rest == [] && Up(stereo, ToPcm(Join(o.outputs))) == Flushed(process, stereo, Session(state, inBuf, []))
  {
    hide ToPcm, Up;
    var padded := Pad(inBuf);
    assert padded + [] == padded;
    ConsumeFrame(FRAME_SIZE, Step(process), state, padded, []);
    var frame := process(state, padded).1;
    var o := Consume(FRAME_SIZE, Step(process), state, padded);
    assert o.outputs == [frame] + [] == [frame];
    assert [frame][..0] == [] && Join([frame]) == [] + frame == frame;
  }

  // ---------- A model that suppresses nothing ----------

  ghost predicate Transparent<S(!new)>(process: Process<S>) {
    forall s, frame: seq<real> :: |frame| == FRAME_SIZE ==> process(s, frame).1 == frame
  }

  lemma {:induction false} ToFloatLast(pcm: seq<byte>, low: byte, high: byte)
    requires |pcm| % 2 == 0
    ensures ToFloat(pcm + [low, high]) == ToFloat(pcm) + [Int16(low, high) as real]
  {
    hide Int16;
    ToFloatConcat(pcm, [low, high]);
    assert Samples([low, high]) == [Int16(low, high)];
  }

  lemma {:induction false} PcmRoundTrip(pcm: seq<byte>)
    requires |pcm| % 2 == 0
    ensures ToPcm(ToFloat(pcm)) == pcm
  {
    if pcm == [] {
      assert ToFloat(pcm) == [];
    } else {
      hide ToPcm, ToFloat, PutInt16, Int16, ToSample;
      var n := |pcm| - 2;
      var low, high := pcm[n], pcm[n + 1];
      PcmRoundTrip(pcm[..n]);
      assert pcm == pcm[..n] + [low, high];
      ToFloatLast(pcm[..n], low, high);
      ToPcmLast(ToFloat(pcm[..n]), Int16(low, high) as real);
      SampleRoundTrip(low, high);
    }
  }

  lemma {:induction false} SampleRoundTrip(low: byte, high: byte)
    ensures PutInt16(ToSample(Int16(low, high) as real)) == [low, high]
  {
    hide PutInt16, Int16;
    PutOfInt16(low, high);
  }

  lemma {:induction false} FramesPassThrough<S(!new)>(process: Process<S>, state: S, buffer: seq<real>)
    requires Transparent(process)
    ensures var o := Consume(FRAME_SIZE, Step(process), state, buffer); Join(o.outputs) + o.rest == buffer
    decreases |buffer|
  {
    if |buffer| < FRAME_SIZE {
      assert [] + buffer == buffer;
    } else {
      var frame, tail := buffer[..FRAME_SIZE], buffer[FRAME_SIZE..];
      var (s, out) := process(state, frame);
      FramesPassThrough(process, s, tail);
      var o := Consume(FRAME_SIZE, Step(process), s, tail);
      JoinConcat([out], o.outputs);
      assert [out][..0] == [] && Join([out]) == [] + out == frame;
      assert frame + Join(o.outputs) + o.rest == frame + (Join(o.outputs) + o.rest);
    }
  }

  /** Around a model that changes nothing the framing and the conversions change nothing:
      the bytes returned, then the residual as bytes, are exactly the stream taken in. */
  lemma {:induction false} FramingIsTransparent<S(!new)>(
    process: Process<S>, stereo: bool, state: S, chunks: seq<seq<byte>>)
    requires Transparent(process)
    ensures var s := DenoiseCalls(process, stereo, state, chunks);
            s.returned + Up(stereo, ToPcm(s.inBuf)) == Up(stereo, Flatten(TakenAll(stereo, chunks)))
  {
    hide ToPcm, ToFloat, Join, Consume, Transparent, Up, Taken;
    CallsTakeAStream(process, stereo, state, chunks);
    var stream := Flatten(TakenAll(stereo, chunks));
    var floats := ToFloat(stream);
    assert [] + floats == floats;
    FramesPassThrough(process, state, floats);
    var o := Consume(FRAME_SIZE, Step(process), state, floats);
    ToPcmConcat(Join(o.outputs), o.rest);
    PcmRoundTrip(stream);
    UpConcat(stereo, ToPcm(Join(o.outputs)), |Join(o.outputs)|, ToPcm(o.rest), |o.rest|);
  }
}
