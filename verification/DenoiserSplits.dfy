/** When the way a stream is split into Denoise calls matters. */
module DenoiserSplits {
  import opened Bytes
  import opened Channels
  import opened Framing
  import opened Sequences
  import opened Denoiser

  predicate AllEven(chunks: seq<seq<byte>>) {
    forall i :: 0 <= i < |chunks| ==> |chunks[i]| % 2 == 0
  }

  predicate Lengths(chunks: seq<seq<byte>>, lens: seq<nat>) {
    |chunks| == |lens| && forall i :: 0 <= i < |lens| ==> |chunks[i]| == lens[i]
  }

  /** No call before the last non-empty one ends in the middle of a frame. */
  predicate NoFrameCut(stereo: bool, lens: seq<nat>) {
    forall i, j :: 0 <= i < j < |lens| && lens[j] != 0 ==> lens[i] % FrameBytes(stereo) == 0
  }

  lemma {:induction false} AcceptedEven(chunks: seq<seq<byte>>)
    ensures AllEven(Accepted(chunks))
  {
    if chunks != [] { AcceptedEven(chunks[..|chunks| - 1]); }
  }

  /** Rejected calls leave no trace. */
  lemma {:induction false} RejectedCallsDoNothing<S>(
    process: Process<S>, stereo: bool, state: S, chunks: seq<seq<byte>>)
    ensures DenoiseCalls(process, stereo, state, chunks) == DenoiseCalls(process, stereo, state, Accepted(chunks))
  {
    hide DenoiseStep, Up, Down;
    if chunks != [] {
      var n := |chunks| - 1;
      RejectedCallsDoNothing(process, stereo, state, chunks[..n]);
      var before := Accepted(chunks[..n]);
      if |chunks[n]| % 2 != 0 {
        assert before + [] == before;
      } else {
        hide OneCall;
        assert (before + [chunks[n]])[..|before|] == before;
      }
    }
  }

  // ---------- Splits that do not matter ----------

  lemma {:induction false} LensPrefix(stereo: bool, chunks: seq<seq<byte>>, lens: seq<nat>)
    requires chunks != [] && Lengths(chunks, lens) && AllEven(chunks) && NoFrameCut(stereo, lens)
    ensures var n := |chunks| - 1;
            Lengths(chunks[..n], lens[..n]) && AllEven(chunks[..n]) && NoFrameCut(stereo, lens[..n])
  {
  }

  /** Calls of whole frames only make up a stream of whole frames. */
  lemma {:induction false} WholeFlatten(stereo: bool, chunks: seq<seq<byte>>)
    requires forall i :: 0 <= i < |chunks| ==> |chunks[i]| % FrameBytes(stereo) == 0
    ensures |Flatten(chunks)| % FrameBytes(stereo) == 0
  {
    if chunks == [] { NothingIsWhole(stereo); }
    if chunks != [] {
      hide FrameBytes;
      var n := |chunks| - 1;
      WholeFlatten(stereo, chunks[..n]);
      WholeSum(stereo, |Flatten(chunks[..n])|, |chunks[n]|);
    }
  }

  lemma NothingIsWhole(stereo: bool)
    ensures 0 % FrameBytes(stereo) == 0
  {}

  lemma WholeSum(stereo: bool, a: nat, b: nat)
    requires a % FrameBytes(stereo) == 0 && b % FrameBytes(stereo) == 0
    ensures (a + b) % FrameBytes(stereo) == 0
  {
    if stereo {
      MultipleOf(4, a / 4 + b / 4, a + b);
    } else {
      MultipleOf(2, a / 2 + b / 2, a + b);
    }
  }

  lemma MultipleOf(f: nat, q: nat, n: nat)
    requires (f == 2 && n == 2 * q) || (f == 4 && n == 4 * q)
    ensures n % f == 0
  {}

  lemma {:induction false} DownAppend(stereo: bool, whole: seq<byte>, pcm: seq<byte>)
    requires |whole| % FrameBytes(stereo) == 0
    ensures Down(stereo, whole + pcm) == Down(stereo, whole) + Down(stereo, pcm)
  {
    hide Mixed;
    if stereo {
      var m, n := |whole| / 4, |pcm| / 4;
      assert |whole| == 4 * m && |whole + pcm| / 4 == m + n;
      MixedConcat(whole, m, pcm, n);
    }
  }

  lemma DownNothing(stereo: bool)
    ensures Down(stereo, []) == []
  {}

  /** Without a cut, the calls take in the mix of the whole stream. */
  lemma {:induction false} TakenWithoutCuts(stereo: bool, chunks: seq<seq<byte>>, lens: seq<nat>)
    requires Lengths(chunks, lens) && AllEven(chunks) && NoFrameCut(stereo, lens)
    ensures Flatten(TakenAll(stereo, chunks)) == Down(stereo, Flatten(chunks))
  {
    hide Down, FrameBytes;
    if chunks == [] {
      DownNothing(stereo);
    } else {
      var n := |chunks| - 1;
      LensPrefix(stereo, chunks, lens);
      TakenWithoutCuts(stereo, chunks[..n], lens[..n]);
      assert TakenAll(stereo, chunks)[..n] == TakenAll(stereo, chunks[..n]);
      if chunks[n] == [] {
        DownNothing(stereo);
        assert Flatten(chunks[..n]) + [] == Flatten(chunks[..n]);
        assert Down(stereo, Flatten(chunks[..n])) + [] == Down(stereo, Flatten(chunks[..n]));
      } else {
        WholeFlatten(stereo, chunks[..n]);
        DownAppend(stereo, Flatten(chunks[..n]), chunks[n]);
      }
    }
  }

  lemma {:induction false} EvenFlatten(chunks: seq<seq<byte>>)
    requires AllEven(chunks)
    ensures |Flatten(chunks)| % 2 == 0
  {
    if chunks != [] { EvenFlatten(chunks[..|chunks| - 1]); }
  }

  /** What a single call on the whole stream takes in. */
  lemma {:induction false} OneCallTakes(stereo: bool, chunks: seq<seq<byte>>)
    requires AllEven(chunks)
    ensures Flatten(TakenAll(stereo, [Flatten(chunks)])) == Down(stereo, Flatten(chunks))
  {
    hide Down;
    EvenFlatten(chunks);
    var taken := TakenAll(stereo, [Flatten(chunks)]);
    assert taken == [Down(stereo, Flatten(chunks))] && taken[..0] == [];
    assert [] + Down(stereo, Flatten(chunks)) == Down(stereo, Flatten(chunks));
  }

  /** Mono or stereo, and for every model: as long as no accepted call before the last
      non-empty one cuts a frame, the bytes returned over any calls are those of one
      call on the accepted stream, and so are the model state and the residual. */
  lemma {:induction false} CallsIgnoreChunking<S>(
    process: Process<S>, stereo: bool, state: S, chunks: seq<seq<byte>>, lens: seq<nat>)
    requires Lengths(Accepted(chunks), lens) && NoFrameCut(stereo, lens)
    ensures DenoiseCalls(process, stereo, state, chunks)
            == DenoiseCalls(process, stereo, state, [Flatten(Accepted(chunks))])
  {
    hide DenoiseCalls, DenoiseStep, TakenAll, ToPcm, Join, Up, Down, NoFrameCut;
    var accepted := Accepted(chunks);
    AcceptedEven(chunks);
    RejectedCallsDoNothing(process, stereo, state, chunks);
    TakenWithoutCuts(stereo, accepted, lens);
    OneCallTakes(stereo, accepted);
    CallsTakeAStream(process, stereo, state, accepted);
    CallsTakeAStream(process, stereo, state, [Flatten(accepted)]);
  }

  // ---------- Splits that matter ----------

  predicate AllZero(bs: seq<byte>) { forall i :: 0 <= i < |bs| ==> bs[i] == 0 }

  lemma {:induction false} SilentSample()
    ensures Int16(0, 0) == 0 && HalfTowardZero(0 + 0) == 0 && PutInt16(0) == [0, 0]
  {
    assert 0 % 0x1_0000 == 0;
  }

  lemma {:induction false} SilentFrame(stereo: seq<byte>, i: nat)
    requires 4 * i + 4 <= |stereo| && stereo[4 * i] == 0 && stereo[4 * i + 1] == 0
    requires stereo[4 * i + 2] == 0 && stereo[4 * i + 3] == 0
    ensures PutInt16(Averaged(stereo, i)) == [0, 0]
  {
    hide PutInt16, Int16, HalfTowardZero;
    SilentSample();
  }

  predicate SilentUpTo(bs: seq<byte>, n: nat)
    requires n <= |bs|
  {
    forall i :: 0 <= i < n ==> bs[i] == 0
  }

  lemma {:induction false} FourSilent(bs: seq<byte>, n: nat)
    requires n + 4 <= |bs| && SilentUpTo(bs, n + 4)
    ensures SilentUpTo(bs, n) && bs[n] == 0 && bs[n + 1] == 0 && bs[n + 2] == 0 && bs[n + 3] == 0
  {
  }

  lemma {:induction false} ZeroConcat(a: seq<byte>, b: seq<byte>)
    requires AllZero(a) && AllZero(b)
    ensures AllZero(a + b)
  {
  }

  lemma {:induction false} MixedZero(stereo: seq<byte>, n: nat)
    requires 4 * n <= |stereo| && SilentUpTo(stereo, 4 * n)
    ensures AllZero(Mixed(stereo, n))
  {
    if n > 0 {
      hide Mixed, PutInt16, Averaged, SilentUpTo, AllZero;
      var k := n - 1;
      assert 4 * n == 4 * k + 4;
      FourSilent(stereo, 4 * k);
      MixedZero(stereo, k);
      MixedStep(stereo, k);
      SilentFrame(stereo, k);
      TwoZeros();
      ZeroConcat(Mixed(stereo, k), [0, 0]);
    }
  }

  lemma TwoZeros()
    ensures AllZero([0, 0])
  {}

  lemma {:induction false} FlattenZero(parts: seq<seq<byte>>)
    requires forall i :: 0 <= i < |parts| ==> AllZero(parts[i])
    ensures AllZero(Flatten(parts))
  {
    if parts != [] { FlattenZero(parts[..|parts| - 1]); }
  }

  /** The bytes of one averaged frame in the mix. */
  lemma {:induction false} MixedAt(stereo: seq<byte>, n: nat, i: nat)
    requires i < n && 4 * n <= |stereo|
    ensures Mixed(stereo, n)[2 * i..2 * i + 2] == PutInt16(Averaged(stereo, i))
    decreases n
  {
    hide PutInt16, Averaged;
    var before := Mixed(stereo, n - 1);
    if i < n - 1 {
      MixedAt(stereo, n - 1, i);
      assert Mixed(stereo, n)[2 * i..2 * i + 2] == before[2 * i..2 * i + 2];
    } else {
      assert Mixed(stereo, n)[2 * i..2 * i + 2] == PutInt16(Averaged(stereo, i));
    }
  }

  /** Silence but for the last byte. */
  function Blip(n: nat): (bs: seq<byte>)
    ensures |bs| == n && forall i :: 0 <= i < n - 1 ==> bs[i] == 0
    ensures n > 0 ==> bs[n - 1] == 0x40
  {
    seq(n, i => if i == n - 1 then 0x40 else 0)
  }

  function Zeros(n: nat): (bs: seq<byte>)
    ensures |bs| == n && AllZero(bs)
  {
    seq(n, _ => 0)
  }

  /** Calls of the given lengths that are silent but for the last byte of call k. */
  function Witness(lens: seq<nat>, k: nat): (chunks: seq<seq<byte>>)
    ensures Lengths(chunks, lens)
    ensures forall i :: 0 <= i < |lens| ==> chunks[i] == if i == k then Blip(lens[i]) else Zeros(lens[i])
  {
    seq(|lens|, i requires 0 <= i < |lens| => if i == k then Blip(lens[i]) else Zeros(lens[i]))
  }

  /** The blip is cut off, so the calls take in silence. */
  lemma {:induction false} CutTakesSilence(lens: seq<nat>, k: nat)
    requires k < |lens| && lens[k] % 4 == 2
    ensures AllZero(Flatten(TakenAll(true, Witness(lens, k))))
  {
    var chunks := Witness(lens, k);
    forall i | 0 <= i < |lens| ensures AllZero(TakenAll(true, chunks)[i]) {
      hide Mixed;
      if |chunks[i]| % 2 == 0 { MixedZero(chunks[i], |chunks[i]| / 4); }
    }
    FlattenZero(TakenAll(true, chunks));
  }

  lemma {:induction false} FlattenSplit<T>(parts: seq<seq<T>>, k: nat)
    requires k < |parts|
    ensures Flatten(parts) == Flatten(parts[..k]) + parts[k] + Flatten(parts[k + 1..])
    decreases |parts|
  {
    var n := |parts| - 1;
    if k == n {
      assert parts[k + 1..] == [];
      assert Flatten(parts[..k]) + parts[k] + [] == Flatten(parts[..k]) + parts[k];
    } else {
      FlattenSplit(parts[..n], k);
      assert parts[..n][..k] == parts[..k] && parts[..n][k + 1..] == parts[k + 1..n];
      assert parts[k + 1..][..|parts[k + 1..]| - 1] == parts[k + 1..n];
      Regroup(Flatten(parts[..k]) + parts[k], 0, Flatten(parts[k + 1..n]), parts[n]);
    }
  }

  lemma {:induction false} NonEmptyFlatten(parts: seq<seq<byte>>, j: nat)
    requires AllEven(parts) && j < |parts| && parts[j] != []
    ensures |Flatten(parts)| >= 2
  {
    FlattenSplit(parts, j);
  }

  /** Silence, then a blip two bytes into a frame, then more silence, is not silence
      once the frame is complete. */
  lemma {:induction false} BlipHeard(head: seq<byte>, blip: seq<byte>, tail: seq<byte>)
    requires |head| % 4 == 0 && |blip| % 4 == 2 && blip == Blip(|blip|) && |tail| >= 2 && AllZero(tail)
    ensures !AllZero(Down(true, head + blip + tail))
  {
    hide Mixed;
    var all := head + blip + tail;
    var m := (|head| + |blip|) / 4;
    var at := 4 * m;
    assert at == |head| + |blip| - 2 && at + 4 <= |all|;
    assert all[at] == 0 && all[at + 1] == 0x40 && all[at + 2] == 0 && all[at + 3] == 0;
    assert Averaged(all, m) == 0x2000;
    MixedAt(all, |all| / 4, m);
    var mixed := Mixed(all, |all| / 4);
    assert mixed[2 * m..2 * m + 2][1] == mixed[2 * m + 1] == 0x20;
  }

  predicate EvenLengths(lens: seq<nat>) { forall i :: 0 <= i < |lens| ==> lens[i] % 2 == 0 }

  /** Call k is the first to cut a frame, and call j comes later with more. */
  predicate CutsAt(lens: seq<nat>, k: nat, j: nat) {
    && k < j < |lens| && lens[j] != 0 && lens[k] % 4 != 0
    && forall h :: 0 <= h < k ==> lens[h] % 4 == 0
  }

  lemma {:induction false} CutIsTwo(lens: seq<nat>, k: nat, j: nat)
    requires EvenLengths(lens) && CutsAt(lens, k, j)
    ensures k < j < |lens| && lens[k] % 4 == 2
  {
    hide EvenLengths, CutsAt;
    CutAt(lens, k, j);
    EvenAt(lens, k);
    HalfFrame(lens[k]);
  }

  lemma CutAt(lens: seq<nat>, k: nat, j: nat)
    requires CutsAt(lens, k, j)
    ensures k < j < |lens| && lens[k] % 4 != 0
  {}

  lemma EvenAt(lens: seq<nat>, k: nat)
    requires EvenLengths(lens) && k < |lens|
    ensures lens[k] % 2 == 0
  {}

  lemma HalfFrame(n: nat)
    requires n % 2 == 0 && n % 4 != 0
    ensures n % 4 == 2
  {}

  lemma {:induction false} WholeHears(lens: seq<nat>, k: nat, j: nat)
    requires EvenLengths(lens) && CutsAt(lens, k, j)
    ensures !AllZero(Down(true, Flatten(Witness(lens, k))))
  {
    hide Down, Witness, Blip, Zeros, Flatten;
    var chunks := Witness(lens, k);
    var head, tail := chunks[..k], chunks[k + 1..];
    CutIsTwo(lens, k, j);
    FlattenSplit(chunks, k);
    WholeFlatten(true, head);
    NonEmptyFlatten(tail, j - k - 1);
    FlattenZero(tail);
    BlipHeard(Flatten(head), chunks[k], Flatten(tail));
  }

  /** The first call that cuts a frame. */
  lemma {:induction false} FirstCut(lens: seq<nat>, i: nat) returns (k: nat)
    requires i < |lens| && lens[i] % 4 != 0
    ensures k <= i && lens[k] % 4 != 0 && forall h :: 0 <= h < k ==> lens[h] % 4 == 0
  {
    if exists h :: 0 <= h < i && lens[h] % 4 != 0 {
      var h :| 0 <= h < i && lens[h] % 4 != 0;
      k := FirstCut(lens, h);
    } else {
      k := i;
    }
  }

  /** Different streams taken in give different results, if the model hides nothing. */
  lemma {:induction false} StreamsShow<S(!new)>(
    process: Process<S>, stereo: bool, state: S, a: seq<seq<byte>>, b: seq<seq<byte>>)
    requires Transparent(process)
    requires DenoiseCalls(process, stereo, state, a) == DenoiseCalls(process, stereo, state, b)
    ensures Flatten(TakenAll(stereo, a)) == Flatten(TakenAll(stereo, b))
  {
    hide DenoiseCalls, TakenAll, Transparent, Mixed, Doubled, ToPcm;
    FramingIsTransparent(process, stereo, state, a);
    FramingIsTransparent(process, stereo, state, b);
    CallsTakeAStream(process, stereo, state, a);
    CallsTakeAStream(process, stereo, state, b);
    if stereo {
      StereoRoundTrip(Flatten(TakenAll(stereo, a)));
      StereoRoundTrip(Flatten(TakenAll(stereo, b)));
    }
  }

  /** The split does not show, whatever is in the calls. */
  ghost predicate SplitIrrelevant<S>(process: Process<S>, stereo: bool, state: S, lens: seq<nat>) {
    forall chunks :: Lengths(chunks, lens) ==>
      DenoiseCalls(process, stereo, state, chunks) == DenoiseCalls(process, stereo, state, [Flatten(chunks)])
  }

  lemma {:induction false} WithoutCuts<S>(process: Process<S>, stereo: bool, state: S, lens: seq<nat>)
    requires EvenLengths(lens) && NoFrameCut(stereo, lens)
    ensures SplitIrrelevant(process, stereo, state, lens)
  {
    hide DenoiseCalls, NoFrameCut;
    forall chunks | Lengths(chunks, lens)
      ensures DenoiseCalls(process, stereo, state, chunks) == DenoiseCalls(process, stereo, state, [Flatten(chunks)])
    {
      EvenCalls(chunks, lens);
      CallsIgnoreChunking(process, stereo, state, chunks, lens);
    }
  }

  lemma {:induction false} StreamsDiffer(lens: seq<nat>, k: nat, j: nat)
    requires EvenLengths(lens) && CutsAt(lens, k, j)
    ensures k < |lens|
    ensures var chunks := Witness(lens, k);
            AllEven(chunks) && Flatten(TakenAll(true, chunks)) != Down(true, Flatten(chunks))
  {
    hide TakenAll, Down, Flatten, AllZero, CutsAt, EvenLengths, Witness, AllEven, Lengths;
    CutIsTwo(lens, k, j);
    CutTakesSilence(lens, k);
    WholeHears(lens, k, j);
    EvenCalls(Witness(lens, k), lens);
  }

  /** A cut shows when the model hides nothing. */
  lemma {:induction false} CutShows<S(!new)>(process: Process<S>, state: S, lens: seq<nat>, k: nat, j: nat)
    requires Transparent(process) && EvenLengths(lens) && CutsAt(lens, k, j)
    ensures !SplitIrrelevant(process, true, state, lens)
  {
    hide DenoiseCalls, TakenAll, Transparent, Down, Flatten, AllEven, CutsAt, EvenLengths, Witness;
    var chunks := Witness(lens, k);
    StreamsDiffer(lens, k, j);
    OneCallTakes(true, chunks);
    if DenoiseCalls(process, true, state, chunks) == DenoiseCalls(process, true, state, [Flatten(chunks)]) {
      StreamsShow(process, true, state, chunks, [Flatten(chunks)]);
      assert false;
    }
  }

  /** For accepted calls of given lengths, the result is that of one call on the whole
      stream for every content and every model if and only if no call before the last
      non-empty one cuts a frame: with a cut, a model that changes nothing shows it. */
  lemma {:induction false} SplitIrrelevantIff<S(!new)>(process: Process<S>, stereo: bool, state: S, lens: seq<nat>)
    requires Transparent(process) && EvenLengths(lens)
    ensures SplitIrrelevant(process, stereo, state, lens) <==> NoFrameCut(stereo, lens)
  {
    hide SplitIrrelevant, Transparent;
    if NoFrameCut(stereo, lens) {
      WithoutCuts(process, stereo, state, lens);
    } else {
      var i, j :| 0 <= i < j < |lens| && lens[j] != 0 && lens[i] % FrameBytes(stereo) != 0;
      assert lens[i] % 2 == 0;
      var k := FirstCut(lens, i);
      CutShows(process, state, lens, k, j);
    }
  }

  lemma {:induction false} EvenCalls(chunks: seq<seq<byte>>, lens: seq<nat>)
    requires Lengths(chunks, lens) && EvenLengths(lens)
    ensures AllEven(chunks) && Accepted(chunks) == chunks
  {
    if chunks != [] {
      var n := |chunks| - 1;
      EvenCalls(chunks[..n], lens[..n]);
      assert chunks == chunks[..n] + [chunks[n]];
    }
  }

  /** A model that changes nothing. */
  function Echo<S>(s: S, frame: seq<real>): (S, Frame) {
    (s, if |frame| == FRAME_SIZE then frame else Silence(FRAME_SIZE))
  }

  lemma EchoIsTransparent<S(!new)>()
    ensures Transparent(Echo<S>)
  {}

  /** A stereo frame handed over in two calls is lost: both are accepted, and neither
      takes anything in, where a single call takes in one sample. */
  lemma {:induction false} CutFrameLost<S>(process: Process<S>, state: S, frame: seq<byte>)
    requires |frame| == 4
    ensures DenoiseCalls(process, true, state, [frame[..2], frame[2..]]).inBuf == []
    ensures |DenoiseCalls(process, true, state, [frame]).inBuf| == 1
  {
    hide DenoiseCalls;
    var two: seq<seq<byte>>, one: seq<seq<byte>> := [frame[..2], frame[2..]], [frame];
    var half: seq<seq<byte>> := [frame[..2]];
    CallsKeepLength(process, true, state, two);
    CallsKeepLength(process, true, state, one);
    assert two[..1] == half && half[..0] == [] && one[..0] == [];
    assert TakenCount(true, half) == 0 && TakenCount(true, two) == 0 && TakenCount(true, one) == 1;
  }
}
