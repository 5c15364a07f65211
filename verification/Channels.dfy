/** Mono and stereo 16-bit PCM. */
module Channels {
  import opened Bytes
  import opened Sequences

  /** Division by two as Go does it: toward zero. */
  function HalfTowardZero(n: int): (h: int)
    ensures -1 <= n - 2 * h <= 1
    ensures n >= 0 ==> 0 <= 2 * h <= n
    ensures n <= 0 ==> n <= 2 * h <= 0
  {
    if n >= 0 then n / 2 else -(-n / 2)
  }

  /** The first n samples of `mono`, each twice: left, then right. */
  function Doubled(mono: seq<byte>, n: nat): (stereo: seq<byte>)
    requires 2 * n <= |mono|
    ensures |stereo| == 4 * n
  {
    if n == 0 then []
    else
      var low, high := mono[2 * n - 2], mono[2 * n - 1];
      Doubled(mono, n - 1) + [low, high, low, high]
  }

  /** Stereo frame i averaged. */
  function Averaged(stereo: seq<byte>, i: nat): int
    requires 4 * i + 4 <= |stereo|
  {
    HalfTowardZero(Int16(stereo[4 * i], stereo[4 * i + 1]) + Int16(stereo[4 * i + 2], stereo[4 * i + 3]))
  }

  /** The first n stereo frames, averaged. */
  function Mixed(stereo: seq<byte>, n: nat): (mono: seq<byte>)
    requires 4 * n <= |stereo|
    ensures |mono| == 2 * n
  {
    if n == 0 then [] else Mixed(stereo, n - 1) + PutInt16(Averaged(stereo, n - 1))
  }

  lemma {:induction false} DoubledStep(mono: seq<byte>, n: nat, low: byte, high: byte)
    requires 2 * n + 2 <= |mono| && mono[2 * n] == low && mono[2 * n + 1] == high
    ensures Doubled(mono, n + 1) == Doubled(mono, n) + [low, high, low, high]
  {
  }

  lemma {:induction false} MixedStep(stereo: seq<byte>, n: nat)
    requires 4 * n + 4 <= |stereo|
    ensures Mixed(stereo, n + 1) == Mixed(stereo, n) + PutInt16(Averaged(stereo, n))
  {
    hide PutInt16, Averaged;
  }

  method WriteFrame(result: array<byte>, at: nat, low: byte, high: byte)
    requires at + 4 <= result.Length
    modifies result
    ensures result[..at + 4] == old(result[..at]) + [low, high, low, high]
  {
    result[at] := low;
    result[at + 1] := high;
    result[at + 2] := low;
    result[at + 3] := high;
  }

  method MonoToStereo(mono: seq<byte>) returns (stereo: seq<byte>)
    ensures stereo == Doubled(mono, |mono| / 2)
  {
    var samples := |mono| / 2;
    var result := new byte[samples * 4](i => 0);
    assert result[..0] == Doubled(mono, 0);
    for i := 0 to samples
      invariant result[..i * 4] == Doubled(mono, i)
    {
      hide Doubled;
      WriteFrame(result, i * 4, mono[i * 2], mono[i * 2 + 1]);
      DoubledStep(mono, i, mono[i * 2], mono[i * 2 + 1]);
    }
    return result[..];
  }

  method WriteSample(result: array<byte>, at: nat, bytes: seq<byte>)
    requires at + 2 <= result.Length && |bytes| == 2
    modifies result
    ensures result[..at + 2] == old(result[..at]) + bytes
  {
    result[at] := bytes[0];
    result[at + 1] := bytes[1];
  }

  method StereoToMono(stereo: seq<byte>) returns (mono: seq<byte>)
    ensures mono == Mixed(stereo, |stereo| / 4)
  {
    hide PutInt16, Int16, HalfTowardZero;
    var samples := |stereo| / 4;
    var result := new byte[samples * 2](i => 0);
    assert result[..0] == Mixed(stereo, 0);
    for i := 0 to samples
      invariant result[..i * 2] == Mixed(stereo, i)
    {
      hide Mixed;
      var left := Int16(stereo[i * 4], stereo[i * 4 + 1]);
      var right := Int16(stereo[i * 4 + 2], stereo[i * 4 + 3]);
      var bytes := PutInt16(HalfTowardZero(left + right));
      assert bytes == PutInt16(Averaged(stereo, i));
      WriteSample(result, i * 2, bytes);
      MixedStep(stereo, i);
    }
    return result[..];
  }

  // ---------- Properties ----------

  lemma {:induction false} DoubledAt(mono: seq<byte>, n: nat, i: nat)
    requires i < n && 2 * n <= |mono|
    ensures Doubled(mono, n)[4 * i] == Doubled(mono, n)[4 * i + 2] == mono[2 * i]
    ensures Doubled(mono, n)[4 * i + 1] == Doubled(mono, n)[4 * i + 3] == mono[2 * i + 1]
  {
    if i < n - 1 { DoubledAt(mono, n - 1, i); }
  }

  lemma {:induction false} DoubledFrame(mono: seq<byte>, n: nat, i: nat)
    requires i < n && 2 * n <= |mono|
    ensures PutInt16(Averaged(Doubled(mono, n), i)) == [mono[2 * i], mono[2 * i + 1]]
  {
    hide Doubled, PutInt16, Int16, HalfTowardZero;
    var low, high := mono[2 * i], mono[2 * i + 1];
    DoubledAt(mono, n, i);
    HalfOfTwice(Int16(low, high));
    PutOfInt16(low, high);
  }

  lemma HalfOfTwice(x: int)
    ensures HalfTowardZero(x + x) == x
  {}

  /** A stereo buffer whose frames average to the samples of a mono one. */
  ghost predicate AveragesTo(stereo: seq<byte>, mono: seq<byte>, n: nat)
    requires 4 * n <= |stereo| && 2 * n <= |mono|
  {
    forall i :: 0 <= i < n ==> PutInt16(Averaged(stereo, i)) == [mono[2 * i], mono[2 * i + 1]]
  }

  lemma {:induction false} MixedFrames(stereo: seq<byte>, mono: seq<byte>, n: nat)
    requires 4 * n <= |stereo| && 2 * n <= |mono| && AveragesTo(stereo, mono, n)
    ensures Mixed(stereo, n) == mono[..2 * n]
  {
    if n == 0 {
      assert mono[..0] == [];
    } else {
      hide Mixed, PutInt16, Averaged;
      var k := n - 1;
      MixedFrames(stereo, mono, k);
      MixedStep(stereo, k);
      TwoMore(mono, 2 * k);
      assert PutInt16(Averaged(stereo, k)) == [mono[2 * k], mono[2 * k + 1]];
    }
  }

  lemma {:induction false} MixedDoubled(mono: seq<byte>, n: nat)
    requires 2 * n <= |mono|
    ensures Mixed(Doubled(mono, n), n) == mono[..2 * n]
  {
    hide Doubled, Mixed, PutInt16, Averaged;
    forall i | 0 <= i < n ensures PutInt16(Averaged(Doubled(mono, n), i)) == [mono[2 * i], mono[2 * i + 1]] {
      DoubledFrame(mono, n, i);
    }
    MixedFrames(Doubled(mono, n), mono, n);
  }

  /** Down-mixing what was doubled gives back every whole sample: all of an
      even-length buffer, and all but the last byte of an odd one. */
  lemma {:induction false} StereoRoundTrip(mono: seq<byte>)
    ensures var stereo := Doubled(mono, |mono| / 2); Mixed(stereo, |stereo| / 4) == mono[..2 * (|mono| / 2)]
    ensures |mono| % 2 == 0 ==> var stereo := Doubled(mono, |mono| / 2); Mixed(stereo, |stereo| / 4) == mono
  {
    hide Mixed, Doubled;
    MixedDoubled(mono, |mono| / 2);
    assert |mono| % 2 == 0 ==> mono[..2 * (|mono| / 2)] == mono;
  }

  lemma {:induction false} MixedSample(stereo: seq<byte>, n: nat, i: nat)
    requires i < n && 4 * n <= |stereo|
    ensures Samples(Mixed(stereo, n))[i] == Averaged(stereo, i)
    decreases n
  {
    hide PutInt16, Int16, HalfTowardZero, Samples;
    var rest, last := Mixed(stereo, n - 1), PutInt16(Averaged(stereo, n - 1));
    SamplesConcat(rest, last);
    AveragedFits(stereo, n - 1);
    if i < n - 1 {
      MixedSample(stereo, n - 1, i);
    } else {
      assert Samples(last)[0] == Int16(last[0], last[1]);
    }
  }

  lemma AveragedFits(stereo: seq<byte>, i: nat)
    requires 4 * i + 4 <= |stereo|
    ensures -0x8000 <= Averaged(stereo, i) < 0x8000
  {
    hide Int16;
  }

  /** Read back as 16-bit samples, every output sample lies between the two samples
      of its frame, and is their mean cut toward zero. */
  lemma {:induction false} MixedBetween(stereo: seq<byte>, n: nat, i: nat)
    requires i < n && 4 * n <= |stereo|
    ensures var left := Int16(stereo[4 * i], stereo[4 * i + 1]);
            var right := Int16(stereo[4 * i + 2], stereo[4 * i + 3]);
            var mono := Samples(Mixed(stereo, n))[i];
            && (left <= mono <= right || right <= mono <= left)
            && -1 <= left + right - 2 * mono <= 1
            && (left + right >= 0 ==> 0 <= 2 * mono <= left + right)
            && (left + right <= 0 ==> left + right <= 2 * mono <= 0)
  {
    hide Int16, HalfTowardZero, Samples, Mixed;
    MixedSample(stereo, n, i);
  }

  lemma {:induction false} DoubledConcat(a: seq<byte>, m: nat, b: seq<byte>, n: nat)
    requires |a| == 2 * m && 2 * n <= |b|
    ensures Doubled(a + b, m + n) == Doubled(a, m) + Doubled(b, n)
    decreases n
  {
    if n == 0 {
      DoubledPrefix(a, b, m);
    } else {
      hide Doubled;
      var k := n - 1;
      var low, high := b[2 * k], b[2 * k + 1];
      DoubledConcat(a, m, b, k);
      DoubledStep(a + b, m + k, low, high);
      DoubledStep(b, k, low, high);
      assert m + n == m + k + 1;
    }
  }

  lemma {:induction false} DoubledPrefix(a: seq<byte>, b: seq<byte>, n: nat)
    requires 2 * n <= |a|
    ensures Doubled(a + b, n) == Doubled(a, n)
    decreases n
  {
    if n > 0 { DoubledPrefix(a, b, n - 1); }
  }

  lemma {:induction false} AveragedAt(a: seq<byte>, b: seq<byte>, i: nat, j: nat)
    requires 4 * i + 4 <= |a| && 4 * j + 4 <= |b| && a[4 * i..4 * i + 4] == b[4 * j..4 * j + 4]
    ensures Averaged(a, i) == Averaged(b, j)
  {
    hide PutInt16, Int16, HalfTowardZero;
    var left, right := a[4 * i..4 * i + 4], b[4 * j..4 * j + 4];
    assert left[0] == a[4 * i] && left[1] == a[4 * i + 1] && left[2] == a[4 * i + 2] && left[3] == a[4 * i + 3];
    assert right[0] == b[4 * j] && right[1] == b[4 * j + 1] && right[2] == b[4 * j + 2] && right[3] == b[4 * j + 3];
  }

  lemma {:induction false} MixedConcat(a: seq<byte>, m: nat, b: seq<byte>, n: nat)
    requires |a| == 4 * m && 4 * n <= |b|
    ensures Mixed(a + b, m + n) == Mixed(a, m) + Mixed(b, n)
    decreases n
  {
    hide PutInt16, Averaged;
    if n == 0 {
      MixedPrefix(a, b, m);
    } else {
      MixedConcat(a, m, b, n - 1);
      var k := m + (n - 1);
      assert (a + b)[4 * k..4 * k + 4] == b[4 * (n - 1)..4 * (n - 1) + 4];
      AveragedAt(a + b, b, k, n - 1);
      assert Mixed(a + b, m + n) == Mixed(a + b, k) + PutInt16(Averaged(a + b, k));
    }
  }

  lemma {:induction false} MixedPrefix(a: seq<byte>, b: seq<byte>, n: nat)
    requires 4 * n <= |a|
    ensures Mixed(a + b, n) == Mixed(a, n)
    decreases n
  {
    hide PutInt16, Averaged;
    if n > 0 {
      MixedPrefix(a, b, n - 1);
      assert (a + b)[4 * (n - 1)..4 * (n - 1) + 4] == a[4 * (n - 1)..4 * (n - 1) + 4];
      AveragedAt(a + b, a, n - 1, n - 1);
    }
  }
}
