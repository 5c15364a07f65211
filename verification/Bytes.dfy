/** Bytes, and little-endian 16- and 32-bit integers. */
module Bytes {
  type byte = b: int | 0 <= b < 0x100

  /** A signed 16-bit sample from its two bytes, in two's complement. */
  function Int16(low: byte, high: byte): (n: int)
    ensures -0x8000 <= n < 0x8000
    ensures n == low as int + 0x100 * high as int || n == low as int + 0x100 * high as int - 0x1_0000
  {
    var u := low as int + 0x100 * high as int;
    if u < 0x8000 then u else u - 0x1_0000
  }

  /** The two bytes of `n` cut to 16 bits. */
  function PutInt16(n: int): (bs: seq<byte>)
    ensures |bs| == 2
    ensures -0x8000 <= n < 0x8000 ==> Int16(bs[0], bs[1]) == n
  {
    var u := n % 0x1_0000;
    [u % 0x100, u / 0x100]
  }

  lemma {:induction false} PutOfInt16(low: byte, high: byte)
    ensures PutInt16(Int16(low, high)) == [low, high]
  {
    var u := low as int + 0x100 * high as int;
    assert Int16(low, high) % 0x1_0000 == u by {
      if u >= 0x8000 { assert (u - 0x1_0000) % 0x1_0000 == u; }
    }
    assert u / 0x100 == high && u % 0x100 == low;
  }

  function Uint32(bs: seq<byte>): (n: int)
    requires |bs| == 4
    ensures 0 <= n < 0x1_0000_0000
  {
    var b0: int, b1: int, b2: int, b3: int := bs[0], bs[1], bs[2], bs[3];
    b0 + 0x100 * b1 + 0x1_0000 * b2 + 0x100_0000 * b3
  }

  /** The four bytes of `n` cut to 32 bits. */
  function PutUint32(n: nat): (bs: seq<byte>)
    ensures |bs| == 4 && Uint32(bs) == n % 0x1_0000_0000
  {
    var u := n % 0x1_0000_0000;
    var u1 := u / 0x100;
    var u2 := u1 / 0x100;
    var u3 := u2 / 0x100;
    [u % 0x100, u1 % 0x100, u2 % 0x100, u3]
  }

  lemma {:induction false} LastByte(rest: nat, last: byte)
    ensures (last as int + 0x100 * rest) / 0x100 == rest && (last as int + 0x100 * rest) % 0x100 == last
  {
  }

  lemma {:induction false} NoCut(n: nat)
    requires n < 0x1_0000_0000
    ensures n % 0x1_0000_0000 == n
  {
  }

  /** The first byte counts ones, and the last one counts 2^24s. */
  lemma {:induction false} LittleEndian(bs: seq<byte>)
    requires |bs| == 4
    ensures Uint32(bs) % 0x100 == bs[0] && Uint32(bs) / 0x100 % 0x100 == bs[1]
    ensures Uint32(bs) / 0x1_0000 % 0x100 == bs[2] && Uint32(bs) / 0x100_0000 == bs[3]
  {
    var b0: int, b1: int, b2: int, b3: int := bs[0], bs[1], bs[2], bs[3];
    var u2 := b2 + 0x100 * b3;
    var u1 := b1 + 0x100 * u2;
    var n := Uint32(bs);
    assert n == b0 + 0x100 * u1;
    LastByte(u1, bs[0]);
    LastByte(u2, bs[1]);
    LastByte(b3, bs[2]);
    assert n / 0x1_0000 == n / 0x100 / 0x100 && n / 0x100_0000 == n / 0x1_0000 / 0x100;
  }

  lemma {:induction false} PutOfUint32(bs: seq<byte>)
    requires |bs| == 4
    ensures PutUint32(Uint32(bs)) == bs
  {
    var b0: int, b1: int, b2: int, b3: int := bs[0], bs[1], bs[2], bs[3];
    var u2 := b2 + 0x100 * b3;
    var u1 := b1 + 0x100 * u2;
    var n := Uint32(bs);
    assert n == b0 + 0x100 * u1;
    NoCut(n);
    LastByte(u1, bs[0]);
    LastByte(u2, bs[1]);
    LastByte(b3, bs[2]);
  }

  /** The samples of 16-bit audio; an odd last byte is ignored. */
  function Samples(bs: seq<byte>): (xs: seq<int>)
    ensures |xs| == |bs| / 2
    ensures forall i :: 0 <= i < |xs| ==> xs[i] == Int16(bs[2 * i], bs[2 * i + 1])
  {
    seq(|bs| / 2, i requires 0 <= i < |bs| / 2 => Int16(bs[2 * i], bs[2 * i + 1]))
  }

  lemma SamplesConcat(a: seq<byte>, b: seq<byte>)
    requires |a| % 2 == 0
    ensures Samples(a + b) == Samples(a) + Samples(b)
  {
  }

  /** Chunks that do not cut a 16-bit sample in two. */
  predicate WholeSamples(chunks: seq<seq<byte>>) {
    forall i :: 0 <= i < |chunks| ==> |chunks[i]| % 2 == 0
  }
}
