/** Writing and reading WAV containers. */
module Wav {
  import opened Bytes

  datatype Result =
    | Ok(bytes: seq<byte>)
    | EmptyPcm | BadChannels | BadRate | BadLength
    | DataExceedsBuffer | DataNotFound

  // Four-character codes.
  const RIFF: seq<byte> := [0x52, 0x49, 0x46, 0x46]
  const WAVE: seq<byte> := [0x57, 0x41, 0x56, 0x45]
  const FMT: seq<byte> := [0x66, 0x6D, 0x74, 0x20]
  const DATA: seq<byte> := [0x64, 0x61, 0x74, 0x61]

  const BITS_PER_SAMPLE := 16
  const MOD32 := 0x1_0000_0000

  /** A 16-bit field. */
  function Put16(n: nat): seq<byte> { PutInt16(n) }

  function ByteRate(sampleRate: int, blockAlign: int): (r: nat)
    requires sampleRate > 0 && (blockAlign == 2 || blockAlign == 4)
  {
    if blockAlign == 2 then sampleRate * 2 else sampleRate * 4
  }

  function FormatBody(numChannels: int, sampleRate: int): (bs: seq<byte>)
    requires 0 < numChannels <= 2 && sampleRate > 0
    ensures |bs| == 16
  {
    Put16(1) + Put16(numChannels) + PutUint32(sampleRate)
    + PutUint32(ByteRate(sampleRate, numChannels * BITS_PER_SAMPLE / 8))
    + Put16(numChannels * BITS_PER_SAMPLE / 8) + Put16(BITS_PER_SAMPLE)
  }

  /** A sub-chunk other than the data chunk, with whatever byte pads it to even length. */
  datatype SubChunk = SubChunk(id: seq<byte>, body: seq<byte>, pad: byte)

  predicate WellFormed(c: SubChunk) {
    |c.id| == 4 && c.id != DATA && |c.body| < MOD32
  }

  function Encode(c: SubChunk): seq<byte> {
    c.id + PutUint32(|c.body|) + c.body + (if |c.body| % 2 != 0 then [c.pad] else [])
  }

  function DataChunk(payload: seq<byte>): seq<byte> { DATA + PutUint32(|payload|) + payload }

  function RiffHeader(size: nat): (bs: seq<byte>)
    ensures |bs| == 12 && bs[..4] == RIFF && bs[8..12] == WAVE
  {
    RIFF + PutUint32(size) + WAVE
  }

  function FormatChunk(numChannels: int, sampleRate: int): (c: SubChunk)
    requires 0 < numChannels <= 2 && sampleRate > 0
    ensures WellFormed(c)
  {
    SubChunk(FMT, FormatBody(numChannels, sampleRate), 0)
  }

  /** The container written around the PCM bytes. */
  function WavBytes(pcm: seq<byte>, numChannels: int, sampleRate: int): seq<byte>
    requires 0 < numChannels <= 2 && sampleRate > 0
  {
    RiffHeader(36 + |pcm|) + (Encode(FormatChunk(numChannels, sampleRate)) + DataChunk(pcm))
  }

  /** The arguments PcmToWav rejects, and what it makes of the others. */
  function Wrapped(pcm: seq<byte>, numChannels: int, sampleRate: int): Result {
    if pcm == [] then EmptyPcm
    else if numChannels <= 0 || numChannels > 2 then BadChannels
    else if sampleRate <= 0 then BadRate
    else if |pcm| % (2 * numChannels) != 0 then BadLength
    else Ok(WavBytes(pcm, numChannels, sampleRate))
  }

  /** Wraps 16-bit PCM in a WAV container; sizes are cut to 32 bits. */
  method PcmToWav(pcm: seq<byte>, numChannels: int, sampleRate: int) returns (result: Result)
    ensures result == Wrapped(pcm, numChannels, sampleRate)
  {
    hide PutUint32, Encode, FormatChunk, RiffHeader;
    if |pcm| == 0 { return EmptyPcm; }
    if numChannels <= 0 || numChannels > 2 { return BadChannels; }
    if sampleRate <= 0 { return BadRate; }
    if |pcm| % (2 * numChannels) != 0 { return BadLength; }
    var buf := WriteHeader(|pcm|, numChannels, sampleRate);
    var out := new byte[|buf| + |pcm|](i => 0);
    forall i | 0 <= i < |buf| { out[i] := buf[i]; }
    forall i | 0 <= i < |pcm| { out[|buf| + i] := pcm[i]; }
    assert out[..] == buf + pcm;
    assert buf + pcm == WavBytes(pcm, numChannels, sampleRate);
    return Ok(out[..]);
  }

  method WriteHeader(dataSize: nat, numChannels: int, sampleRate: int) returns (buf: seq<byte>)
    requires 0 < numChannels <= 2 && sampleRate > 0
    ensures buf == RiffHeader(36 + dataSize) + Encode(FormatChunk(numChannels, sampleRate))
                   + (DATA + PutUint32(dataSize))
  {
    hide PutInt16;
    var blockAlign := numChannels * BITS_PER_SAMPLE / 8;
    var byteRate := ByteRate(sampleRate, blockAlign);
    buf := RIFF + PutUint32(36 + dataSize) + WAVE;
    buf := buf + FMT + PutUint32(16);
    buf := buf + Put16(1) + Put16(numChannels) + PutUint32(sampleRate);
    buf := buf + PutUint32(byteRate) + Put16(blockAlign) + Put16(BITS_PER_SAMPLE);
    assert buf == RiffHeader(36 + dataSize) + (FMT + PutUint32(16) + FormatBody(numChannels, sampleRate) + []);
    buf := buf + DATA + PutUint32(dataSize);
  }

  // ---------- The chunk walk ----------

  /** The walk over sub-chunks, on the bytes from the current one on. */
  function Walk(bs: seq<byte>): Result
    decreases |bs|
  {
    if |bs| < 8 then DataNotFound
    else
      var size := Uint32(bs[4..8]);
      if bs[..4] == DATA then
        if 8 + size > |bs| then DataExceedsBuffer else Ok(bs[8..8 + size])
      else
        var next := 8 + size + size % 2;
        if next > |bs| then DataNotFound else Walk(bs[next..])
  }

  function Strip(chunk: seq<byte>): Result {
    if |chunk| < 12 || chunk[..4] != RIFF || chunk[8..12] != WAVE then Ok(chunk) else Walk(chunk[12..])
  }

  lemma {:induction false} WalkAt(chunk: seq<byte>, i: nat)
    requires i <= |chunk|
    ensures Walk(chunk[i..]) ==
            if i + 8 > |chunk| then DataNotFound
            else
              var size := Uint32(chunk[i + 4..i + 8]);
              var next := i + 8 + size + size % 2;
              if chunk[i..i + 4] == DATA then
                if i + 8 + size > |chunk| then DataExceedsBuffer else Ok(chunk[i + 8..i + 8 + size])
              else if next > |chunk| then DataNotFound else Walk(chunk[next..])
  {
    hide Uint32;
    var bs := chunk[i..];
    if |bs| >= 8 {
      assert bs[..4] == chunk[i..i + 4] && bs[4..8] == chunk[i + 4..i + 8];
      var size := Uint32(bs[4..8]);
      var next := 8 + size + size % 2;
      if 8 + size <= |bs| { assert bs[8..8 + size] == chunk[i + 8..i + 8 + size]; }
      if next <= |bs| { assert bs[next..] == chunk[i + next..]; }
    }
  }

  method StripWavHeaderIfPresent(chunk: seq<byte>) returns (result: Result)
    ensures result == Strip(chunk)
  {
    hide Uint32, Walk;
    if |chunk| < 12 { return Ok(chunk); }
    if chunk[..4] != RIFF || chunk[8..12] != WAVE { return Ok(chunk); }
    var i := 12;
    while i + 8 <= |chunk|
      invariant 12 <= i <= |chunk|
      invariant Walk(chunk[12..]) == Walk(chunk[i..])
      decreases |chunk| - i
    {
      WalkAt(chunk, i);
      var chunkId := chunk[i..i + 4];
      var chunkSize := Uint32(chunk[i + 4..i + 8]);
      var next := i + 8 + chunkSize;
      if chunkId == DATA {
        if next > |chunk| { return DataExceedsBuffer; }
        return Ok(chunk[i + 8..next]);
      }
      if chunkSize % 2 != 0 { next := next + 1; }
      if next > |chunk| { return DataNotFound; }
      i := next;
    }
    WalkAt(chunk, i);
    return DataNotFound;
  }

  // ---------- Properties ----------

  function EncodeAll(cs: seq<SubChunk>): seq<byte> {
    if cs == [] then [] else Encode(cs[0]) + EncodeAll(cs[1..])
  }

  lemma {:induction false} WalkSkips(c: SubChunk, rest: seq<byte>)
    requires WellFormed(c)
    ensures Walk(Encode(c) + rest) == Walk(rest)
  {
    hide PutUint32, Uint32, Encode;
    EncodedParts(c);
    var bs := Encode(c) + rest;
    assert bs[..4] == c.id && bs[4..8] == PutUint32(|c.body|);
    assert bs[|Encode(c)|..] == rest;
  }

  lemma {:induction false} EncodedParts(c: SubChunk)
    requires WellFormed(c)
    ensures |Encode(c)| == 8 + |c.body| + |c.body| % 2
    ensures Encode(c)[..4] == c.id && Encode(c)[4..8] == PutUint32(|c.body|)
  {
    hide PutUint32, Uint32;
  }

  /** As many bytes as a 32-bit size field says there are. */
  function Cut32(bs: seq<byte>): (cut: seq<byte>)
    ensures |cut| == |bs| % MOD32
    ensures cut == bs <==> |bs| < MOD32
  {
    bs[..|bs| % MOD32]
  }

  /** A data chunk is returned, cut to the size its 32-bit field can say. */
  lemma {:induction false} WalkFindsData(payload: seq<byte>, rest: seq<byte>)
    ensures Walk(DataChunk(payload) + rest) == Ok(Cut32(payload))
  {
    hide PutUint32, Uint32;
    var bs := DataChunk(payload) + rest;
    var size := |payload| % MOD32;
    assert bs[..4] == DATA && bs[4..8] == PutUint32(|payload|);
    assert size <= |payload|;
    assert bs[8..8 + size] == Cut32(payload);
  }

  /** Whatever well-formed chunks come first, and whatever follows, the walk returns the data payload. */
  lemma {:induction false} WalkComplete(cs: seq<SubChunk>, payload: seq<byte>, rest: seq<byte>)
    requires (forall c :: c in cs ==> WellFormed(c)) && |payload| < MOD32
    ensures Walk(EncodeAll(cs) + (DataChunk(payload) + rest)) == Ok(payload)
  {
    hide Walk, Encode, DataChunk;
    var data := DataChunk(payload) + rest;
    if cs == [] {
      WalkFindsData(payload, rest);
      assert EncodeAll(cs) + data == data;
    } else {
      WalkComplete(cs[1..], payload, rest);
      WalkSkips(cs[0], EncodeAll(cs[1..]) + data);
      assert EncodeAll(cs) + data == Encode(cs[0]) + (EncodeAll(cs[1..]) + data);
    }
  }

  /** The sub-chunk at the front of a buffer long enough to hold it. */
  lemma {:induction false} FrontChunk(bs: seq<byte>) returns (c: SubChunk)
    requires |bs| >= 8 && bs[..4] != DATA
    requires var size := Uint32(bs[4..8]); 8 + size + size % 2 <= |bs|
    ensures WellFormed(c) && |c.body| == Uint32(bs[4..8])
    ensures bs == Encode(c) + bs[8 + |c.body| + |c.body| % 2..]
  {
    hide PutUint32, Uint32;
    var size := Uint32(bs[4..8]);
    var odd := size % 2;
    var next := 8 + size + odd;
    PutOfUint32(bs[4..8]);
    c := SubChunk(bs[..4], bs[8..8 + size], bs[next - 1]);
    Parts(bs, 8 + size, next);
    assert bs[8 + size..next] == if odd != 0 then [c.pad] else [];
  }

  /** A buffer is its id, its size field, and the three parts after them. */
  lemma {:induction false} Parts(bs: seq<byte>, end: nat, next: nat)
    requires 8 <= end <= next <= |bs|
    ensures bs == bs[..4] + bs[4..8] + bs[8..end] + bs[end..next] + bs[next..]
  {
  }

  /** Conversely, whatever the walk returns is the payload of the first data chunk,
      behind well-formed chunks that are not data chunks. */
  lemma {:induction false} WalkSound(bs: seq<byte>) returns (cs: seq<SubChunk>, rest: seq<byte>)
    requires Walk(bs).Ok?
    ensures (forall c :: c in cs ==> WellFormed(c)) && |Walk(bs).bytes| < MOD32
    ensures bs == EncodeAll(cs) + (DataChunk(Walk(bs).bytes) + rest)
    decreases |bs|
  {
    hide PutUint32, Uint32, Encode;
    var size := Uint32(bs[4..8]);
    if bs[..4] == DATA {
      PutOfUint32(bs[4..8]);
      cs, rest := [], bs[8 + size..];
      Parts(bs, 8 + size, 8 + size);
      assert bs[8 + size..8 + size] == [];
      assert bs == DATA + bs[4..8] + bs[8..8 + size] + rest;
      assert EncodeAll(cs) + (DataChunk(Walk(bs).bytes) + rest) == DataChunk(Walk(bs).bytes) + rest;
    } else {
      var c := FrontChunk(bs);
      var tail;
      tail, rest := WalkSound(bs[8 + size + size % 2..]);
      cs := [c] + tail;
      EncodeAllCons(c, tail, DataChunk(Walk(bs).bytes) + rest);
    }
  }

  lemma {:induction false} EncodeAllCons(c: SubChunk, tail: seq<SubChunk>, rest: seq<byte>)
    ensures EncodeAll([c] + tail) + rest == Encode(c) + (EncodeAll(tail) + rest)
  {
    hide Encode;
    assert ([c] + tail)[1..] == tail;
  }

  /** Stripping what was wrapped gives back the PCM bytes, up to the size a 32-bit field can hold. */
  lemma {:induction false} StripWrapped(pcm: seq<byte>, numChannels: int, sampleRate: int)
    requires 0 < numChannels <= 2 && sampleRate > 0
    ensures Strip(WavBytes(pcm, numChannels, sampleRate)) == Ok(Cut32(pcm))
  {
    hide Encode, DataChunk, FormatChunk, RiffHeader, Walk;
    var head, format := RiffHeader(36 + |pcm|), FormatChunk(numChannels, sampleRate);
    var wav := WavBytes(pcm, numChannels, sampleRate);
    var data := DataChunk(pcm);
    assert wav[..4] == head[..4] && wav[8..12] == head[8..12] && wav[12..] == Encode(format) + data;
    WalkSkips(format, data);
    WalkFindsData(pcm, []);
    assert data + [] == data;
  }

  /** The round trip is exact exactly for buffers under 4 GiB. */
  lemma {:induction false} RoundTrip(pcm: seq<byte>, numChannels: int, sampleRate: int)
    requires 0 < numChannels <= 2 && sampleRate > 0
    ensures Strip(WavBytes(pcm, numChannels, sampleRate)) == Ok(pcm) <==> |pcm| < MOD32
  {
    hide Strip, WavBytes;
    StripWrapped(pcm, numChannels, sampleRate);
  }

  // ---------- The header's fields ----------

  lemma {:induction false} FormatReadsBack(numChannels: int, sampleRate: int)
    requires 0 < numChannels <= 2 && sampleRate > 0
    ensures var f := FormatBody(numChannels, sampleRate);
            && Int16(f[0], f[1]) == 1 && Int16(f[2], f[3]) == numChannels
            && Uint32(f[4..8]) == sampleRate % 0x1_0000_0000
            && Uint32(f[8..12]) == sampleRate * numChannels * 2 % 0x1_0000_0000
            && Int16(f[12], f[13]) == 2 * numChannels && Int16(f[14], f[15]) == 16
  {
    hide PutInt16, Int16, PutUint32, Uint32;
    var f := FormatBody(numChannels, sampleRate);
    assert f[4..8] == PutUint32(sampleRate);
    assert f[8..12] == PutUint32(ByteRate(sampleRate, numChannels * BITS_PER_SAMPLE / 8));
    assert sampleRate * numChannels * 2 == if numChannels == 1 then sampleRate * 2 else sampleRate * 4;
    assert f[0..2] == Put16(1) && f[2..4] == Put16(numChannels);
    assert f[12..14] == Put16(numChannels * 2) && f[14..16] == Put16(16);
  }

  /** The written bytes, read where a WAV reader looks: 44 bytes of header, with the size
      of everything after its first 8 bytes, uncompressed format 1, channels, rate, bytes
      per second and per frame, 16 bits and the size of the PCM bytes that follow. */
  lemma {:induction false} HeaderReadsBack(pcm: seq<byte>, numChannels: int, sampleRate: int)
    requires 0 < numChannels <= 2 && sampleRate > 0
    ensures var wav := WavBytes(pcm, numChannels, sampleRate);
            && |wav| == 44 + |pcm| && wav[44..] == pcm
            && wav[0..4] == [0x52, 0x49, 0x46, 0x46] && wav[8..12] == [0x57, 0x41, 0x56, 0x45]
            && wav[12..16] == [0x66, 0x6D, 0x74, 0x20] && wav[36..40] == [0x64, 0x61, 0x74, 0x61]
            && Uint32(wav[4..8]) == (|wav| - 8) % 0x1_0000_0000
            && Uint32(wav[16..20]) == 16
            && Int16(wav[20], wav[21]) == 1 && Int16(wav[22], wav[23]) == numChannels
            && Uint32(wav[24..28]) == sampleRate % 0x1_0000_0000
            && Uint32(wav[28..32]) == sampleRate * numChannels * 2 % 0x1_0000_0000
            && Int16(wav[32], wav[33]) == 2 * numChannels && Int16(wav[34], wav[35]) == 16
            && Uint32(wav[40..44]) == |pcm| % 0x1_0000_0000
  {
    hide FormatBody, PutUint32, Uint32, Int16;
    var wav, f := WavBytes(pcm, numChannels, sampleRate), FormatBody(numChannels, sampleRate);
    FormatReadsBack(numChannels, sampleRate);
    assert wav == RIFF + PutUint32(36 + |pcm|) + WAVE + FMT + PutUint32(16) + f + [] + DATA + PutUint32(|pcm|) + pcm;
    assert wav[4..8] == PutUint32(36 + |pcm|) && wav[16..20] == PutUint32(16) && wav[40..44] == PutUint32(|pcm|);
    assert wav[20..36] == f && wav[24..28] == f[4..8] && wav[28..32] == f[8..12];
    assert forall i :: 0 <= i < 16 ==> wav[20 + i] == wav[20..36][i];
    NoCut(16);
  }

  /** Exactly these arguments are wrapped: some PCM, in whole frames of one or two
      channels, at a positive rate. */
  lemma {:induction false} WrappedWhen(pcm: seq<byte>, numChannels: int, sampleRate: int)
    ensures Wrapped(pcm, numChannels, sampleRate).Ok? <==>
            && |pcm| > 0 && sampleRate > 0
            && ((numChannels == 1 && |pcm| % 2 == 0) || (numChannels == 2 && |pcm| % 4 == 0))
  {
    hide WavBytes;
    if numChannels == 1 { assert 2 * numChannels == 2; }
    if numChannels == 2 { assert 2 * numChannels == 4; }
  }

  // ---------- What is not stripped ----------

  /** A data chunk whose size says more bytes than follow it. */
  predicate Truncated(data: seq<byte>) {
    |data| >= 8 && data[..4] == DATA && 8 + Uint32(data[4..8]) > |data|
  }

  lemma {:induction false} TruncatedFound(cs: seq<SubChunk>, data: seq<byte>)
    requires (forall c :: c in cs ==> WellFormed(c)) && Truncated(data)
    ensures Walk(EncodeAll(cs) + data) == DataExceedsBuffer
  {
    hide Encode, Uint32;
    if cs == [] {
      assert EncodeAll(cs) + data == data;
    } else {
      hide Walk;
      TruncatedFound(cs[1..], data);
      WalkSkips(cs[0], EncodeAll(cs[1..]) + data);
      assert EncodeAll(cs) + data == Encode(cs[0]) + (EncodeAll(cs[1..]) + data);
    }
  }

  lemma {:induction false} FindTruncated(bs: seq<byte>) returns (cs: seq<SubChunk>, data: seq<byte>)
    requires Walk(bs) == DataExceedsBuffer
    ensures (forall c :: c in cs ==> WellFormed(c)) && Truncated(data) && bs == EncodeAll(cs) + data
    decreases |bs|
  {
    hide Uint32, Encode;
    if bs[..4] == DATA {
      cs, data := [], bs;
      assert EncodeAll(cs) + data == data;
    } else {
      var c := FrontChunk(bs);
      var tail;
      tail, data := FindTruncated(bs[8 + |c.body| + |c.body| % 2..]);
      cs := [c] + tail;
      EncodeAllCons(c, tail, data);
    }
  }

  /** Well-formed chunks, none of them a data chunk, and then a truncated data chunk. */
  ghost predicate EndsTruncated(bs: seq<byte>) {
    exists cs, data ::
      (forall c :: c in cs ==> WellFormed(c)) && Truncated(data) && bs == EncodeAll(cs) + data
  }

  /** Which results the walk gives: it never makes one up, reports a size beyond the
      buffer exactly when the first data chunk is truncated, and otherwise finds none. */
  lemma {:induction false} WalkResults(bs: seq<byte>)
    ensures Walk(bs).Ok? || Walk(bs) == DataExceedsBuffer || Walk(bs) == DataNotFound
    ensures Walk(bs) == DataExceedsBuffer <==> EndsTruncated(bs)
    decreases |bs|
  {
    hide Encode, Uint32, Truncated;
    ThreeResults(bs);
    if Walk(bs) == DataExceedsBuffer {
      var cs, data := FindTruncated(bs);
    }
    if EndsTruncated(bs) {
      var cs, data :|
        (forall c :: c in cs ==> WellFormed(c)) && Truncated(data) && bs == EncodeAll(cs) + data;
      TruncatedFound(cs, data);
    }
  }

  lemma {:induction false} ThreeResults(bs: seq<byte>)
    ensures Walk(bs).Ok? || Walk(bs) == DataExceedsBuffer || Walk(bs) == DataNotFound
    ensures Walk(bs).Ok? ==> |Walk(bs).bytes| < |bs|
    decreases |bs|
  {
    hide Uint32;
    if |bs| >= 8 && bs[..4] != DATA {
      var size := Uint32(bs[4..8]);
      var next := 8 + size + size % 2;
      if next <= |bs| { ThreeResults(bs[next..]); }
    }
  }

  /** A buffer comes back as it is exactly when it does not begin as a WAV container. */
  lemma {:induction false} StripLeaves(chunk: seq<byte>)
    ensures Strip(chunk) == Ok(chunk) <==>
            |chunk| < 12 || chunk[0..4] != [0x52, 0x49, 0x46, 0x46] || chunk[8..12] != [0x57, 0x41, 0x56, 0x45]
  {
    hide Walk;
    if |chunk| >= 12 {
      assert chunk[0..4] == chunk[..4];
      ThreeResults(chunk[12..]);
    }
  }
}
