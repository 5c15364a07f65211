/** The bounded text splitter of the Deepgram client, against the server's own buffer. */
module DeepgramTts {
  import opened Bytes
  import opened Sequences

  const MAX_CHARS_BEFORE_FLUSH := 2000
  const CHUNK_SIZE := 1900

  datatype Message = Speak(text: seq<byte>) | Flush | Clear
  datatype Status = Sent | WriteFailed | NotInitialized | NoSession | EmptyText

  // ---------- The messages of one call ----------

  /** Which writes of a call succeed, in the order they are tried. */
  type Writes = nat -> bool

  /** What reaches the server, the counter left behind, and whether the call succeeds. */
  datatype Plan = Plan(messages: seq<Message>, charCount: nat, sent: bool)

  function Written(ok: bool, m: Message): seq<Message> { if ok then [m] else [] }

  /** BufferText on a non-empty text, with `count` characters on the counter and k
      writes done. A failed write ends the call, except that of an automatic flush. */
  function Split(count: nat, text: seq<byte>, ok: Writes, k: nat): Plan
    decreases |text|
  {
    if |text| > CHUNK_SIZE then
      var chunk := Speak(text[..CHUNK_SIZE]);
      if !ok(k) then Plan([], count, false)
      else if !ok(k + 1) then Plan([chunk], count, false)
      else
        var rest := Split(0, text[CHUNK_SIZE..], ok, k + 2);
        Plan([chunk, Flush] + rest.messages, rest.charCount, rest.sent)
    else if count + |text| >= MAX_CHARS_BEFORE_FLUSH then
      Plan(Written(ok(k), Flush) + Written(ok(k + 1), Speak(text)), |text|, ok(k + 1))
    else
      Plan(Written(ok(k), Speak(text)), count + |text|, ok(k))
  }

  /** The server's unflushed bytes after a message. */
  function Receive(held: nat, m: Message): nat {
    match m
    case Speak(text) => held + |text|
    case Flush => 0
    case Clear => 0
  }

  function Held(held: nat, messages: seq<Message>): nat
    decreases |messages|
  {
    if messages == [] then held else Held(Receive(held, messages[0]), messages[1..])
  }

  function Max(a: nat, b: nat): nat { if a > b then a else b }

  /** The most the server ever holds on the way. */
  function Peak(held: nat, messages: seq<Message>): (peak: nat)
    ensures peak >= held
    decreases |messages|
  {
    if messages == [] then held else Max(held, Peak(Receive(held, messages[0]), messages[1..]))
  }

  function TextOf(m: Message): seq<byte> { if m.Speak? then m.text else [] }

  function Payload(messages: seq<Message>): seq<byte> {
    if messages == [] then [] else TextOf(messages[0]) + Payload(messages[1..])
  }

  class DeepgramTTS {
    var isInitialized: bool
    var hasSession: bool
    var charCount: nat
    var wire: seq<Message>  // everything that reached the server, in order

    constructor ()
      ensures !isInitialized && !hasSession && charCount == 0 && wire == []
    {
      isInitialized, hasSession, charCount, wire := false, false, 0, [];
    }

    function Ready(): Status
      reads this
    {
      if !isInitialized then NotInitialized else if !hasSession then NoSession else Sent
    }

    /** One write; `ok` is its outcome. */
    method Send(m: Message, ok: bool) returns (written: bool)
      modifies this`wire
      ensures written == ok && wire == old(wire) + Written(ok, m)
    {
      if ok { wire := wire + [m]; }
      return ok;
    }

    method BufferText(text: seq<byte>, ok: Writes) returns (status: Status)
      modifies this`charCount, this`wire
      ensures var plan := Split(old(charCount), text, ok, 0);
              if Ready() != Sent || text == [] then
                unchanged(this) && status == if Ready() != Sent then Ready() else EmptyText
              else
                && wire == old(wire) + plan.messages && charCount == plan.charCount
                && status == if plan.sent then Sent else WriteFailed
    {
      if !isInitialized { return NotInitialized; }
      if !hasSession { return NoSession; }
      if |text| == 0 { return EmptyText; }
      var rest, k := text, 0;
      ghost var plan := Split(charCount, text, ok, 0);
      while |rest| > CHUNK_SIZE
        invariant rest != []
        invariant Remaining(old(wire), plan, wire, Split(charCount, rest, ok, k))
        decreases |rest|
      {
        ghost var soFar := wire;
        var chunk := rest[..CHUNK_SIZE];
        var remaining := rest[CHUNK_SIZE..];
        var written := Send(Speak(chunk), ok(k));
        if !written { return WriteFailed; }
        written := Send(Flush, ok(k + 1));
        if !written { return WriteFailed; }
        ghost var later := Split(0, remaining, ok, k + 2).messages;
        assert wire + later == soFar + ([Speak(chunk), Flush] + later);
        charCount := 0;
        rest, k := remaining, k + 2;
      }
      status := SendLast(rest, ok, k);
    }

    /** The remaining text, after an automatic flush if the counter calls for one. */
    method SendLast(text: seq<byte>, ok: Writes, k: nat) returns (status: Status)
      requires 0 < |text| <= CHUNK_SIZE
      modifies this`charCount, this`wire
      ensures var plan := Split(old(charCount), text, ok, k);
              && wire == old(wire) + plan.messages && charCount == plan.charCount
              && status == if plan.sent then Sent else WriteFailed
    {
      charCount := charCount + |text|;
      var next := k;
      if charCount >= MAX_CHARS_BEFORE_FLUSH {
        charCount := |text|;
        var _ := Send(Flush, ok(k));
        next := k + 1;
      }
      var written := Send(Speak(text), ok(next));
      assert old(wire) + Written(ok(k), Flush) + Written(ok(next), Speak(text))
          == old(wire) + (Written(ok(k), Flush) + Written(ok(next), Speak(text)));
      return if written then Sent else WriteFailed;
    }

    method FlushBuffer(ok: bool) returns (status: Status)
      modifies this`charCount, this`wire
      ensures if Ready() != Sent then
                unchanged(this) && status == Ready()
              else
                && wire == old(wire) + Written(ok, Flush) && charCount == 0
                && status == if ok then Sent else WriteFailed
    {
      if !isInitialized { return NotInitialized; }
      if !hasSession { return NoSession; }
      charCount := 0;
      var written := Send(Flush, ok);
      return if written then Sent else WriteFailed;
    }

    method Reset(ok: bool) returns (status: Status)
      modifies this`charCount, this`wire
      ensures if Ready() != Sent then
                unchanged(this) && status == Ready()
              else
                && wire == old(wire) + Written(ok, Clear) && charCount == 0
                && status == if ok then Sent else WriteFailed
    {
      if !isInitialized { return NotInitialized; }
      if !hasSession { return NoSession; }
      charCount := 0;
      var written := Send(Clear, ok);
      return if written then Sent else WriteFailed;
    }
  }

  /** The plan so far and what is left of it make up the whole plan. */
  ghost predicate Remaining(start: seq<Message>, whole: Plan, wire: seq<Message>, left: Plan) {
    start + whole.messages == wire + left.messages && whole.charCount == left.charCount && whole.sent == left.sent
  }

  // ---------- Messages put together ----------

  lemma {:induction false} HeldConcat(held: nat, a: seq<Message>, b: seq<Message>)
    ensures Held(held, a + b) == Held(Held(held, a), b)
    ensures Peak(held, a + b) == Max(Peak(held, a), Peak(Held(held, a), b))
    decreases |a|
  {
    if a == [] {
      assert a + b == b;
    } else {
      HeldConcat(Receive(held, a[0]), a[1..], b);
      assert (a + b)[1..] == a[1..] + b;
    }
  }

  lemma {:induction false} PayloadConcat(a: seq<Message>, b: seq<Message>)
    ensures Payload(a + b) == Payload(a) + Payload(b)
  {
    hide TextOf;
    if a == [] {
      assert a + b == b && [] + Payload(b) == Payload(b);
    } else {
      PayloadConcat(a[1..], b);
      PayloadFirst(a[0], a[1..] + b);
      assert [a[0]] + (a[1..] + b) == a + b;
      Regroup(TextOf(a[0]), 0, Payload(a[1..]), Payload(b));
    }
  }

  lemma {:induction false} PayloadFirst(m: Message, rest: seq<Message>)
    ensures Payload([m] + rest) == TextOf(m) + Payload(rest)
  {
    hide TextOf;
    assert ([m] + rest)[1..] == rest;
  }

  lemma Concat(held: nat, a: seq<Message>, b: seq<Message>)
    ensures Held(held, a + b) == Held(Held(held, a), b)
    ensures Peak(held, a + b) == Max(Peak(held, a), Peak(Held(held, a), b))
    ensures Payload(a + b) == Payload(a) + Payload(b)
  {
    hide Held, Peak, Payload;
    HeldConcat(held, a, b);
    PayloadConcat(a, b);
  }

  lemma {:induction false} One(held: nat, ok: bool, m: Message)
    ensures var sent := Written(ok, m);
            && Held(held, sent) == (if ok then Receive(held, m) else held)
            && Peak(held, sent) == (if ok then Max(held, Receive(held, m)) else held)
            && Payload(sent) == if ok && m.Speak? then m.text else []
  {
    if ok {
      assert [m][1..] == [];
      assert Held(held, [m]) == Held(Receive(held, m), []);
      if m.Speak? { assert m.text + [] == m.text; }
    }
  }

  /** A chunk sent and flushed ahead of other messages. */
  lemma {:induction false} ChunkFirst(held: nat, chunk: seq<byte>, rest: seq<Message>)
    ensures var sent := [Speak(chunk), Flush] + rest;
            && Payload(sent) == chunk + Payload(rest)
            && Held(held, sent) == Held(0, rest)
            && Peak(held, sent) == Max(held + |chunk|, Peak(0, rest))
  {
    One(held, true, Speak(chunk));
    One(held + |chunk|, true, Flush);
    Concat(held, [Speak(chunk)], [Flush]);
    Concat(held, [Speak(chunk), Flush], rest);
    assert [Speak(chunk)] + [Flush] == [Speak(chunk), Flush];
    assert chunk + [] + Payload(rest) == chunk + Payload(rest);
  }

  /** The automatic flush and the text after it. */
  lemma {:induction false} FlushThen(held: nat, flushed: bool, spoken: bool, text: seq<byte>)
    ensures var sent := Written(flushed, Flush) + Written(spoken, Speak(text));
            var kept := if flushed then 0 else held;
            && Payload(sent) == (if spoken then text else [])
            && Held(held, sent) == (if spoken then kept + |text| else kept)
            && Peak(held, sent) == if spoken then Max(held, kept + |text|) else held
  {
    hide Held, Peak, Payload, Written;
    One(held, flushed, Flush);
    One(if flushed then 0 else held, spoken, Speak(text));
    Concat(held, Written(flushed, Flush), Written(spoken, Speak(text)));
  }

  // ---------- Properties of one call ----------

  /** The payloads are non-empty, at most 1900 bytes, and concatenate to a prefix of
      the text: the whole of it if and only if the call succeeds. */
  lemma {:induction false} PayloadsAreTheText(count: nat, text: seq<byte>, ok: Writes, k: nat)
    requires text != []
    ensures var plan := Split(count, text, ok, k);
            Payload(plan.messages) <= text && (Payload(plan.messages) == text <==> plan.sent)
    ensures forall m :: m in Split(count, text, ok, k).messages && m.Speak? ==> 0 < |m.text| <= CHUNK_SIZE
    decreases |text|
  {
    hide Payload;
    if |text| > CHUNK_SIZE {
      var chunk, rest := text[..CHUNK_SIZE], text[CHUNK_SIZE..];
      assert text == chunk + rest;
      One(0, true, Speak(chunk));
      One(0, false, Speak(chunk));
      if ok(k) && ok(k + 1) {
        PayloadsAreTheText(0, rest, ok, k + 2);
        ChunkFirst(0, chunk, Split(0, rest, ok, k + 2).messages);
      }
    } else if count + |text| >= MAX_CHARS_BEFORE_FLUSH {
      FlushThen(0, ok(k), ok(k + 1), text);
    } else {
      One(0, ok(k), Speak(text));
    }
  }

  /** A flush of the call is tried and not written, and the server is left with more
      than the counter will say. */
  predicate LosesFlush(count: nat, text: seq<byte>, ok: Writes, k: nat)
    decreases |text|
  {
    if |text| > CHUNK_SIZE then
      ok(k) && (!ok(k + 1) || LosesFlush(0, text[CHUNK_SIZE..], ok, k + 2))
    else
      count + |text| >= MAX_CHARS_BEFORE_FLUSH && !ok(k) && (ok(k + 1) || count > |text|)
  }

  /** From an exact counter, a call leaves the counter below what the server holds if
      and only if it loses a flush. */
  lemma {:induction false} UndercountIsLostFlush(count: nat, text: seq<byte>, ok: Writes, k: nat)
    requires text != [] && count < MAX_CHARS_BEFORE_FLUSH
    ensures var plan := Split(count, text, ok, k);
            Held(count, plan.messages) > plan.charCount <==> LosesFlush(count, text, ok, k)
    decreases |text|
  {
    hide Held, Peak, Payload;
    if |text| > CHUNK_SIZE {
      var chunk, rest := text[..CHUNK_SIZE], text[CHUNK_SIZE..];
      One(count, true, Speak(chunk));
      One(count, false, Speak(chunk));
      if ok(k) && ok(k + 1) {
        UndercountIsLostFlush(0, rest, ok, k + 2);
        ChunkFirst(count, chunk, Split(0, rest, ok, k + 2).messages);
      }
    } else if count + |text| >= MAX_CHARS_BEFORE_FLUSH {
      FlushThen(count, ok(k), ok(k + 1), text);
    } else {
      One(count, ok(k), Speak(text));
    }
  }

  /** Every flush the call gets to is written. */
  predicate FlushesWritten(count: nat, text: seq<byte>, ok: Writes, k: nat)
    decreases |text|
  {
    if |text| > CHUNK_SIZE then
      ok(k) ==> ok(k + 1) && FlushesWritten(0, text[CHUNK_SIZE..], ok, k + 2)
    else
      count + |text| >= MAX_CHARS_BEFORE_FLUSH ==> ok(k)
  }

  /** While flushes are written the counter covers what the server holds, whatever
      else fails; the counter stays below the limit and the server below 3900. */
  lemma {:induction false} CounterCovers(held: nat, count: nat, text: seq<byte>, ok: Writes, k: nat)
    requires text != [] && held <= count < MAX_CHARS_BEFORE_FLUSH && FlushesWritten(count, text, ok, k)
    ensures var plan := Split(count, text, ok, k);
            && Held(held, plan.messages) <= plan.charCount < MAX_CHARS_BEFORE_FLUSH
            && Peak(held, plan.messages) < 3900
    decreases |text|
  {
    hide Held, Peak, Payload;
    if |text| > CHUNK_SIZE {
      var chunk, rest := text[..CHUNK_SIZE], text[CHUNK_SIZE..];
      One(held, false, Speak(chunk));
      if ok(k) {
        CounterCovers(0, 0, rest, ok, k + 2);
        ChunkFirst(held, chunk, Split(0, rest, ok, k + 2).messages);
      }
    } else if count + |text| >= MAX_CHARS_BEFORE_FLUSH {
      FlushThen(held, ok(k), ok(k + 1), text);
    } else {
      One(held, ok(k), Speak(text));
    }
  }

  ghost predicate AllWritten(ok: Writes) { forall k :: ok(k) }

  /** With every write going through: the counter is exactly what the server holds, and
      the peak is this. A long text puts its first chunk on top of what the server
      already holds, before anything is flushed. */
  lemma {:induction false} PeakOfCall(count: nat, text: seq<byte>, ok: Writes, k: nat)
    requires text != [] && count < MAX_CHARS_BEFORE_FLUSH && AllWritten(ok)
    ensures var plan := Split(count, text, ok, k); var peak := Peak(count, plan.messages);
            && Held(count, plan.messages) == plan.charCount < MAX_CHARS_BEFORE_FLUSH && plan.sent
            && peak == if |text| > CHUNK_SIZE then count + CHUNK_SIZE
                       else if count + |text| >= MAX_CHARS_BEFORE_FLUSH then Max(count, |text|)
                       else count + |text|
    decreases |text|
  {
    hide Held, Peak, Payload;
    if |text| > CHUNK_SIZE {
      var chunk, rest := text[..CHUNK_SIZE], text[CHUNK_SIZE..];
      PeakOfCall(0, rest, ok, k + 2);
      ChunkFirst(count, chunk, Split(0, rest, ok, k + 2).messages);
    } else if count + |text| >= MAX_CHARS_BEFORE_FLUSH {
      FlushThen(count, ok(k), ok(k + 1), text);
    } else {
      One(count, ok(k), Speak(text));
    }
  }

  /** The limit the splitter is there to keep is kept throughout a call if and only
      if the text needs no splitting or fewer than 100 characters are waiting. */
  lemma {:induction false} LimitKept(count: nat, text: seq<byte>, ok: Writes)
    requires text != [] && count < MAX_CHARS_BEFORE_FLUSH && AllWritten(ok)
    ensures Peak(count, Split(count, text, ok, 0).messages) < MAX_CHARS_BEFORE_FLUSH
            <==> |text| <= CHUNK_SIZE || count < 100
  {
    PeakOfCall(count, text, ok, 0);
  }

  // ---------- Sequences of calls ----------

  datatype Call = Buffer(text: seq<byte>, ok: Writes) | FlushCall(written: bool) | ResetCall(written: bool)

  /** What a call on a live session sends, and the counter it leaves. */
  function Does(count: nat, call: Call): Plan {
    match call
    case Buffer(text, ok) => Split(count, text, ok, 0)
    case FlushCall(written) => Plan(Written(written, Flush), 0, written)
    case ResetCall(written) => Plan(Written(written, Clear), 0, written)
  }

  predicate NoEmptyText(calls: seq<Call>) {
    forall i :: 0 <= i < |calls| && calls[i].Buffer? ==> calls[i].text != []
  }

  /** Messages and counter after calls on a fresh session. */
  function Session(calls: seq<Call>): Plan {
    if calls == [] then Plan([], 0, true)
    else
      var before := Session(calls[..|calls| - 1]);
      var last := Does(before.charCount, calls[|calls| - 1]);
      Plan(before.messages + last.messages, last.charCount, before.sent && last.sent)
  }

  /** The flushes and clears of a call are written. */
  predicate Empties(count: nat, call: Call) {
    match call
    case Buffer(text, ok) => FlushesWritten(count, text, ok, 0)
    case FlushCall(written) => written
    case ResetCall(written) => written
  }

  predicate AllEmpty(calls: seq<Call>) {
    forall i :: 0 <= i < |calls| ==> Empties(Session(calls[..i]).charCount, calls[i])
  }

  lemma {:induction false} OneCallCovers(held: nat, count: nat, call: Call)
    requires held <= count < MAX_CHARS_BEFORE_FLUSH && (call.Buffer? ==> call.text != []) && Empties(count, call)
    ensures var plan := Does(count, call);
            && Held(held, plan.messages) <= plan.charCount < MAX_CHARS_BEFORE_FLUSH
            && Peak(held, plan.messages) < 3900
  {
    hide Held, Peak, Payload;
    match call
    case Buffer(text, ok) => CounterCovers(held, count, text, ok, 0);
    case FlushCall(written) => One(held, written, Flush);
    case ResetCall(written) => One(held, written, Clear);
  }

  /** Over a whole session in which texts may fail to be written but flushes and clears
      are, the counter covers what the server holds, and the server stays below 3900. */
  lemma {:induction false} SessionCovers(calls: seq<Call>)
    requires NoEmptyText(calls) && AllEmpty(calls)
    ensures Held(0, Session(calls).messages) <= Session(calls).charCount < MAX_CHARS_BEFORE_FLUSH
    ensures Peak(0, Session(calls).messages) < 3900
  {
    hide Does, Empties;
    if calls == [] {
      assert Session(calls).messages == [];
    } else {
      hide Held, Peak;
      var n := |calls| - 1;
      var before := Session(calls[..n]);
      forall i | 0 <= i < n ensures calls[..n][..i] == calls[..i] {}
      SessionCovers(calls[..n]);
      OneCallCovers(Held(0, before.messages), before.charCount, calls[n]);
      Concat(0, before.messages, Does(before.charCount, calls[n]).messages);
    }
  }

  ghost predicate Succeeds(call: Call) {
    match call
    case Buffer(text, ok) => text != [] && AllWritten(ok)
    case FlushCall(written) => written
    case ResetCall(written) => written
  }

  ghost predicate AllSucceed(calls: seq<Call>) {
    forall i :: 0 <= i < |calls| ==> Succeeds(calls[i])
  }

  /** A text that has to be split comes while 100 or more characters are waiting. */
  predicate Crowds(count: nat, call: Call) {
    call.Buffer? && |call.text| > CHUNK_SIZE && count >= 100
  }

  lemma {:induction false} OneCallKeeps(count: nat, call: Call)
    requires count < MAX_CHARS_BEFORE_FLUSH && Succeeds(call)
    ensures var plan := Does(count, call);
            && Held(count, plan.messages) == plan.charCount < MAX_CHARS_BEFORE_FLUSH
            && (Peak(count, plan.messages) < MAX_CHARS_BEFORE_FLUSH <==> !Crowds(count, call))
            && Peak(count, plan.messages) < 3900
  {
    hide Held, Peak, Payload;
    match call
    case Buffer(text, ok) => PeakOfCall(count, text, ok, 0);
    case FlushCall(written) => One(count, written, Flush);
    case ResetCall(written) => One(count, written, Clear);
  }

  /** After any sequence of successful calls the counter is exactly the server's unflushed bytes. */
  lemma {:induction false} CounterAlwaysExact(calls: seq<Call>)
    requires AllSucceed(calls)
    ensures Held(0, Session(calls).messages) == Session(calls).charCount < MAX_CHARS_BEFORE_FLUSH
  {
    hide Does, Succeeds;
    if calls == [] {
      assert Session(calls).messages == [];
    } else {
      hide Held, Peak;
      var n := |calls| - 1;
      var before := Session(calls[..n]);
      CounterAlwaysExact(calls[..n]);
      OneCallKeeps(before.charCount, calls[n]);
      Concat(0, before.messages, Does(before.charCount, calls[n]).messages);
    }
  }

  /** No call of the session crowds the server's buffer. */
  predicate NoneCrowds(calls: seq<Call>) {
    forall i :: 0 <= i < |calls| ==> !Crowds(Session(calls[..i]).charCount, calls[i])
  }

  lemma {:induction false} NoneCrowdsStep(calls: seq<Call>)
    requires calls != []
    ensures var n := |calls| - 1;
            NoneCrowds(calls) <==> NoneCrowds(calls[..n]) && !Crowds(Session(calls[..n]).charCount, calls[n])
  {
    hide Session, Crowds;
    var n := |calls| - 1;
    forall i | 0 <= i < n ensures calls[..n][..i] == calls[..i] {}
  }

  /** Over a whole session the server's buffer stays under the limit if and only if
      every text that had to be split found fewer than 100 characters waiting. It
      never reaches 3900. */
  lemma {:induction false} SessionLimit(calls: seq<Call>)
    requires AllSucceed(calls)
    ensures Peak(0, Session(calls).messages) < MAX_CHARS_BEFORE_FLUSH <==> NoneCrowds(calls)
    ensures Peak(0, Session(calls).messages) < 3900
  {
    hide Does, Crowds, Succeeds;
    if calls == [] {
      assert Session(calls).messages == [];
    } else {
      hide Held, Peak, NoneCrowds;
      var n := |calls| - 1;
      var before := Session(calls[..n]);
      SessionLimit(calls[..n]);
      CounterAlwaysExact(calls[..n]);
      NoneCrowdsStep(calls);
      OneCallKeeps(before.charCount, calls[n]);
      Concat(0, before.messages, Does(before.charCount, calls[n]).messages);
    }
  }

  /** The limit is broken in ordinary use: 100 bytes waiting, then a text one byte too
      long to go out whole. */
  lemma {:induction false} LimitBroken(waiting: seq<byte>, long: seq<byte>, ok: Writes)
    requires |waiting| == 100 && |long| == CHUNK_SIZE + 1 && AllWritten(ok)
    ensures Peak(0, Session([Buffer(waiting, ok), Buffer(long, ok)]).messages) >= MAX_CHARS_BEFORE_FLUSH
  {
    var one, two := [Buffer(waiting, ok)], [Buffer(waiting, ok), Buffer(long, ok)];
    assert one[..0] == [] && two[..1] == one;
    assert Session([]) == Plan([], 0, true);
    assert Session(one).charCount == 100;
    assert Crowds(Session(two[..1]).charCount, two[1]);
    SessionLimit(two);
  }

  /** A counter that is too low, in one call: 100 bytes waiting, and an automatic flush
      that is not written. */
  lemma {:induction false} FlushLost(text: seq<byte>, ok: Writes)
    requires |text| == CHUNK_SIZE && !ok(0) && ok(1)
    ensures var plan := Split(100, text, ok, 0);
            plan.sent && plan.charCount == CHUNK_SIZE && Held(100, plan.messages) == MAX_CHARS_BEFORE_FLUSH
    ensures LosesFlush(100, text, ok, 0)
  {
    FlushThen(100, false, true, text);
  }
}
