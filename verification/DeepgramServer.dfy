/** What the Deepgram client's messages do to the text on the server. */
module DeepgramServer {
  import opened Bytes
  import opened Sequences
  import opened DeepgramTts

  /** Text already turned into speech, and text waiting to be. */
  datatype Server = Server(spoken: seq<byte>, waiting: seq<byte>)

  function All(s: Server): seq<byte> { s.spoken + s.waiting }

  /** A flush speaks what is waiting; a clear throws it away. */
  function Apply(s: Server, m: Message): Server {
    match m
    case Speak(text) => s.(waiting := s.waiting + text)
    case Flush => Server(s.spoken + s.waiting, [])
    case Clear => s.(waiting := [])
  }

  function Play(s: Server, messages: seq<Message>): Server
    decreases |messages|
  {
    if messages == [] then s else Play(Apply(s, messages[0]), messages[1..])
  }

  lemma {:induction false} PlayConcat(s: Server, a: seq<Message>, b: seq<Message>)
    ensures Play(s, a + b) == Play(Play(s, a), b)
    decreases |a|
  {
    if a == [] {
      assert a + b == b;
    } else {
      hide Apply;
      PlayConcat(Apply(s, a[0]), a[1..], b);
      assert (a + b)[1..] == a[1..] + b;
    }
  }

  /** The amounts counted elsewhere are the amounts that wait here. */
  lemma {:induction false} HeldIsWaiting(s: Server, messages: seq<Message>)
    ensures Held(|s.waiting|, messages) == |Play(s, messages).waiting|
    decreases |messages|
  {
    if messages != [] { HeldIsWaiting(Apply(s, messages[0]), messages[1..]); }
  }

  // ---------- One call ----------

  ghost predicate NoClear(messages: seq<Message>) { Clear !in messages }

  lemma {:induction false} SplitNeverClears(count: nat, text: seq<byte>, ok: Writes, k: nat)
    ensures NoClear(Split(count, text, ok, k).messages)
    decreases |text|
  {
    if |text| > CHUNK_SIZE && ok(k) && ok(k + 1) { SplitNeverClears(0, text[CHUNK_SIZE..], ok, k + 2); }
  }

  /** Without a clear, the text on the server, spoken then waiting, only grows, by what is written. */
  lemma {:induction false} KeptWithoutClear(s: Server, messages: seq<Message>)
    requires NoClear(messages)
    ensures All(Play(s, messages)) == All(s) + Payload(messages)
    ensures s.spoken <= Play(s, messages).spoken
    decreases |messages|
  {
    if messages == [] {
      assert All(s) + [] == All(s);
    } else {
      var m, rest := messages[0], messages[1..];
      assert messages == [m] + rest;
      KeptWithoutClear(Apply(s, m), rest);
      KeptByOne(s, m);
      PayloadFirst(m, rest);
      Regroup(All(s), 0, TextOf(m), Payload(rest));
    }
  }

  lemma {:induction false} KeptByOne(s: Server, m: Message)
    requires m != Clear
    ensures All(Apply(s, m)) == All(s) + TextOf(m) && s.spoken <= Apply(s, m).spoken
  {
    match m
    case Speak(text) => Regroup(s.spoken, 0, s.waiting, text);
    case Flush => assert s.spoken + s.waiting + [] == s.spoken + s.waiting;
  }

  /** Whatever becomes of its writes, a call loses no text that is on the server: the
      text there, spoken then waiting, is what it was and then a prefix of the new text,
      the whole of it if and only if the call succeeds. */
  lemma {:induction false} CallLosesNothing(s: Server, count: nat, text: seq<byte>, ok: Writes, k: nat)
    requires text != []
    ensures var plan := Split(count, text, ok, k); var written := Payload(plan.messages);
            && All(Play(s, plan.messages)) == All(s) + written && s.spoken <= Play(s, plan.messages).spoken
            && written <= text && (written == text <==> plan.sent)
  {
    hide Payload, Play, Split;
    SplitNeverClears(count, text, ok, k);
    KeptWithoutClear(s, Split(count, text, ok, k).messages);
    PayloadsAreTheText(count, text, ok, k);
  }

  // ---------- Sessions ----------

  /** The text that stays on the server over a session: what each call wrote, less what
      was waiting at each clear. */
  function Surviving(calls: seq<Call>): seq<byte> {
    if calls == [] then []
    else
      var n := |calls| - 1;
      var before := Surviving(calls[..n]);
      match calls[n]
      case Buffer(_, _) => before + Payload(Does(Session(calls[..n]).charCount, calls[n]).messages)
      case FlushCall(_) => before
      case ResetCall(written) => if written then Play(Server([], []), Session(calls[..n]).messages).spoken else before
  }

  /** Over every session, whatever the outcome of its writes, the text on the server is
      exactly the text written, in order, and nothing but a reset that is written ever
      loses any: then exactly what is waiting, and nothing already spoken. */
  lemma {:induction false} OnlyResetsLose(calls: seq<Call>)
    ensures All(Play(Server([], []), Session(calls).messages)) == Surviving(calls)
  {
    if calls != [] {
      hide Payload, Split, Apply;
      var n := |calls| - 1;
      var before := Session(calls[..n]);
      var s := Play(Server([], []), before.messages);
      OnlyResetsLose(calls[..n]);
      PlayConcat(Server([], []), before.messages, Does(before.charCount, calls[n]).messages);
      match calls[n]
      case Buffer(text, ok) =>
        SplitNeverClears(before.charCount, text, ok, 0);
        KeptWithoutClear(s, Split(before.charCount, text, ok, 0).messages);
      case FlushCall(written) => FlushKeeps(s, written);
      case ResetCall(written) => ClearDrops(s, written);
    }
  }

  lemma {:induction false} FlushKeeps(s: Server, written: bool)
    ensures var s' := Play(s, Written(written, Flush));
            All(s') == All(s) && (written ==> s'.spoken == All(s) && s'.waiting == [])
  {
    assert [Flush][1..] == [];
    assert All(s) + [] == All(s);
    if written { assert Play(s, [Flush]) == Play(Apply(s, Flush), []); }
  }

  lemma {:induction false} ClearDrops(s: Server, written: bool)
    ensures var s' := Play(s, Written(written, Clear));
            All(s') == if written then s.spoken else All(s)
  {
    assert [Clear][1..] == [];
    assert s.spoken + [] == s.spoken;
    if written { assert Play(s, [Clear]) == Play(Apply(s, Clear), []); }
  }

  /** A flush call that is written speaks all that is on the server. */
  lemma {:induction false} FlushSpeaksAll(calls: seq<Call>)
    ensures var s := Play(Server([], []), Session(calls + [FlushCall(true)]).messages);
            s.spoken == Surviving(calls) && s.waiting == []
  {
    hide Does, Surviving, Play;
    var all := calls + [FlushCall(true)];
    assert all[..|calls|] == calls;
    OnlyResetsLose(calls);
    SessionFlush(calls);
    PlayConcat(Server([], []), Session(calls).messages, Written(true, Flush));
    FlushKeeps(Play(Server([], []), Session(calls).messages), true);
  }

  lemma SessionFlush(calls: seq<Call>)
    ensures Session(calls + [FlushCall(true)]).messages == Session(calls).messages + Written(true, Flush)
  {
    var all := calls + [FlushCall(true)];
    assert all[..|calls|] == calls;
  }

  /** While calls succeed, the counter is the amount of text waiting on the server. */
  lemma {:induction false} CounterIsWaiting(calls: seq<Call>)
    requires AllSucceed(calls)
    ensures |Play(Server([], []), Session(calls).messages).waiting| == Session(calls).charCount
  {
    CounterAlwaysExact(calls);
    HeldIsWaiting(Server([], []), Session(calls).messages);
  }
}
