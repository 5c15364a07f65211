/** Safety of the filler protocol under every interleaving and every order of delivery. */
module FillerTheorems {
  import opened Options
  import opened Text
  import opened Filler

  /** A result or failure may be delivered for any request ever issued, late, out
      of order, more than once, or never. */
  datatype Label =
    | Hear(text: string)
    | TakeNow
    | PollNow
    | ClearNow
    | Deliver(request: Request, filler: string, skip: bool)
    | DeliverFailure(request: Request)

  datatype Answer = Answer(request: Request, filler: string)

  /** The state with its history: requests issued, usable answers delivered, and
      the fillers handed out since the last clear. */
  datatype System = System(f: State, issued: seq<Request>, answers: set<Answer>, handed: seq<string>)

  function Begin(enabled: bool): System { System(Initial(enabled), [], {}, []) }

  function HandOut(s: System, f: State, filler: string): System {
    s.(f := f, handed := s.handed + (if filler == "" then [] else [filler]))
  }

  function Step(s: System, l: Label): System {
    match l
    case Hear(text) =>
      var (f, r) := Interim(s.f, text);
      s.(f := f, issued := s.issued + (if r.Some? then [r.value] else []))
    case TakeNow => var (f, filler) := Consume(s.f); HandOut(s, f, filler)
    case PollNow => var (f, p) := PollOnce(s.f); HandOut(s, f, if p.Done? then p.filler else "")
    case ClearNow => s.(f := Clear(s.f), handed := [])
    case Deliver(r, filler, skip) =>
      if r !in s.issued then s
      else s.(f := Store(s.f, r.token, r.utterance, filler, skip),
              answers := s.answers + (if skip then {} else {Answer(r, TrimSpace(filler))}))
    case DeliverFailure(r) =>
      if r !in s.issued then s else s.(f := Fail(s.f, r.token, r.utterance))
  }

  function Run(s: System, labels: seq<Label>): System {
    if labels == [] then s
    else Step(Run(s, labels[..|labels| - 1]), labels[|labels| - 1])
  }

  function Latest(s: System): Request
    requires s.issued != []
  {
    s.issued[|s.issued| - 1]
  }

  /** The most recent request was issued in the utterance being listened to. */
  predicate LatestIsCurrent(s: System) {
    s.issued != [] && s.f.listening && Latest(s).utterance == s.f.currentUtterance == s.f.fillerUtterance
  }

  ghost predicate Inv(s: System) {
    && s.f.nextToken == |s.issued|
    && (forall i :: 0 <= i < |s.issued| ==> s.issued[i].token == i + 1)
    && (s.f.activeToken != 0 ==>
          LatestIsCurrent(s) && s.f.activeToken == Latest(s).token && !s.f.ready && s.f.requested)
    && (s.f.ready ==>
          s.f.requested && LatestIsCurrent(s) && s.f.pending != "" && Answer(Latest(s), s.f.pending) in s.answers)
    && s.handed == (if s.f.consumed then [s.f.consumedFiller] else [])
    && (s.f.consumed ==> s.f.listening && s.f.ready && s.f.pending == s.f.consumedFiller)
    && (!s.f.consumed ==> s.f.consumedFiller == "")
    && (!s.f.enabled ==> !s.f.consumed && s.f.activeToken == 0)
  }

  lemma {:induction false} CurrentIsLatest(s: System, r: Request)
    requires Inv(s) && r in s.issued && r.token == s.f.activeToken
    ensures r == Latest(s)
  {
    var k :| 0 <= k < |s.issued| && s.issued[k] == r;
  }

  lemma {:induction false} StepKeepsInv(s: System, l: Label)
    requires Inv(s)
    ensures Inv(Step(s, l))
  {
    hide TrimSpace, Fields;
    match l
    case Hear(text) =>
      var (f, r) := Interim(s.f, text);
      if r.Some? { assert Latest(Step(s, l)) == r.value; }
    case TakeNow =>
    case PollNow =>
    case ClearNow =>
    case Deliver(r, filler, skip) =>
      if r in s.issued && Current(s.f, r.token, r.utterance) { CurrentIsLatest(s, r); }
    case DeliverFailure(_) =>
  }

  lemma {:induction false} AlwaysInv(enabled: bool, labels: seq<Label>)
    ensures Inv(Run(Begin(enabled), labels))
  {
    if labels != [] {
      AlwaysInv(enabled, labels[..|labels| - 1]);
      StepKeepsInv(Run(Begin(enabled), labels[..|labels| - 1]), labels[|labels| - 1]);
    }
  }

  /** A filler handed out is a delivered, unskipped answer to the most recently
      issued request, and that request belongs to the current utterance; it is the
      only filler since the last clear. */
  lemma {:induction false} HandedFillerIsLatest(enabled: bool, labels: seq<Label>, taken: Label)
    requires taken.TakeNow? || taken.PollNow?
    ensures var s := Run(Begin(enabled), labels); var s' := Step(s, taken);
            s'.handed != s.handed ==>
              && LatestIsCurrent(s)
              && s.handed == [] && |s'.handed| == 1
              && Answer(Latest(s), s'.handed[0]) in s.answers
              && s'.f.consumedFiller == s'.handed[0]
  {
    AlwaysInv(enabled, labels);
  }

  /** At most one filler is handed out between two clears, and until the next clear
      the recorded filler is that one. */
  lemma {:induction false} AtMostOneBetweenClears(enabled: bool, labels: seq<Label>)
    ensures var s := Run(Begin(enabled), labels);
            |s.handed| <= 1 && s.f.consumedFiller == if s.handed == [] then "" else s.handed[0]
  {
    AlwaysInv(enabled, labels);
  }

  /** Only the latest request can still have an effect: any other request's
      result or failure, however late, changes nothing. */
  lemma {:induction false} OlderResultsChangeNothing(
    enabled: bool, labels: seq<Label>, r: Request, filler: string, skip: bool)
    requires var s := Run(Begin(enabled), labels); r in s.issued && r != Latest(s)
    ensures var f := Run(Begin(enabled), labels).f;
            Store(f, r.token, r.utterance, filler, skip) == f && Fail(f, r.token, r.utterance) == f
  {
    AlwaysInv(enabled, labels);
    var s := Run(Begin(enabled), labels);
    if r.token == s.f.activeToken { CurrentIsLatest(s, r); }
  }

  predicate Answered(s: System, token: nat) {
    token <= |s.issued| && s.f.activeToken != token
  }

  lemma {:induction false} AnsweredStep(s: System, l: Label, token: nat)
    requires Inv(s) && token > 0 && Answered(s, token)
    ensures Answered(Step(s, l), token)
  {
    hide TrimSpace, Fields;
  }

  lemma {:induction false} AnsweredStaysAnswered(s: System, labels: seq<Label>, token: nat)
    requires Inv(s) && token > 0 && Answered(s, token)
    ensures Inv(Run(s, labels)) && Answered(Run(s, labels), token)
  {
    hide Inv, Step, Answered;
    if labels != [] {
      var n := |labels| - 1;
      AnsweredStaysAnswered(s, labels[..n], token);
      StepKeepsInv(Run(s, labels[..n]), labels[n]);
      AnsweredStep(Run(s, labels[..n]), labels[n], token);
    }
  }

  lemma {:induction false} DeliveryAnswers(s: System, l: Label)
    requires Inv(s) && (l.Deliver? || l.DeliverFailure?) && l.request in s.issued
    ensures Inv(Step(s, l)) && l.request.token > 0 && Answered(Step(s, l), l.request.token)
  {
    StepKeepsInv(s, l);
    var k :| 0 <= k < |s.issued| && s.issued[k] == l.request;
    if l.request.token == s.f.activeToken { CurrentIsLatest(s, l.request); }
  }

  /** The first result or failure for a request is the last one with any effect. */
  lemma {:induction false} SecondDeliveryChangesNothing(
    enabled: bool, labels: seq<Label>, first: Label, more: seq<Label>, filler: string, skip: bool)
    requires first.Deliver? || first.DeliverFailure?
    requires first.request in Run(Begin(enabled), labels).issued
    ensures var f := Run(Step(Run(Begin(enabled), labels), first), more).f; var r := first.request;
            Store(f, r.token, r.utterance, filler, skip) == f && Fail(f, r.token, r.utterance) == f
  {
    AlwaysInv(enabled, labels);
    DeliveryAnswers(Run(Begin(enabled), labels), first);
    AnsweredStaysAnswered(Step(Run(Begin(enabled), labels), first), more, first.request.token);
  }

  /** A usable answer to the request being waited for ends the wait: the next poll hands it out. */
  lemma {:induction false} AnswerEndsTheWait(enabled: bool, labels: seq<Label>, r: Request, filler: string)
    requires var s := Run(Begin(enabled), labels); r in s.issued && Current(s.f, r.token, r.utterance)
    requires TrimSpace(filler) != ""
    ensures var answered := Step(Run(Begin(enabled), labels), Deliver(r, filler, false));
            PollOnce(answered.f).1 == Done(TrimSpace(filler))
  {
    hide TrimSpace, Fields;
    AlwaysInv(enabled, labels);
    CurrentIsLatest(Run(Begin(enabled), labels), r);
  }
}
