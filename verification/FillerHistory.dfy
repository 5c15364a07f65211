/** When the filler protocol asks and what it hands out, told from the history alone. */
module FillerHistory {
  import opened Filler
  import opened FillerTheorems
  import opened Options
  import opened Text
  import opened TextTheorems

  /** Something was heard since the last clear. */
  predicate Listening(labels: seq<Label>) {
    labels != [] &&
    match labels[|labels| - 1]
    case ClearNow => false
    case Hear(text) => TrimSpace(text) != "" || Listening(labels[..|labels| - 1])
    case _ => Listening(labels[..|labels| - 1])
  }

  /** How often something was heard for the first time, or for the first time since a clear. */
  function Utterances(labels: seq<Label>): nat {
    if labels == [] then 0
    else
      var n := |labels| - 1;
      Utterances(labels[..n]) +
        (if labels[n].Hear? && TrimSpace(labels[n].text) != "" && !Listening(labels[..n]) then 1 else 0)
  }

  /** What became of the last request since the last clear. */
  datatype Fate = NoRequest | InFlight | NoUse | Failed | Answered(filler: string)

  function FateOf(enabled: bool, labels: seq<Label>): Fate {
    if labels == [] then NoRequest
    else
      var n := |labels| - 1;
      NextFate(FateOf(enabled, labels[..n]), Run(Begin(enabled), labels[..n]).issued,
               Run(Begin(enabled), labels).issued, labels[n])
  }

  /** A new request replaces the last one; a clear forgets it; and only the first result or
      failure delivered for it counts. */
  function NextFate(before: Fate, issued: seq<Request>, issuedNow: seq<Request>, l: Label): Fate {
    if |issuedNow| > |issued| then InFlight
    else
      match l
      case ClearNow => NoRequest
      case Deliver(r, filler, skip) =>
        if before != InFlight || issued == [] || r != issued[|issued| - 1] then before
        else if skip || TrimSpace(filler) == "" then NoUse
        else Answered(TrimSpace(filler))
      case DeliverFailure(r) =>
        if before != InFlight || issued == [] || r != issued[|issued| - 1] then before else Failed
      case _ => before
  }

  /** The state says what the history does. */
  ghost predicate Told(f: State, listening: bool, utterances: nat, fate: Fate) {
    && (f.enabled ==> f.listening == listening && f.currentUtterance == utterances)
    && (!f.enabled ==> fate == NoRequest)
    && (f.requested <==> fate.InFlight? || fate.NoUse? || fate.Answered?)
    && (f.activeToken != 0 <==> fate.InFlight?)
    && (f.ready <==> fate.Answered?)
    && (fate.Answered? ==> f.pending == fate.filler)
    && (!f.listening ==> fate == NoRequest)
  }

  lemma {:induction false} HearTells(s: System, text: string, listening: bool, utterances: nat, fate: Fate)
    requires Inv(s) && Told(s.f, listening, utterances, fate)
    ensures var heard := TrimSpace(text) != "";
            Told(Step(s, Hear(text)).f, listening || heard, utterances + (if heard && !listening then 1 else 0),
                 NextFate(fate, s.issued, Step(s, Hear(text)).issued, Hear(text)))
  {
    hide TrimSpace, Fields;
  }

  lemma {:induction false} DeliveryTells(s: System, l: Label, listening: bool, utterances: nat, fate: Fate)
    requires Inv(s) && Told(s.f, listening, utterances, fate) && (l.Deliver? || l.DeliverFailure?)
    ensures Told(Step(s, l).f, listening, utterances, NextFate(fate, s.issued, Step(s, l).issued, l))
  {
    hide TrimSpace;
    if l.request in s.issued {
      if l.request.token == s.f.activeToken { CurrentIsLatest(s, l.request); }
    } else if s.issued != [] {
      assert Latest(s) in s.issued;
    }
  }

  lemma {:induction false} OthersTell(s: System, l: Label, listening: bool, utterances: nat, fate: Fate)
    requires Inv(s) && Told(s.f, listening, utterances, fate) && (l.TakeNow? || l.PollNow? || l.ClearNow?)
    ensures Told(Step(s, l).f, listening && !l.ClearNow?, utterances,
                 NextFate(fate, s.issued, Step(s, l).issued, l))
  {
  }

  lemma {:induction false} AlwaysTold(enabled: bool, labels: seq<Label>)
    ensures Inv(Run(Begin(enabled), labels))
    ensures Told(Run(Begin(enabled), labels).f, Listening(labels), Utterances(labels), FateOf(enabled, labels))
  {
    AlwaysInv(enabled, labels);
    if labels != [] {
      hide Inv, Told, Step, NextFate, TrimSpace;
      var n := |labels| - 1;
      var before, l := labels[..n], labels[n];
      var s := Run(Begin(enabled), before);
      AlwaysTold(enabled, before);
      if l.Hear? {
        HearTells(s, l.text, Listening(before), Utterances(before), FateOf(enabled, before));
      } else if l.Deliver? || l.DeliverFailure? {
        DeliveryTells(s, l, Listening(before), Utterances(before), FateOf(enabled, before));
      } else {
        OthersTell(s, l, Listening(before), Utterances(before), FateOf(enabled, before));
      }
    }
  }

  lemma {:induction false} RequestStep(s: System, text: string, listening: bool, utterances: nat, fate: Fate)
    requires Inv(s) && Told(s.f, listening, utterances, fate)
    ensures var trimmed := TrimSpace(text);
            Step(s, Hear(text)).issued ==
            if s.f.enabled && |Fields(trimmed)| > 3 && s.handed == []
            then s.issued + [Request(trimmed, utterances + (if listening then 0 else 1), |s.issued| + 1)]
            else s.issued
  {
    hide TrimSpace, Fields;
    NoWords();
  }

  /** A partial transcript makes a request exactly when fillers are on, it has more than
      three words, and none was handed out since the last clear. The request carries the
      text without the white space at its ends, the number of the utterance, and a token
      that counts the requests. */
  lemma {:induction false} RequestWhen(
    enabled: bool, labels: seq<Label>, text: string, trimmed: string, words: seq<string>)
    requires Trimmed(text, trimmed) && LaidOut(trimmed, words)
    ensures var s := Run(Begin(enabled), labels);
            var utterance := Utterances(labels) + (if Listening(labels) then 0 else 1);
            Step(s, Hear(text)).issued ==
            if enabled && |words| > 3 && s.handed == []
            then s.issued + [Request(trimmed, utterance, |s.issued| + 1)] else s.issued
  {
    hide Trimmed, LaidOut, TrimSpace, Fields, Inv, Told, Step, Run, Listening, Utterances, FateOf;
    AlwaysTold(enabled, labels);
    EnabledStays(enabled, labels);
    TrimSpaceExact(text, trimmed);
    FieldsExact(trimmed, words);
    RequestStep(Run(Begin(enabled), labels), text, Listening(labels), Utterances(labels), FateOf(enabled, labels));
  }

  lemma NoWords()
    ensures Fields("") == []
  {}

  lemma {:induction false} EnabledStays(enabled: bool, labels: seq<Label>)
    ensures Run(Begin(enabled), labels).f.enabled == enabled
  {
    hide TrimSpace, Fields;
    if labels != [] { EnabledStays(enabled, labels[..|labels| - 1]); }
  }

  /** A filler is handed out exactly when the last request since the last clear was
      answered and nothing was handed out since; it is that answer. A poll waits only
      while the request is in flight, was answered with nothing of use, or its answer is
      already out; with no request, or a failed one, it gives up. */
  lemma {:induction false} HandedWhen(enabled: bool, labels: seq<Label>)
    ensures var s, fate := Run(Begin(enabled), labels), FateOf(enabled, labels);
            && Consume(s.f).1 == (if fate.Answered? && s.handed == [] then fate.filler else "")
            && PollOnce(s.f).1 == (
                 if fate == NoRequest || fate == Failed then Done("")
                 else if fate.Answered? && s.handed == [] then Done(fate.filler)
                 else KeepWaiting)
            && (fate.Answered? ==> fate.filler != "")
  {
    hide TrimSpace, Fields;
    AlwaysTold(enabled, labels);
  }

  /** What is handed out counts as handed out, until a clear. */
  lemma {:induction false} HandedIsKept(enabled: bool, labels: seq<Label>, l: Label)
    ensures var s, fate := Run(Begin(enabled), labels), FateOf(enabled, labels);
            Step(s, l).handed ==
            if l.ClearNow? then []
            else if (l.TakeNow? || l.PollNow?) && fate.Answered? && s.handed == [] then [fate.filler]
            else s.handed
  {
    hide TrimSpace, Fields;
    AlwaysTold(enabled, labels);
  }
}
