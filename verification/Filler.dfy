/** The filler request protocol of the LLM handler. */
module Filler {
  import opened Options
  import opened Text

  // ---------- The protocol state on values ----------

  /** Token 0 and utterance 0 stand for "none". */
  datatype State = State(
    enabled: bool, listening: bool, currentUtterance: nat, fillerUtterance: nat,
    requested: bool, ready: bool, consumed: bool, pending: string, consumedFiller: string,
    activeToken: nat, nextToken: nat)

  datatype Request = Request(text: string, utterance: nat, token: nat)
  function Initial(enabled: bool): State {
    State(enabled, false, 0, 0, false, false, false, "", "", 0, 0)
  }

  const MIN_WORDS := 3

  function Interim(f: State, text: string): (State, Option<Request>) {
    var trimmed := TrimSpace(text);
    if !f.enabled || trimmed == "" then (f, None)
    else
      var f1 := if f.listening then f
                else f.(listening := true, currentUtterance := f.currentUtterance + 1,
                        requested := false, ready := false, consumed := false, pending := "",
                        consumedFiller := "", fillerUtterance := 0, activeToken := 0);
      if |Fields(trimmed)| <= MIN_WORDS || f1.consumed then (f1, None)
      else
        var token := f1.nextToken + 1;
        (f1.(ready := false, pending := "", requested := true, fillerUtterance := f1.currentUtterance,
             nextToken := token, activeToken := token),
         Some(Request(trimmed, f1.currentUtterance, token)))
  }

  function Consume(f: State): (State, string) {
    if !f.enabled || f.consumed || !f.ready || f.pending == "" then (f, "")
    else (f.(consumed := true, consumedFiller := f.pending), f.pending)
  }

  datatype Poll = Done(filler: string) | KeepWaiting

  /** One round of the polling loop. */
  function PollOnce(f: State): (State, Poll) {
    if !f.enabled || !f.requested then (f, Done(""))
    else if f.ready && !f.consumed && f.pending != "" then
      (f.(consumed := true, consumedFiller := f.pending), Done(f.pending))
    else (f, KeepWaiting)
  }

  function Clear(f: State): State {
    if !f.enabled then f
    else f.(listening := false, requested := false, ready := false, consumed := false,
            pending := "", consumedFiller := "", activeToken := 0, fillerUtterance := 0)
  }

  predicate Current(f: State, token: nat, utterance: nat) {
    f.enabled && token != 0 && token == f.activeToken && utterance == f.fillerUtterance
  }

  function Store(f: State, token: nat, utterance: nat, filler: string, skip: bool): State {
    var trimmed := TrimSpace(filler);
    if !Current(f, token, utterance) then f
    else if skip || trimmed == "" then f.(activeToken := 0, pending := "", ready := false)
    else f.(activeToken := 0, pending := trimmed, ready := true)
  }

  function Fail(f: State, token: nat, utterance: nat): State {
    if !Current(f, token, utterance) then f else f.(activeToken := 0, requested := false)
  }

  // ---------- The state object ----------

  class FillerState {
    const enabled: bool
    var listening: bool
    var currentUtteranceId: nat
    var fillerUtteranceId: nat
    var fillerRequested: bool
    var fillerReady: bool
    var fillerConsumed: bool
    var pendingFiller: string
    var consumedFiller: string
    var activeRequestToken: nat
    var nextRequestToken: nat

    ghost function Now(): State
      reads this
    {
      State(enabled, listening, currentUtteranceId, fillerUtteranceId, fillerRequested, fillerReady,
            fillerConsumed, pendingFiller, consumedFiller, activeRequestToken, nextRequestToken)
    }

    constructor (enabled: bool)
      ensures Now() == Initial(enabled)
    {
      this.enabled := enabled;
      listening, currentUtteranceId, fillerUtteranceId := false, 0, 0;
      fillerRequested, fillerReady, fillerConsumed := false, false, false;
      pendingFiller, consumedFiller, activeRequestToken, nextRequestToken := "", "", 0, 0;
    }

    method OnInterim(text: string) returns (request: Option<Request>)
      modifies this
      ensures (Now(), request) == Interim(old(Now()), text)
    {
      hide TrimSpace, Fields;
      if !enabled { return None; }
      var trimmed := TrimSpace(text);
      if trimmed == "" { return None; }
      var words := |Fields(trimmed)|;
      if !listening {
        listening := true;
        currentUtteranceId := currentUtteranceId + 1;
        ResetUtterance();
      }
      if words <= MIN_WORDS || fillerConsumed { return None; }
      fillerReady := false;
      pendingFiller := "";
      fillerRequested := true;
      fillerUtteranceId := currentUtteranceId;
      nextRequestToken := nextRequestToken + 1;
      activeRequestToken := nextRequestToken;
      return Some(Request(trimmed, currentUtteranceId, nextRequestToken));
    }

    method ResetUtterance()
      modifies this
      ensures Now() == old(Now()).(requested := false, ready := false, consumed := false, pending := "",
                                   consumedFiller := "", fillerUtterance := 0, activeToken := 0)
    {
      fillerRequested, fillerReady, fillerConsumed := false, false, false;
      pendingFiller, consumedFiller, fillerUtteranceId, activeRequestToken := "", "", 0, 0;
    }

    method ConsumeFiller() returns (filler: string)
      modifies this
      ensures (Now(), filler) == Consume(old(Now()))
    {
      if !enabled { return ""; }
      if fillerConsumed || !fillerReady { return ""; }
      filler := pendingFiller;
      if filler == "" { return ""; }
      fillerConsumed := true;
      consumedFiller := filler;
    }

    /** One round of waitForFiller's polling loop. */
    method PollFiller() returns (p: Poll)
      modifies this
      ensures (Now(), p) == PollOnce(old(Now()))
    {
      if !enabled { return Done(""); }
      if !fillerRequested { return Done(""); }
      if fillerReady && !fillerConsumed && pendingFiller != "" {
        fillerConsumed := true;
        consumedFiller := pendingFiller;
        return Done(pendingFiller);
      }
      return KeepWaiting;
    }

    method ClearAfterResponse()
      modifies this
      ensures Now() == Clear(old(Now()))
    {
      if !enabled { return; }
      listening, fillerRequested, fillerReady, fillerConsumed := false, false, false, false;
      pendingFiller, consumedFiller, activeRequestToken, fillerUtteranceId := "", "", 0, 0;
    }

    method StoreResult(token: nat, utteranceId: nat, filler: string, skip: bool)
      modifies this
      ensures Now() == Store(old(Now()), token, utteranceId, filler, skip)
    {
      hide TrimSpace;
      if !enabled { return; }
      var trimmed := TrimSpace(filler);
      if token == 0 || token != activeRequestToken || utteranceId != fillerUtteranceId { return; }
      activeRequestToken := 0;
      if skip || trimmed == "" {
        pendingFiller := "";
        fillerReady := false;
        return;
      }
      pendingFiller := trimmed;
      fillerReady := true;
    }

    method RequestFailed(token: nat, utteranceId: nat)
      modifies this
      ensures Now() == Fail(old(Now()), token, utteranceId)
    {
      if !enabled { return; }
      if token == 0 || token != activeRequestToken || utteranceId != fillerUtteranceId { return; }
      activeRequestToken := 0;
      fillerRequested := false;
    }
  }
}
