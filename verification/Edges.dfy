/** Start and end events in a stream of events. */
module Edges {
  datatype Edge = Start | End | Neither

  /** Starts and ends alternate, beginning with a start; the last one tells whether the
      activity is on. */
  predicate Alternates<E>(edge: E -> Edge, sent: seq<E>, active: bool) {
    if sent == [] then !active
    else
      var rest := sent[..|sent| - 1];
      match edge(sent[|sent| - 1])
      case Start => active && Alternates(edge, rest, false)
      case End => !active && Alternates(edge, rest, true)
      case Neither => Alternates(edge, rest, active)
  }

  /** Whether the activity is on after the event. */
  function Switch(edge: Edge, active: bool): bool {
    if edge == Start then true else if edge == End then false else active
  }

  lemma {:induction false} AlternatesOn<E>(edge: E -> Edge, sent: seq<E>, e: E, active: bool)
    requires Alternates(edge, sent, active)
    requires (edge(e) == Start ==> !active) && (edge(e) == End ==> active)
    ensures Alternates(edge, sent + [e], Switch(edge(e), active))
  {
    assert (sent + [e])[..|sent|] == sent;
  }
}
