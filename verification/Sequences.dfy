/** Concatenation of many sequences, and element-wise images. */
module Sequences {
  function Flatten<T>(parts: seq<seq<T>>): seq<T> {
    if parts == [] then [] else Flatten(parts[..|parts| - 1]) + parts[|parts| - 1]
  }

  lemma {:induction false} FlattenCons<A>(part: seq<A>, parts: seq<seq<A>>)
    ensures Flatten([part] + parts) == part + Flatten(parts)
  {
    var all := [part] + parts;
    if parts == [] {
      assert all == [part] && [part][..0] == [] && part + [] == part == [] + part;
    } else {
      FlattenCons(part, parts[..|parts| - 1]);
      assert all[..|all| - 1] == [part] + parts[..|parts| - 1];
    }
  }

  function Map<A, B>(f: A -> B, xs: seq<A>): (ys: seq<B>)
    ensures |ys| == |xs| && forall i :: 0 <= i < |xs| ==> ys[i] == f(xs[i])
  {
    seq(|xs|, i requires 0 <= i < |xs| => f(xs[i]))
  }

  /** Regrouping around the end of a sequence that has lost its first k elements. */
  lemma {:induction false} Regroup<A>(all: seq<A>, k: nat, middle: seq<A>, rest: seq<A>)
    requires k <= |all|
    ensures (all + middle)[k..] + rest == all[k..] + (middle + rest)
    ensures all[k..] + (rest + middle) == all[k..] + rest + middle
  {
  }

  lemma Assoc<A>(a: seq<A>, b: seq<A>, c: seq<A>)
    ensures a + (b + c) == a + b + c
  {}

  /** A slice of what is left after dropping k elements. */
  lemma {:induction false} SliceAfter<A>(s: seq<A>, k: nat, i: nat, j: nat)
    requires k <= i <= j <= |s|
    ensures s[k..][i - k..j - k] == s[i..j]
  {
  }

  lemma {:induction false} TwoMore<A>(s: seq<A>, p: nat)
    requires p + 2 <= |s|
    ensures s[..p + 2] == s[..p] + [s[p], s[p + 1]]
  {
  }

  /** The positions of the raised flags, in increasing order, and no others. */
  ghost predicate Selects(at: seq<nat>, flags: seq<bool>) {
    && (forall i, j :: 0 <= i < j < |at| ==> at[i] < at[j])
    && (forall k: nat :: k in at <==> k < |flags| && flags[k])
  }

  lemma {:induction false} SelectsStep(at: seq<nat>, flags: seq<bool>, last: bool)
    requires Selects(at, flags)
    ensures Selects(if last then at + [|flags|] else at, flags + [last])
  {
    assert forall i :: 0 <= i < |at| ==> at[i] in at;
    var more := if last then at + [|flags|] else at;
    forall k: nat ensures k in more <==> k < |flags + [last]| && (flags + [last])[k] {
      assert k in more <==> k in at || (k == |flags| && last);
    }
  }

  lemma SelectsNothing()
    ensures Selects([], [])
  {}

  /** The elements of `xs` at the given positions, in turn. */
  ghost predicate TakenAt<A>(picked: seq<A>, xs: seq<A>, at: seq<nat>) {
    |picked| == |at| && forall i :: 0 <= i < |at| ==> at[i] < |xs| && picked[i] == xs[at[i]]
  }

  lemma {:induction false} TakenStep<A>(picked: seq<A>, xs: seq<A>, at: seq<nat>, x: A)
    requires TakenAt(picked, xs, at)
    ensures TakenAt(picked, xs + [x], at) && TakenAt(picked + [x], xs + [x], at + [|xs|])
  {
  }

  /** One more element, picked or not. */
  function PickMore(at: seq<nat>, n: nat, raised: bool): seq<nat> { if raised then at + [n] else at }

  lemma {:induction false} PicksOn<A>(picked: seq<A>, xs: seq<A>, at: seq<nat>, flags: seq<bool>, x: A, raised: bool)
    requires Selects(at, flags) && TakenAt(picked, xs, at) && |flags| == |xs|
    ensures Selects(PickMore(at, |xs|, raised), flags + [raised])
    ensures TakenAt(if raised then picked + [x] else picked, xs + [x], PickMore(at, |xs|, raised))
  {
    hide Selects, TakenAt;
    SelectsStep(at, flags, raised);
    TakenStep(picked, xs, at, x);
  }

  lemma {:induction false} MapLast<A, B>(f: A -> B, xs: seq<A>)
    requires xs != []
    ensures Map(f, xs) == Map(f, xs[..|xs| - 1]) + [f(xs[|xs| - 1])]
  {
  }

  lemma {:induction false} FlattenLast<A>(parts: seq<seq<A>>, part: seq<A>)
    ensures Flatten(parts + [part]) == Flatten(parts) + part
  {
    assert (parts + [part])[..|parts|] == parts;
  }
}
