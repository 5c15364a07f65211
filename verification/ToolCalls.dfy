/** Reassembly of tool calls that a completion stream delivers in interleaved fragments. */
module ToolCalls {
  import opened Options
  import opened Sequences

  datatype Fragment = Fragment(index: Option<int>, id: string, kind: string, name: string, arguments: string)

  /** One streamed response: text, fragments, and whether it finishes with tool calls. */
  datatype Response = Response(content: string, fragments: seq<Fragment>, finished: bool)

  datatype Pending = Pending(id: string, kind: string, name: string, arguments: string)

  /** An invocation: the tool, and its arguments before they are decoded. */
  datatype Call = Call(toolId: string, arguments: string)

  type Builder = map<int, Pending>

  // ---------- The builder ----------

  function Extend(p: Pending, f: Fragment): Pending {
    Pending(
      if f.id != "" then f.id else p.id, p.kind,
      if f.name != "" then f.name else p.name, p.arguments + f.arguments)
  }

  function Opened(f: Fragment): Pending { Pending(f.id, f.kind, "", "") }

  function Add(b: Builder, f: Fragment): Builder {
    if f.index.None? then b
    else
      var idx := f.index.value;
      b[idx := Extend(if idx in b then b[idx] else Opened(f), f)]
  }

  function Build(fragments: seq<Fragment>): Builder {
    if fragments == [] then map[]
    else Add(Build(fragments[..|fragments| - 1]), fragments[|fragments| - 1])
  }

  // ---------- What a call should be ----------

  /** The fragments of one index, in order of arrival. */
  function Only(fragments: seq<Fragment>, idx: int): seq<Fragment> {
    if fragments == [] then []
    else
      var last := fragments[|fragments| - 1];
      Only(fragments[..|fragments| - 1], idx) + (if last.index == Some(idx) then [last] else [])
  }

  function Arguments(fragments: seq<Fragment>): string {
    if fragments == [] then "" else Arguments(fragments[..|fragments| - 1]) + fragments[|fragments| - 1].arguments
  }

  /** The last name given; a stream may repeat it. */
  function Name(fragments: seq<Fragment>): string {
    if fragments == [] then ""
    else
      var last := fragments[|fragments| - 1];
      if last.name != "" then last.name else Name(fragments[..|fragments| - 1])
  }

  function CallFor(fragments: seq<Fragment>, idx: int): Call {
    Call(Name(Only(fragments, idx)), Arguments(Only(fragments, idx)))
  }

  /** The call for an index that has been named. */
  predicate Named(fragments: seq<Fragment>, idx: int) {
    Name(Only(fragments, idx)) != ""
  }

  /** One call for each named index and nothing else, in any order. */
  ghost predicate IsBatch(batch: seq<Call>, fragments: seq<Fragment>) {
    exists order :: Ordering(order, batch, fragments)
  }

  ghost predicate Ordering(order: seq<int>, batch: seq<Call>, fragments: seq<Fragment>) {
    && |order| == |batch|
    && (forall i, j :: 0 <= i < j < |order| ==> order[i] != order[j])
    && (forall idx :: Named(fragments, idx) <==> idx in order)
    && (forall i :: 0 <= i < |order| ==> batch[i] == CallFor(fragments, order[i]))
  }

  lemma {:induction false} BuilderHolds(fragments: seq<Fragment>, idx: int)
    ensures idx in Build(fragments) <==> Only(fragments, idx) != []
    ensures idx in Build(fragments) ==>
              Call(Build(fragments)[idx].name, Build(fragments)[idx].arguments) == CallFor(fragments, idx)
  {
    if fragments != [] {
      var n := |fragments| - 1;
      var last := fragments[n];
      BuilderHolds(fragments[..n], idx);
      if last.index == Some(idx) {
        var before := Only(fragments[..n], idx);
        var all := before + [last];
        assert all[..|all| - 1] == before && all[|all| - 1] == last;
        assert Only(fragments, idx) == all;
        assert Arguments(all) == Arguments(before) + last.arguments;
        assert Name(all) == if last.name != "" then last.name else Name(before);
        assert Build(fragments)[idx] ==
               Extend(if idx in Build(fragments[..n]) then Build(fragments[..n])[idx] else Opened(last), last);
      } else {
        assert Only(fragments[..n], idx) + [] == Only(fragments[..n], idx);
      }
    }
  }

  // ---------- Interleaving ----------

  /** Fragments of different indexes, or of none, can change places. */
  lemma {:induction false} AddCommutes(b: Builder, f: Fragment, g: Fragment)
    requires f.index.None? || f.index != g.index
    ensures Add(Add(b, f), g) == Add(Add(b, g), f)
  {
  }

  lemma {:induction false} BuildLast(fragments: seq<Fragment>, f: Fragment)
    ensures Build(fragments + [f]) == Add(Build(fragments), f)
  {
    assert (fragments + [f])[..|fragments|] == fragments;
  }

  predicate Mentions(fragments: seq<Fragment>, f: Fragment) {
    f.index.Some? && exists g :: g in fragments && g.index == f.index
  }

  /** A fragment may arrive late: after any fragments that do not mention its index. */
  lemma {:induction false} BuildLate(before: seq<Fragment>, f: Fragment, after: seq<Fragment>)
    requires !Mentions(after, f)
    ensures Build(before + [f] + after) == Build(before + after + [f])
  {
    hide Add;
    if after == [] {
      assert before + [f] + after == before + after + [f];
    } else {
      var n := |after| - 1;
      var g := after[n];
      assert after == after[..n] + [g] && g in after;
      BuildLate(before, f, after[..n]);
      assert before + [f] + after == (before + [f] + after[..n]) + [g];
      assert before + after == (before + after[..n]) + [g];
      BuildLast(before + [f] + after[..n], g);
      BuildLast(before + after[..n], f);
      BuildLast(before + after[..n], g);
      BuildLast(before + after, f);
      AddCommutes(Build(before + after[..n]), f, g);
    }
  }

  /** `m` takes every fragment of `a` and of `b`, each in its own order. */
  ghost predicate Merges(a: seq<Fragment>, b: seq<Fragment>, m: seq<Fragment>)
    decreases |m|
  {
    if m == [] then a == [] && b == []
    else
      var last, rest := m[|m| - 1], m[..|m| - 1];
      || (a != [] && last == a[|a| - 1] && Merges(a[..|a| - 1], b, rest))
      || (b != [] && last == b[|b| - 1] && Merges(a, b[..|b| - 1], rest))
  }

  ghost predicate Apart(a: seq<Fragment>, b: seq<Fragment>) {
    forall f :: f in a ==> !Mentions(b, f)
  }

  lemma {:induction false} MergeBuilds(a: seq<Fragment>, b: seq<Fragment>, m: seq<Fragment>)
    requires Merges(a, b, m) && Apart(a, b)
    ensures Build(m) == Build(a + b)
    decreases |m|
  {
    hide Add;
    if m == [] {
      assert a + b == m;
    } else {
      var last, rest := m[|m| - 1], m[..|m| - 1];
      assert m == rest + [last];
      BuildLast(rest, last);
      if b != [] && last == b[|b| - 1] && Merges(a, b[..|b| - 1], rest) {
        var b1 := b[..|b| - 1];
        ApartShorter(a, b, a, b1);
        MergeBuilds(a, b1, rest);
        BuildLast(a + b1, last);
        assert a + b1 + [last] == a + b;
      } else {
        var a1 := a[..|a| - 1];
        ApartShorter(a, b, a1, b);
        MergeBuilds(a1, b, rest);
        assert last in a && a1 + [last] + b == a + b;
        BuildLate(a1, last, b);
        BuildLast(a1 + b, last);
      }
    }
  }

  lemma {:induction false} ApartShorter(a: seq<Fragment>, b: seq<Fragment>, a1: seq<Fragment>, b1: seq<Fragment>)
    requires Apart(a, b) && a1 <= a && b1 <= b
    ensures Apart(a1, b1)
  {
    forall f | f in a1 ensures !Mentions(b1, f) {
      assert f in a && !Mentions(b, f);
    }
  }

  /** `m` interleaves all the streams. */
  ghost predicate Interleaves(streams: seq<seq<Fragment>>, m: seq<Fragment>) {
    if streams == [] then m == []
    else
      var n := |streams| - 1;
      exists rest :: Interleaves(streams[..n], rest) && Merges(rest, streams[n], m)
  }

  lemma {:induction false} MergedFrom(a: seq<Fragment>, b: seq<Fragment>, m: seq<Fragment>, f: Fragment)
    requires Merges(a, b, m) && f in m
    ensures f in a || f in b
    decreases |m|
  {
    var last, rest := m[|m| - 1], m[..|m| - 1];
    if f != last {
      assert f in rest;
      if a != [] && last == a[|a| - 1] && Merges(a[..|a| - 1], b, rest) {
        MergedFrom(a[..|a| - 1], b, rest, f);
      } else {
        MergedFrom(a, b[..|b| - 1], rest, f);
      }
    }
  }

  lemma {:induction false} InterleavedFrom(streams: seq<seq<Fragment>>, m: seq<Fragment>, f: Fragment)
    requires Interleaves(streams, m) && f in m
    ensures exists k :: 0 <= k < |streams| && f in streams[k]
  {
    var n := |streams| - 1;
    var rest :| Interleaves(streams[..n], rest) && Merges(rest, streams[n], m);
    MergedFrom(rest, streams[n], m, f);
    if f in rest {
      InterleavedFrom(streams[..n], rest, f);
      var k :| 0 <= k < n && f in streams[..n][k];
      assert f in streams[k];
    } else {
      assert f in streams[n];
    }
  }

  ghost predicate AllApart(streams: seq<seq<Fragment>>) {
    forall i, j :: 0 <= i < j < |streams| ==> Apart(streams[i], streams[j])
  }

  /** However the fragments of streams with different indexes are interleaved, the
      builder is the one of the streams in turn. */
  lemma {:induction false} InterleavingBuilds(streams: seq<seq<Fragment>>, m: seq<Fragment>)
    requires Interleaves(streams, m) && AllApart(streams)
    ensures Build(m) == Build(Flatten(streams))
  {
    if streams != [] {
      var n := |streams| - 1;
      var rest :| Interleaves(streams[..n], rest) && Merges(rest, streams[n], m);
      InterleavingBuilds(streams[..n], rest);
      forall f | f in rest ensures !Mentions(streams[n], f) {
        InterleavedFrom(streams[..n], rest, f);
        var k :| 0 <= k < n && f in streams[..n][k];
        assert Apart(streams[k], streams[n]) && f in streams[k];
      }
      MergeBuilds(rest, streams[n], m);
      SamePrefixBuilds(rest, Flatten(streams[..n]), streams[n]);
    }
  }

  lemma {:induction false} SamePrefixBuilds(a: seq<Fragment>, b: seq<Fragment>, more: seq<Fragment>)
    requires Build(a) == Build(b)
    ensures Build(a + more) == Build(b + more)
  {
    hide Add;
    if more == [] {
      assert a + more == a && b + more == b;
    } else {
      var n := |more| - 1;
      SamePrefixBuilds(a, b, more[..n]);
      BuildLast(a + more[..n], more[n]);
      BuildLast(b + more[..n], more[n]);
      assert a + more == a + more[..n] + [more[n]] && b + more == b + more[..n] + [more[n]];
    }
  }

  lemma {:induction false} SameBuilderSameCall(a: seq<Fragment>, b: seq<Fragment>, idx: int)
    requires Build(a) == Build(b)
    ensures Named(a, idx) <==> Named(b, idx)
    ensures Named(a, idx) ==> CallFor(a, idx) == CallFor(b, idx)
  {
    hide Build, Only, Name, Arguments;
    BuilderHolds(a, idx);
    BuilderHolds(b, idx);
    NothingUnnamed(a, idx);
    NothingUnnamed(b, idx);
  }

  /** The calls to emit depend on nothing but the builder. */
  lemma {:induction false} SameBuilderSameBatch(a: seq<Fragment>, b: seq<Fragment>, batch: seq<Call>)
    requires Build(a) == Build(b) && IsBatch(batch, a)
    ensures IsBatch(batch, b)
  {
    hide Build, Named, CallFor;
    var order :| Ordering(order, batch, a);
    forall idx ensures Named(b, idx) <==> idx in order { SameBuilderSameCall(a, b, idx); }
    forall i | 0 <= i < |order| ensures batch[i] == CallFor(b, order[i]) {
      assert order[i] in order;
      SameBuilderSameCall(a, b, order[i]);
    }
    assert Ordering(order, batch, b);
  }

  /** Interleaving changes no call: whatever order the fragments of different indexes
      arrive in, the batches that may be emitted are those of the streams in turn. */
  lemma InterleavingIrrelevant(streams: seq<seq<Fragment>>, m: seq<Fragment>, batch: seq<Call>)
    requires Interleaves(streams, m) && AllApart(streams)
    ensures IsBatch(batch, m) <==> IsBatch(batch, Flatten(streams))
  {
    hide IsBatch, Build, Interleaves;
    InterleavingBuilds(streams, m);
    if IsBatch(batch, m) { SameBuilderSameBatch(m, Flatten(streams), batch); }
    if IsBatch(batch, Flatten(streams)) { SameBuilderSameBatch(Flatten(streams), m, batch); }
  }

  // ---------- Groups of fragments ----------

  /** The fragments since the last finish. */
  function Open(responses: seq<Response>): seq<Fragment> {
    if responses == [] then []
    else
      var n := |responses| - 1;
      if responses[n].finished then [] else Open(responses[..n]) + responses[n].fragments
  }

  /** For each finish, the fragments since the one before. */
  function Groups(responses: seq<Response>): seq<seq<Fragment>> {
    if responses == [] then []
    else
      var n := |responses| - 1;
      Groups(responses[..n]) +
        (if responses[n].finished then [Open(responses[..n]) + responses[n].fragments] else [])
  }

  function Contents(responses: seq<Response>): seq<string> {
    if responses == [] then []
    else
      var n := |responses| - 1;
      Contents(responses[..n]) + (if responses[n].content != "" then [responses[n].content] else [])
  }

  function Marks(fragments: seq<Fragment>, idx: int): (marks: seq<bool>)
    ensures |marks| == |fragments|
  {
    Map((f: Fragment) => f.index == Some(idx), fragments)
  }

  lemma {:induction false} MarksLast(fragments: seq<Fragment>, f: Fragment, idx: int)
    ensures Marks(fragments + [f], idx) == Marks(fragments, idx) + [f.index == Some(idx)]
    ensures Only(fragments + [f], idx)
            == if f.index == Some(idx) then Only(fragments, idx) + [f] else Only(fragments, idx)
  {
    assert Only(fragments, idx) + [] == Only(fragments, idx);
    assert (fragments + [f])[..|fragments|] == fragments;
  }

  /** The fragments of one index are those that carry it, each once, in order of arrival. */
  lemma {:induction false} OnlyThose(fragments: seq<Fragment>, idx: int) returns (at: seq<nat>)
    ensures Selects(at, Marks(fragments, idx)) && TakenAt(Only(fragments, idx), fragments, at)
  {
    if fragments == [] {
      SelectsNothing();
      at := [];
    } else {
      hide Selects, TakenAt, Marks, Only, PickMore;
      var n := |fragments| - 1;
      var rest, f := fragments[..n], fragments[n];
      assert fragments == rest + [f];
      var before := OnlyThose(rest, idx);
      MarksLast(rest, f, idx);
      PicksOn(Only(rest, idx), rest, before, Marks(rest, idx), f, f.index == Some(idx));
      at := PickMore(before, n, f.index == Some(idx));
    }
  }

  /** All the arguments, joined. */
  lemma {:induction false} ArgumentsJoin(fragments: seq<Fragment>)
    ensures Arguments(fragments) == Flatten(Map((f: Fragment) => f.arguments, fragments))
  {
    if fragments != [] {
      hide Flatten;
      var n := |fragments| - 1;
      ArgumentsJoin(fragments[..n]);
      MapLast((f: Fragment) => f.arguments, fragments);
      FlattenLast(Map((f: Fragment) => f.arguments, fragments[..n]), fragments[n].arguments);
    } else {
      assert Flatten<char>([]) == "";
    }
  }

  /** The name is the last one given, if any is. */
  lemma {:induction false} NameIsLast(fragments: seq<Fragment>)
    ensures Name(fragments) == "" <==> forall f :: f in fragments ==> f.name == ""
    ensures forall k :: 0 <= k < |fragments| && fragments[k].name != "" &&
                        (forall j :: k < j < |fragments| ==> fragments[j].name == "") ==>
                        Name(fragments) == fragments[k].name
  {
    if fragments != [] { NameIsLast(fragments[..|fragments| - 1]); }
  }

  function Finishes(responses: seq<Response>): nat {
    if responses == [] then 0
    else Finishes(responses[..|responses| - 1]) + (if responses[|responses| - 1].finished then 1 else 0)
  }

  function Fragments(responses: seq<Response>): seq<Fragment> {
    Flatten(Map((r: Response) => r.fragments, responses))
  }

  lemma {:induction false} FragmentsLast(responses: seq<Response>)
    requires responses != []
    ensures var n := |responses| - 1; Fragments(responses) == Fragments(responses[..n]) + responses[n].fragments
  {
    hide Flatten;
    var n := |responses| - 1;
    MapLast((r: Response) => r.fragments, responses);
    FlattenLast(Map((r: Response) => r.fragments, responses[..n]), responses[n].fragments);
  }

  /** The groups then the open fragments are all the fragments, in order; there is one
      group for each finish, and a finish leaves nothing open. */
  lemma {:induction false} GroupsPartition(responses: seq<Response>)
    ensures Flatten(Groups(responses)) + Open(responses) == Fragments(responses)
    ensures |Groups(responses)| == Finishes(responses)
    ensures responses != [] && responses[|responses| - 1].finished ==> Open(responses) == []
  {
    if responses == [] {
      assert Flatten(Groups(responses)) == [];
    } else {
      hide Fragments;
      var n := |responses| - 1;
      var groups, open, more := Groups(responses[..n]), Open(responses[..n]), responses[n].fragments;
      GroupsPartition(responses[..n]);
      FragmentsLast(responses);
      Regroup(Flatten(groups), 0, open, more);
      assert (groups + [open + more])[..|groups|] == groups && groups + [] == groups;
      assert Flatten(groups + [open + more]) + [] == Flatten(groups) + (open + more);
    }
  }

  /** Later responses add groups and change none: so each group runs from one finish to the next. */
  lemma {:induction false} GroupsOnlyGrow(responses: seq<Response>, k: nat)
    requires k <= |responses|
    ensures Groups(responses[..k]) <= Groups(responses)
    decreases |responses|
  {
    if k < |responses| {
      var n := |responses| - 1;
      GroupsOnlyGrow(responses[..n], k);
      assert responses[..n][..k] == responses[..k];
    } else {
      assert responses[..k] == responses;
    }
  }

  /** The text that comes out is the text that came in, and no part of it is empty. */
  lemma {:induction false} ContentsAreTheText(responses: seq<Response>)
    ensures Flatten(Contents(responses)) == Flatten(Map((r: Response) => r.content, responses))
    ensures "" !in Contents(responses)
  {
    if responses != [] {
      hide Flatten;
      var n := |responses| - 1;
      var before := Contents(responses[..n]);
      ContentsAreTheText(responses[..n]);
      MapLast((r: Response) => r.content, responses);
      FlattenLast(Map((r: Response) => r.content, responses[..n]), responses[n].content);
      FlattenLast(before, responses[n].content);
      assert before + [] == before && Flatten(before) + "" == Flatten(before);
    } else {
      assert Flatten<char>([]) == "";
    }
  }

  // ---------- The streaming loop ----------

  method PickOne<T(==)>(s: set<T>) returns (x: T)
    requires s != {}
    ensures x in s
  {
    x :| x in s;
  }

  function CallOf(p: Pending): Call { Call(p.name, p.arguments) }

  /** The named entries of the builder outside `todo` have been emitted, in this order. */
  ghost predicate Emitted(builder: Builder, todo: set<int>, order: seq<int>, batch: seq<Call>) {
    && |order| == |batch|
    && (forall i, j :: 0 <= i < j < |order| ==> order[i] != order[j])
    && (forall idx :: idx in order <==> idx in builder && idx !in todo && builder[idx].name != "")
    && (forall i :: 0 <= i < |order| ==> batch[i] == CallOf(builder[order[i]]))
  }

  lemma {:induction false} EmitStep(builder: Builder, todo: set<int>, idx: int, order: seq<int>, batch: seq<Call>)
    requires idx in builder && idx in todo && Emitted(builder, todo, order, batch)
    ensures builder[idx].name == "" ==> Emitted(builder, todo - {idx}, order, batch)
    ensures builder[idx].name != "" ==>
              Emitted(builder, todo - {idx}, order + [idx], batch + [CallOf(builder[idx])])
  {
    if builder[idx].name != "" {
      var order', batch' := order + [idx], batch + [CallOf(builder[idx])];
      assert idx !in order;
      assert forall k :: k in order' <==> k in order || k == idx;
      forall i | 0 <= i < |order'| ensures order'[i] in builder && batch'[i] == CallOf(builder[order'[i]]) {
        if i < |order| { assert order[i] in order && batch'[i] == batch[i]; }
      }
    }
  }

  lemma {:induction false} AllEmitted(fragments: seq<Fragment>, order: seq<int>, batch: seq<Call>)
    requires Emitted(Build(fragments), {}, order, batch)
    ensures IsBatch(batch, fragments)
  {
    hide Build, Only, Name, Arguments;
    var builder := Build(fragments);
    forall idx ensures Named(fragments, idx) <==> idx in order {
      BuilderHolds(fragments, idx);
      NothingUnnamed(fragments, idx);
    }
    forall i | 0 <= i < |order| ensures batch[i] == CallFor(fragments, order[i]) {
      assert order[i] in order;
      BuilderHolds(fragments, order[i]);
    }
    assert Ordering(order, batch, fragments);
  }

  lemma NothingUnnamed(fragments: seq<Fragment>, idx: int)
    ensures Only(fragments, idx) == [] ==> !Named(fragments, idx)
  {}

  /** Emits the named calls of the builder; a map is walked in no particular order. */
  method EmitCalls(builder: Builder, ghost fragments: seq<Fragment>) returns (batch: seq<Call>)
    requires builder == Build(fragments)
    ensures IsBatch(batch, fragments)
  {
    batch := [];
    var todo := builder.Keys;
    ghost var order: seq<int> := [];
    while todo != {}
      invariant todo <= builder.Keys && Emitted(builder, todo, order, batch)
      decreases todo
    {
      var idx := PickOne(todo);
      EmitStep(builder, todo, idx, order, batch);
      todo := todo - {idx};
      if builder[idx].name != "" {
        batch := batch + [CallOf(builder[idx])];
        order := order + [idx];
      }
    }
    AllEmitted(fragments, order, batch);
  }

  method AddFragment(builder: Builder, f: Fragment) returns (b: Builder)
    ensures b == Add(builder, f)
  {
    b := builder;
    if f.index.Some? {
      var idx := f.index.value;
      if idx !in b { b := b[idx := Pending(f.id, f.kind, "", "")]; }
      ghost var p := b[idx];
      assert p.arguments + "" == p.arguments;
      if f.name != "" { b := b[idx := b[idx].(name := f.name)]; }
      if f.arguments != "" { b := b[idx := b[idx].(arguments := b[idx].arguments + f.arguments)]; }
      if f.id != "" { b := b[idx := b[idx].(id := f.id)]; }
      assert b[idx] == Extend(p, f);
    }
  }

  method AddFragments(builder: Builder, fragments: seq<Fragment>, ghost before: seq<Fragment>) returns (b: Builder)
    requires builder == Build(before)
    ensures b == Build(before + fragments)
  {
    b := builder;
    assert before + fragments[..0] == before;
    for i := 0 to |fragments|
      invariant b == Build(before + fragments[..i])
    {
      b := AddFragment(b, fragments[i]);
      assert (before + fragments[..i + 1])[..|before| + i] == before + fragments[..i];
    }
    assert fragments[..|fragments|] == fragments;
  }

  /** Text passes through in order; each finish emits exactly the calls of the
      fragments since the finish before it; fragments after the last finish emit nothing. */
  method RunStreamingCompletion(responses: seq<Response>) returns (out: seq<string>, batches: seq<seq<Call>>)
    ensures out == Contents(responses)
    ensures |batches| == |Groups(responses)|
    ensures forall k :: 0 <= k < |batches| ==> IsBatch(batches[k], Groups(responses)[k])
  {
    out, batches := [], [];
    var builder: Builder := map[];
    for i := 0 to |responses|
      invariant out == Contents(responses[..i]) && builder == Build(Open(responses[..i]))
      invariant |batches| == |Groups(responses[..i])|
      invariant forall k :: 0 <= k < |batches| ==> IsBatch(batches[k], Groups(responses[..i])[k])
    {
      var r := responses[i];
      ghost var open := Open(responses[..i]);
      assert responses[..i + 1][..i] == responses[..i];
      if r.content != "" { out := out + [r.content]; }
      builder := AddFragments(builder, r.fragments, open);
      if r.finished {
        var batch := EmitCalls(builder, open + r.fragments);
        batches := batches + [batch];
        builder := map[];
      }
    }
    assert responses[..|responses|] == responses;
  }
}
