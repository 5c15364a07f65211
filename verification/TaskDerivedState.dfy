/** The tool list and the task prompt never go stale, and what the tool list offers. */
module TaskDerivedState {
  import opened Options
  import opened Sequences
  import opened TaskGroup
  import opened TaskEngine
  import opened TaskTheorems

  // ---------- Caches agree with recomputation ----------

  /** The tool list built from scratch for the present progress. A completion that
      leaves nothing visible leaves the permanent tools only. */
  function ExpectedTools(setup: Setup, s: Session): seq<Tool> {
    if VisibleNow(setup, s) == [] && s.completed != {} then setup.permanent
    else BuildTools(setup, VisibleNow(setup, s), s.collected)
  }

  ghost predicate Derived(setup: Setup, s: Session) {
    && s.tools == ExpectedTools(setup, s)
    && setup.instrIndex < |s.messages|
    && s.messages[setup.instrIndex] == Message(System, Prompt(Instructions(VisibleNow(setup, s))))
  }

  /** After any run the tools and the prompt are those of the present progress,
      and the rest of the conversation is what it was, plus what was appended. */
  lemma {:induction false} CachesAgree(setup: Setup, messages: seq<Message>, actions: seq<Action>)
    requires Loadable(setup, messages)
    ensures var s := After(setup, messages, actions); var k := setup.instrIndex;
            && Derived(setup, s)
            && s.messages[..k] == messages[..k]
            && s.messages[k + 1..] == messages[k..] + Appended(actions)
  {
    var k := setup.instrIndex;
    if actions == [] {
      assert messages[k..] + Appended(actions) == messages[k..];
    } else {
      var n := |actions| - 1;
      CachesAgree(setup, messages, actions[..n]);
      StepKeepsDerived(setup, After(setup, messages, actions[..n]), actions[n]);
    }
  }

  lemma CompleteTaskKeepsDerived(setup: Setup, s: Session, id: string)
    requires setup.instrIndex < |s.messages| && s.messages[setup.instrIndex].role == System
    ensures var s' := CompleteTask(setup, s, id); var k := setup.instrIndex;
            Derived(setup, s') && s'.messages[..k] == s.messages[..k] && s'.messages[k + 1..] == s.messages[k + 1..]
  {
  }

  lemma StepKeepsDerived(setup: Setup, s: Session, a: Action)
    requires Derived(setup, s)
    ensures var s' := Step(setup, s, a); var k := setup.instrIndex;
            && Derived(setup, s')
            && s'.messages[..k] == s.messages[..k]
            && s'.messages[k + 1..] == s.messages[k + 1..] + (if a.Append? then [a.message] else [])
  {
    match a
    case SetVar(name, value) =>
      var o := Owner(VisibleNow(setup, s), name);
      if o.Some? && o.value.variable.Validate(setup.compile, value) {
        var t := o.value.task;
        assert VisibleNow(setup, s) != [];
        CompleteTaskKeepsDerived(setup, Store(setup, s, t.id, name, value), t.id);
      }
    case Complete =>
      if VisibleNow(setup, s) != [] {
        CompleteTaskKeepsDerived(setup, s, VisibleNow(setup, s)[0].id);
      }
    case Append(_) =>
  }

  // ---------- What the prompt says ----------

  /** The tasks an instruction speaks of. */
  function Mentioned(i: Instruction): seq<TaskDef> {
    match i
    case WrapUp => []
    case FocusOn(t) => [t]
    case Topics(ts) => ts
  }

  /** After any run the prompt speaks of exactly the visible tasks, in order: a wrap-up
      when there is none, a single focus when there is one, simultaneous topics otherwise. */
  lemma PromptMentionsVisible(setup: Setup, messages: seq<Message>, actions: seq<Action>)
    requires Loadable(setup, messages)
    ensures var s := After(setup, messages, actions); var visible := VisibleNow(setup, s);
            && setup.instrIndex < |s.messages|
            && var m := s.messages[setup.instrIndex];
               && m.role == System && m.body.Prompt?
               && Mentioned(m.body.instruction) == visible
               && (m.body.instruction.WrapUp? <==> |visible| == 0)
               && (m.body.instruction.FocusOn? <==> |visible| == 1)
               && (m.body.instruction.Topics? <==> |visible| >= 2)
  {
    CachesAgree(setup, messages, actions);
  }

  // ---------- The tool list without a set of seen names ----------

  function Count(tools: seq<Tool>, id: string): nat {
    if tools == [] then 0
    else Count(tools[..|tools| - 1], id) + (if tools[|tools| - 1].toolId == id then 1 else 0)
  }

  lemma {:induction false} CountConcat(a: seq<Tool>, b: seq<Tool>, id: string)
    ensures Count(a + b, id) == Count(a, id) + Count(b, id)
  {
    if b == [] {
      assert a + b == a;
    } else {
      var n := |b| - 1;
      CountConcat(a, b[..n], id);
      assert (a + b)[..|a + b| - 1] == a + b[..n] && (a + b)[|a + b| - 1] == b[n];
    }
  }

  lemma {:induction false} CountNone(tools: seq<Tool>, id: string)
    requires forall t :: t in tools ==> t.toolId != id
    ensures Count(tools, id) == 0
  {
    if tools != [] { CountNone(tools[..|tools| - 1], id); }
  }

  /** The set tools of a task, one for every declaration that has no value yet. */
  function SetOffers(vars: seq<TaskVariable>, got: map<string, string>): seq<Tool> {
    if vars == [] then []
    else
      var v := vars[|vars| - 1];
      SetOffers(vars[..|vars| - 1], got) + (if v.name in got then [] else [Tool("set_" + v.name, SetsVariable(v))])
  }

  /** What a task asks to be offered: the registered tools it names, then its set tools. */
  function Asked(registry: Registry, t: TaskDef, collected: Collected): seq<Tool> {
    GlobalTools(registry, t.visibleToolIds) + SetOffers(t.variables, Captured(collected, t.id))
  }

  function AskedAll(registry: Registry, tasks: seq<TaskDef>, collected: Collected): seq<Tool> {
    if tasks == [] then []
    else AskedAll(registry, tasks[..|tasks| - 1], collected) + Asked(registry, tasks[|tasks| - 1], collected)
  }

  ghost predicate Names(tools: seq<Tool>, id: string) { exists tool :: tool in tools && tool.toolId == id }

  /** Each name once, at its first occurrence. */
  ghost function Distinct(tools: seq<Tool>): seq<Tool> {
    if tools == [] then []
    else
      var n := |tools| - 1;
      Distinct(tools[..n]) + (if Names(tools[..n], tools[n].toolId) then [] else [tools[n]])
  }

  /** The accumulated listing is the distinct tools asked for so far. */
  ghost predicate Lists(l: Listing, base: seq<Tool>, asked: seq<Tool>) {
    l.tools == base + Distinct(asked) && forall id :: id in l.seen <==> Names(asked, id)
  }

  lemma {:induction false} OneMore(l: Listing, base: seq<Tool>, asked: seq<Tool>, tool: Tool)
    requires Lists(l, base, asked)
    ensures tool.toolId in l.seen ==> Lists(l, base, asked + [tool])
    ensures tool.toolId !in l.seen ==> Lists(Listing(l.tools + [tool], l.seen + {tool.toolId}), base, asked + [tool])
  {
    var more := asked + [tool];
    assert more[..|asked|] == asked;
    assert forall id :: Names(more, id) <==> Names(asked, id) || id == tool.toolId by {
      assert tool in more && forall x :: x in more <==> x in asked || x == tool;
    }
    if tool.toolId in l.seen {
      assert Distinct(asked) + [] == Distinct(asked);
    } else {
      assert base + Distinct(asked) + [tool] == base + (Distinct(asked) + [tool]);
    }
  }

  lemma {:induction false} RegisteredListed(
    registry: Registry, ids: seq<string>, from: Listing, base: seq<Tool>, asked: seq<Tool>)
    requires Lists(from, base, asked)
    ensures Lists(AddRegistered(registry, ids, from), base, asked + GlobalTools(registry, ids))
  {
    hide Lists;
    if ids == [] {
      assert asked + GlobalTools(registry, ids) == asked;
    } else {
      var n := |ids| - 1;
      var before := asked + GlobalTools(registry, ids[..n]);
      RegisteredListed(registry, ids[..n], from, base, asked);
      if ids[n] in registry {
        OneMore(AddRegistered(registry, ids[..n], from), base, before, registry[ids[n]]);
        assert asked + GlobalTools(registry, ids) == before + [registry[ids[n]]];
      }
    }
  }

  lemma {:induction false} SetToolsListed(
    vars: seq<TaskVariable>, got: map<string, string>, from: Listing, base: seq<Tool>, asked: seq<Tool>)
    requires Lists(from, base, asked)
    ensures Lists(AddSetTools(vars, got, from), base, asked + SetOffers(vars, got))
  {
    hide Lists;
    if vars == [] {
      assert asked + SetOffers(vars, got) == asked;
    } else {
      var n := |vars| - 1;
      var before := asked + SetOffers(vars[..n], got);
      SetToolsListed(vars[..n], got, from, base, asked);
      if vars[n].name in got {
        assert asked + SetOffers(vars, got) == before;
      } else {
        OneMore(AddSetTools(vars[..n], got, from), base, before, MakeSetTool(vars[n]));
        assert asked + SetOffers(vars, got) == before + [MakeSetTool(vars[n])];
      }
    }
  }

  lemma {:induction false} TaskListed(
    registry: Registry, t: TaskDef, collected: Collected, from: Listing, base: seq<Tool>, asked: seq<Tool>)
    requires Lists(from, base, asked)
    ensures Lists(AddTask(registry, t, collected, from), base, asked + Asked(registry, t, collected))
  {
    hide Lists, AddRegistered, AddSetTools, GlobalTools, SetOffers, Captured;
    var registered := GlobalTools(registry, t.visibleToolIds);
    var offers := SetOffers(t.variables, Captured(collected, t.id));
    RegisteredListed(registry, t.visibleToolIds, from, base, asked);
    SetToolsListed(t.variables, Captured(collected, t.id), AddRegistered(registry, t.visibleToolIds, from), base,
                   asked + registered);
    Regroup(asked, 0, registered, offers);
  }

  lemma NothingListed(base: seq<Tool>)
    ensures Lists(Listing(base, {}), base, [])
  {
    assert base + Distinct([]) == base;
  }

  lemma {:induction false} TasksListed(
    registry: Registry, tasks: seq<TaskDef>, collected: Collected, base: seq<Tool>)
    ensures Lists(AddTasks(registry, tasks, collected, Listing(base, {})), base, AskedAll(registry, tasks, collected))
  {
    hide Lists, AddTask, Asked;
    if tasks == [] {
      NothingListed(base);
    } else {
      var n := |tasks| - 1;
      TasksListed(registry, tasks[..n], collected, base);
      TaskListed(registry, tasks[n], collected, AddTasks(registry, tasks[..n], collected, Listing(base, {})), base,
                 AskedAll(registry, tasks[..n], collected));
    }
  }

  /** A rebuilt list is the permanent tools, the global tools, and then, each name once,
      what the given tasks ask for, task by task. */
  lemma BuiltListIs(setup: Setup, visible: seq<TaskDef>, collected: Collected)
    ensures BuildTools(setup, visible, collected)
            == setup.permanent + GlobalTools(setup.registry, setup.config.globalTools)
               + Distinct(AskedAll(setup.registry, visible, collected))
  {
    hide AddTasks, Distinct, AskedAll, GlobalTools;
    TasksListed(setup.registry, visible, collected,
                setup.permanent + GlobalTools(setup.registry, setup.config.globalTools));
  }

  /** After any run, the tools on offer are exactly these; a completion that leaves
      nothing visible leaves the permanent tools only. */
  lemma ToolsAre(setup: Setup, messages: seq<Message>, actions: seq<Action>)
    requires Loadable(setup, messages)
    ensures var s := After(setup, messages, actions); var visible := VisibleNow(setup, s);
            s.tools == if visible == [] && s.completed != {} then setup.permanent
                       else setup.permanent + GlobalTools(setup.registry, setup.config.globalTools)
                            + Distinct(AskedAll(setup.registry, visible, s.collected))
  {
    hide BuildTools, Distinct, AskedAll, GlobalTools;
    CachesAgree(setup, messages, actions);
    var s := After(setup, messages, actions);
    BuiltListIs(setup, VisibleNow(setup, s), s.collected);
  }

  function RegistryFlags(registry: Registry, ids: seq<string>): seq<bool> { Map(id => id in registry, ids) }

  /** The registered tools named by a list of ids, in its order, unknown ids left out. */
  lemma {:induction false} RegisteredInOrder(registry: Registry, ids: seq<string>) returns (at: seq<nat>)
    ensures Selects(at, RegistryFlags(registry, ids)) && |at| == |GlobalTools(registry, ids)|
    ensures forall i :: 0 <= i < |at| ==>
              at[i] < |ids| && ids[at[i]] in registry && GlobalTools(registry, ids)[i] == registry[ids[at[i]]]
  {
    hide Selects;
    at := [];
    if ids == [] {
      SelectsNothing();
      assert RegistryFlags(registry, ids) == [];
    } else {
      var n := |ids| - 1;
      var before := RegisteredInOrder(registry, ids[..n]);
      SelectsStep(before, RegistryFlags(registry, ids[..n]), ids[n] in registry);
      assert RegistryFlags(registry, ids) == RegistryFlags(registry, ids[..n]) + [ids[n] in registry];
      at := if ids[n] in registry then before + [n] else before;
    }
  }

  // ---------- What a built tool list offers ----------

  lemma SetToolIdInjective(a: string, b: string)
    ensures SetToolId(a) == SetToolId(b) <==> a == b
  {
    assert SetToolId(a)[4..] == a && SetToolId(b)[4..] == b;
  }

  predicate Lacks(vars: seq<TaskVariable>, got: map<string, string>, name: string) {
    name !in got && exists v :: v in vars && v.name == name
  }

  predicate SomeLacks(visible: seq<TaskDef>, collected: Collected, name: string) {
    exists t :: t in visible && Lacks(t.variables, Captured(collected, t.id), name)
  }

  lemma {:induction false} GlobalToolIds(registry: Registry, ids: seq<string>)
    ensures forall t :: t in GlobalTools(registry, ids)
              <==> exists id :: id in ids && id in registry && t == registry[id]
  {
    if ids != [] {
      GlobalToolIds(registry, ids[..|ids| - 1]);
      assert ids == ids[..|ids| - 1] + [ids[|ids| - 1]];
    }
  }

  lemma {:induction false} SetOffersOf(vars: seq<TaskVariable>, got: map<string, string>)
    ensures forall tool :: tool in SetOffers(vars, got)
              <==> exists v :: v in vars && v.name !in got && tool == Tool(SetToolId(v.name), SetsVariable(v))
  {
    if vars != [] {
      SetOffersOf(vars[..|vars| - 1], got);
      assert vars == vars[..|vars| - 1] + [vars[|vars| - 1]];
    }
  }

  /** A name that the tasks ask for: a registered tool one of them names, or the set
      tool of a variable one of them lacks. */
  predicate AskedFor(registry: Registry, tasks: seq<TaskDef>, collected: Collected, id: string) {
    || (id in registry && exists t :: t in tasks && id in t.visibleToolIds)
    || (|id| >= 4 && id[..4] == "set_" && SomeLacks(tasks, collected, id[4..]))
  }

  lemma {:induction false} AskedNames(registry: Registry, t: TaskDef, collected: Collected, id: string)
    ensures Names(Asked(registry, t, collected), id) <==>
            || (id in registry && id in t.visibleToolIds)
            || (|id| >= 4 && id[..4] == "set_" && Lacks(t.variables, Captured(collected, t.id), id[4..]))
  {
    var got := Captured(collected, t.id);
    GlobalToolIds(registry, t.visibleToolIds);
    SetOffersOf(t.variables, got);
    if id in registry && id in t.visibleToolIds { assert registry[id] in Asked(registry, t, collected); }
    if |id| >= 4 && id[..4] == "set_" && Lacks(t.variables, got, id[4..]) {
      var v :| v in t.variables && v.name == id[4..];
      assert "set_" + id[4..] == id;
      assert Tool(SetToolId(v.name), SetsVariable(v)) in Asked(registry, t, collected);
    }
    if Names(Asked(registry, t, collected), id) {
      var tool :| tool in Asked(registry, t, collected) && tool.toolId == id;
      if tool !in GlobalTools(registry, t.visibleToolIds) {
        var v :| v in t.variables && v.name !in got && tool == Tool(SetToolId(v.name), SetsVariable(v));
        assert id[..4] == "set_" && id[4..] == v.name;
      }
    }
  }

  lemma {:induction false} AllAskedNames(registry: Registry, tasks: seq<TaskDef>, collected: Collected, id: string)
    ensures Names(AskedAll(registry, tasks, collected), id) <==> AskedFor(registry, tasks, collected, id)
  {
    hide Asked, Lacks;
    if tasks != [] {
      var n := |tasks| - 1;
      AllAskedNames(registry, tasks[..n], collected, id);
      AskedNames(registry, tasks[n], collected, id);
      assert tasks == tasks[..n] + [tasks[n]];
      NamesConcat(AskedAll(registry, tasks[..n], collected), Asked(registry, tasks[n], collected), id);
      SomeLacksStep(tasks, collected, if |id| >= 4 then id[4..] else id);
    }
  }

  lemma NamesConcat(a: seq<Tool>, b: seq<Tool>, id: string)
    ensures Names(a + b, id) <==> Names(a, id) || Names(b, id)
  {
    assert forall tool :: tool in a + b <==> tool in a || tool in b;
  }

  lemma SomeLacksStep(tasks: seq<TaskDef>, collected: Collected, name: string)
    requires tasks != []
    ensures var n := |tasks| - 1;
            SomeLacks(tasks, collected, name) <==>
            SomeLacks(tasks[..n], collected, name) || Lacks(tasks[n].variables, Captured(collected, tasks[n].id), name)
  {
    hide Lacks;
    var n := |tasks| - 1;
    assert tasks == tasks[..n] + [tasks[n]];
  }

  lemma NamesOne(tool: Tool, id: string)
    ensures Names([tool], id) <==> tool.toolId == id
    ensures Count([tool], id) == if tool.toolId == id then 1 else 0
  {
    assert tool in [tool] && [tool][..0] == [];
  }

  lemma NamesNothing(id: string)
    ensures !Names([], id) && Count([], id) == 0
  {}

  lemma {:induction false} DistinctLast(tools: seq<Tool>, tool: Tool)
    ensures Distinct(tools + [tool]) == if Names(tools, tool.toolId) then Distinct(tools) else Distinct(tools) + [tool]
  {
    hide Names;
    assert (tools + [tool])[..|tools|] == tools;
    assert Distinct(tools) + [] == Distinct(tools);
  }

  lemma {:induction false} DistinctCounts(tools: seq<Tool>, id: string)
    ensures Count(Distinct(tools), id) == if Names(tools, id) then 1 else 0
  {
    if tools != [] {
      hide Count, Names, Distinct;
      var n := |tools| - 1;
      assert tools == tools[..n] + [tools[n]];
      DistinctCounts(tools[..n], id);
      DistinctLast(tools[..n], tools[n]);
      NamesConcat(tools[..n], [tools[n]], id);
      NamesOne(tools[n], id);
      CountConcat(Distinct(tools[..n]), [tools[n]], id);
    } else {
      NamesNothing(id);
    }
  }

  /** How often any name is on a rebuilt list: as often as it is among the permanent and
      global tools, and once more exactly if the tasks ask for it. */
  lemma {:induction false} ToolCounted(setup: Setup, visible: seq<TaskDef>, collected: Collected, id: string)
    ensures Count(BuildTools(setup, visible, collected), id)
            == Count(setup.permanent + GlobalTools(setup.registry, setup.config.globalTools), id)
               + if AskedFor(setup.registry, visible, collected, id) then 1 else 0
  {
    hide BuildTools, Distinct, AskedAll, AskedFor, Count, Names;
    var asked := AskedAll(setup.registry, visible, collected);
    BuiltListIs(setup, visible, collected);
    CountConcat(setup.permanent + GlobalTools(setup.registry, setup.config.globalTools), Distinct(asked), id);
    DistinctCounts(asked, id);
    AllAskedNames(setup.registry, visible, collected, id);
  }

  /** `set_x` is offered exactly once if some visible task still lacks x, and
      otherwise not at all, provided no other tool has that name. */
  lemma {:induction false} SetToolOfferedOnce(setup: Setup, visible: seq<TaskDef>, collected: Collected, name: string)
    requires SetToolId(name) !in setup.registry
    requires forall t :: t in setup.permanent ==> t.toolId != SetToolId(name)
    ensures Count(BuildTools(setup, visible, collected), SetToolId(name))
            == if SomeLacks(visible, collected, name) then 1 else 0
  {
    hide BuildTools, SomeLacks;
    var id := SetToolId(name);
    GlobalToolIds(setup.registry, setup.config.globalTools);
    CountNone(setup.permanent + GlobalTools(setup.registry, setup.config.globalTools), id);
    ToolCounted(setup, visible, collected, id);
    assert id[..4] == "set_" && id[4..] == name;
  }

  /** Permanent tools, then global tools, open every built list. */
  lemma PermanentToolsFirst(setup: Setup, visible: seq<TaskDef>, collected: Collected)
    ensures setup.permanent + GlobalTools(setup.registry, setup.config.globalTools)
            <= BuildTools(setup, visible, collected)
  {
    hide BuildTools;
    BuiltListIs(setup, visible, collected);
  }

  lemma {:induction false} DistinctMembers(tools: seq<Tool>)
    ensures forall tool :: tool in Distinct(tools) ==> tool in tools
    ensures forall id :: Names(Distinct(tools), id) <==> Names(tools, id)
  {
    if tools != [] {
      hide Names;
      var n := |tools| - 1;
      DistinctMembers(tools[..n]);
      assert tools == tools[..n] + [tools[n]];
      forall id ensures Names(Distinct(tools), id) <==> Names(tools, id) {
        NamesConcat(tools[..n], [tools[n]], id);
        NamesConcat(Distinct(tools[..n]), [tools[n]], id);
        NamesOne(tools[n], id);
      }
    }
  }

  lemma {:induction false} AskedIsRegistered(registry: Registry, tasks: seq<TaskDef>, collected: Collected, id: string)
    requires id in registry && forall x :: SetToolId(x) != id
    ensures forall tool :: tool in AskedAll(registry, tasks, collected) && tool.toolId == id ==> tool == registry[id]
  {
    if tasks != [] {
      hide Lacks;
      var n := |tasks| - 1;
      AskedIsRegistered(registry, tasks[..n], collected, id);
      GlobalToolIds(registry, tasks[n].visibleToolIds);
      SetOffersOf(tasks[n].variables, Captured(collected, tasks[n].id));
      forall tool | tool in SetOffers(tasks[n].variables, Captured(collected, tasks[n].id)) ensures tool.toolId != id {
        var v :| v in tasks[n].variables && tool == Tool(SetToolId(v.name), SetsVariable(v));
        assert SetToolId(v.name) != id;
      }
    }
  }

  lemma NotASetTool(id: string)
    requires forall x :: SetToolId(x) != id
    ensures !(|id| >= 4 && id[..4] == "set_")
  {
    var name := if |id| >= 4 then id[4..] else "";
    assert SetToolId(name) != id;
    assert |id| >= 4 ==> id == id[..4] + name;
  }

  /** A registered tool is offered exactly when it is permanent, global, or named by a visible task. */
  lemma RegisteredToolOffered(setup: Setup, visible: seq<TaskDef>, collected: Collected, id: string)
    requires id in setup.registry && forall x :: SetToolId(x) != id
    ensures setup.registry[id] in BuildTools(setup, visible, collected) <==>
            || setup.registry[id] in setup.permanent || id in setup.config.globalTools
            || exists t :: t in visible && id in t.visibleToolIds
  {
    hide BuildTools, SomeLacks, AskedAll, Distinct;
    var asked := AskedAll(setup.registry, visible, collected);
    BuiltListIs(setup, visible, collected);
    GlobalToolIds(setup.registry, setup.config.globalTools);
    DistinctMembers(asked);
    AskedIsRegistered(setup.registry, visible, collected, id);
    AllAskedNames(setup.registry, visible, collected, id);
    NotASetTool(id);
    assert setup.registry[id] in Distinct(asked) <==> Names(Distinct(asked), id);
  }
}
