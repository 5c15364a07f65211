/** What every run of the task-group engine keeps. */
module TaskTheorems {
  import opened Options
  import opened Sequences
  import opened TaskGroup
  import opened TaskEngine

  ghost predicate Loadable(setup: Setup, messages: seq<Message>) {
    setup.instrIndex <= |messages| && UniqueIds(setup.config.tasks)
  }

  ghost function After(setup: Setup, messages: seq<Message>, actions: seq<Action>): Session
    requires Loadable(setup, messages)
  {
    Run(setup, Load(setup, messages), actions)
  }

  // ---------- One step ----------

  lemma SameIdSameTask(tasks: seq<TaskDef>, t: TaskDef, u: TaskDef)
    requires UniqueIds(tasks) && t in tasks && u in tasks && t.id == u.id
    ensures t == u
  {
  }

  /** A step completes nothing, or exactly one task, which was in scope. */
  lemma StepCompletes(setup: Setup, s: Session, a: Action)
    ensures var s' := Step(setup, s, a);
            s'.completed == s.completed ||
            exists t :: t in VisibleNow(setup, s) && s'.completed == s.completed + {t.id}
  {
    hide BuildTools, Visible, Instructions, UpdateInstruction, AllCollected, Put;
    match a
    case SetVar(name, value) =>
      var o := Owner(VisibleNow(setup, s), name);
      if o.Some? { assert o.value.task in VisibleNow(setup, s); }
    case Complete =>
      var visible := VisibleNow(setup, s);
      if visible != [] { assert visible[0] in visible; }
    case Append(_) =>
  }

  // ---------- What the operations look up, without recursion ----------

  /** Task k, at its declaration j, is the first to declare the name. */
  ghost predicate DeclaredFirst(tasks: seq<TaskDef>, name: string, k: nat, j: nat, o: Owned) {
    && k < |tasks| && j < |tasks[k].variables|
    && o == Owned(tasks[k], tasks[k].variables[j]) && o.variable.name == name
    && (forall i :: 0 <= i < j ==> tasks[k].variables[i].name != name)
    && (forall i, v :: 0 <= i < k && v in tasks[i].variables ==> v.name != name)
  }

  lemma {:induction false} FirstNamedAt(vars: seq<TaskVariable>, name: string) returns (j: nat)
    requires FirstNamed(vars, name).Some?
    ensures j < |vars| && vars[j] == FirstNamed(vars, name).value
    ensures forall i :: 0 <= i < j ==> vars[i].name != name
  {
    if vars[0].name == name {
      j := 0;
    } else {
      var rest := FirstNamedAt(vars[1..], name);
      j := rest + 1;
    }
  }

  /** A set call is resolved to the first declaration in the first visible task that has one. */
  lemma {:induction false} OwnerIsFirst(tasks: seq<TaskDef>, name: string) returns (k: nat, j: nat)
    requires Owner(tasks, name).Some?
    ensures DeclaredFirst(tasks, name, k, j, Owner(tasks, name).value)
  {
    if FirstNamed(tasks[0].variables, name).Some? {
      j := FirstNamedAt(tasks[0].variables, name);
      k := 0;
    } else {
      k, j := OwnerIsFirst(tasks[1..], name);
      DeclaredLater(tasks, name, k, j, Owner(tasks, name).value);
      k := k + 1;
    }
  }

  lemma {:induction false} DeclaredLater(tasks: seq<TaskDef>, name: string, k: nat, j: nat, o: Owned)
    requires tasks != [] && FirstNamed(tasks[0].variables, name).None?
    requires DeclaredFirst(tasks[1..], name, k, j, o)
    ensures DeclaredFirst(tasks, name, k + 1, j, o)
  {
    assert tasks[k + 1] == tasks[1..][k];
    forall i, v | 0 <= i < k + 1 && v in tasks[i].variables ensures v.name != name {
      if i > 0 { assert tasks[i] == tasks[1..][i - 1]; }
    }
  }

  function ScopeFlags(tasks: seq<TaskDef>, done: set<string>): seq<bool> { Map(t => InScope(t, done), tasks) }

  /** The visible tasks are those in scope, each once, in configuration order. */
  lemma {:induction false} VisibleInOrder(tasks: seq<TaskDef>, done: set<string>) returns (at: seq<nat>)
    ensures Selects(at, ScopeFlags(tasks, done)) && TakenAt(Visible(tasks, done), tasks, at)
  {
    hide InScope, Selects;
    at := [];
    if tasks == [] {
      SelectsNothing();
      assert ScopeFlags(tasks, done) == [];
    } else {
      var n := |tasks| - 1;
      var before := VisibleInOrder(tasks[..n], done);
      SelectsStep(before, ScopeFlags(tasks[..n], done), InScope(tasks[n], done));
      assert ScopeFlags(tasks, done) == ScopeFlags(tasks[..n], done) + [InScope(tasks[n], done)];
      at := if InScope(tasks[n], done) then before + [n] else before;
    }
  }

  function MissingFlags(vars: seq<TaskVariable>, got: map<string, string>): (flags: seq<bool>)
    ensures |flags| == |vars|
  {
    Map((v: TaskVariable) => v.name !in got, vars)
  }

  function VariableNames(vars: seq<TaskVariable>): (names: seq<string>)
    ensures |names| == |vars|
  {
    Map((v: TaskVariable) => v.name, vars)
  }

  lemma {:induction false} PendingLast(vars: seq<TaskVariable>, v: TaskVariable, got: map<string, string>)
    ensures v.name in got ==> Pending(vars + [v], got) == Pending(vars, got)
    ensures v.name !in got ==> Pending(vars + [v], got) == Pending(vars, got) + [v.name]
    ensures MissingFlags(vars + [v], got) == MissingFlags(vars, got) + [v.name !in got]
    ensures VariableNames(vars + [v]) == VariableNames(vars) + [v.name]
  {
    assert (vars + [v])[..|vars|] == vars;
  }

  /** The names still missing are listed in declaration order. */
  lemma {:induction false} PendingInOrder(vars: seq<TaskVariable>, got: map<string, string>) returns (at: seq<nat>)
    ensures Selects(at, MissingFlags(vars, got)) && TakenAt(Pending(vars, got), VariableNames(vars), at)
  {
    if vars == [] {
      SelectsNothing();
      at := [];
    } else {
      hide Selects, TakenAt, MissingFlags, VariableNames, Pending, PickMore;
      var n := |vars| - 1;
      assert vars == vars[..n] + [vars[n]];
      var before := PendingInOrder(vars[..n], got);
      PendingLast(vars[..n], vars[n], got);
      PicksOn(Pending(vars[..n], got), VariableNames(vars[..n]), before, MissingFlags(vars[..n], got), vars[n].name,
              vars[n].name !in got);
      at := PickMore(before, n, vars[n].name !in got);
    }
  }

  // ---------- Where a session starts ----------

  /** A task with this id is the first that waits for no other. */
  ghost predicate StartsWith(tasks: seq<TaskDef>, id: string, k: nat) {
    && k < |tasks| && tasks[k].id == id && tasks[k].visibleAfter == ""
    && forall i :: 0 <= i < k ==> tasks[i].visibleAfter != ""
  }

  lemma {:induction false} FirstAtStart(tasks: seq<TaskDef>, id: string)
    ensures Visible(tasks, {}) == [] <==> forall t :: t in tasks ==> t.visibleAfter != ""
    ensures Visible(tasks, {}) != [] && Visible(tasks, {})[0].id == id <==> exists k :: StartsWith(tasks, id, k)
  {
    var visible := Visible(tasks, {});
    var at := VisibleInOrder(tasks, {});
    if visible != [] {
      assert visible[0] in visible && at[0] in at;
      forall i: nat | i < at[0] ensures tasks[i].visibleAfter != "" {
        assert i !in at;
      }
      if visible[0].id == id { assert StartsWith(tasks, id, at[0]); }
    }
    forall k: nat | StartsWith(tasks, id, k) ensures visible != [] && visible[0] == tasks[k] {
      assert tasks[k] in visible && ScopeFlags(tasks, {})[k];
      assert k in at && at[0] in at;
    }
    forall t | t in tasks && t.visibleAfter == "" ensures t in visible {}
  }

  /** The initial task of a group is meant to be where the conversation starts, but
      loading only looks the id up. After loading, the first visible task is the
      initial task if and only if it waits for no other and every task before it in
      the configuration does; it is visible at all if and only if it waits for no
      other; and the session is complete at once if and only if every task waits. */
  lemma InitialTaskIsHonoured(setup: Setup, messages: seq<Message>)
    requires setup.instrIndex <= |messages|
    ensures var config, visible := setup.config, VisibleNow(setup, Load(setup, messages));
            && (visible != [] && visible[0].id == config.initialTaskId <==>
                exists k :: StartsWith(config.tasks, config.initialTaskId, k))
            && ((exists t :: t in visible && t.id == config.initialTaskId) <==>
                exists t :: t in config.tasks && t.id == config.initialTaskId && t.visibleAfter == "")
            && (visible == [] <==> forall t :: t in config.tasks ==> t.visibleAfter != "")
  {
    FirstAtStart(setup.config.tasks, setup.config.initialTaskId);
    var visible := Visible(setup.config.tasks, {});
    forall t | t in setup.config.tasks ensures t in visible <==> t.visibleAfter == "" {}
  }

  /** A group that loads although its initial task is hidden behind another one. */
  lemma InitialTaskHidden(setup: Setup, messages: seq<Message>, hidden: TaskDef, other: TaskDef)
    requires setup.instrIndex <= |messages| && setup.config.tasks == [hidden, other]
    requires hidden.id == setup.config.initialTaskId && hidden.id != other.id
    requires hidden.visibleAfter == other.id && other.id != "" && other.visibleAfter == ""
    ensures InitialKnown(setup.config) && UniqueIds(setup.config.tasks)
    ensures VisibleNow(setup, Load(setup, messages)) == [other]
  {
    var tasks := setup.config.tasks;
    assert tasks[0] == hidden && tasks[1] == other;
    assert tasks[..1] == [hidden] && [hidden][..0] == [];
    assert Visible([hidden], {}) == [];
  }

  /** A forced completion completes exactly the first visible task, which is the first
      task in scope in the configuration, stores nothing, and does nothing when there is none. */
  lemma {:induction false} ForcedCompletesFirst(setup: Setup, s: Session)
    ensures var s' := Step(setup, s, Complete); var tasks := setup.config.tasks;
            && s'.collected == s.collected
            && ((forall t :: t in tasks ==> !InScope(t, s.completed)) ==> s' == s)
            && forall k :: 0 <= k < |tasks| && InScope(tasks[k], s.completed) &&
                 (forall i :: 0 <= i < k ==> !InScope(tasks[i], s.completed))
                 ==> s'.completed == s.completed + {tasks[k].id}
  {
    hide BuildTools, Instructions, UpdateInstruction, InScope;
    var tasks, visible := setup.config.tasks, VisibleNow(setup, s);
    var at := VisibleInOrder(tasks, s.completed);
    if visible != [] {
      assert visible[0] in visible && at[0] in at && ScopeFlags(tasks, s.completed)[at[0]];
      forall k: nat |
        k < |tasks| && InScope(tasks[k], s.completed) && forall i :: 0 <= i < k ==> !InScope(tasks[i], s.completed)
        ensures tasks[k] == visible[0]
      {
        assert ScopeFlags(tasks, s.completed)[k] && k in at;
      }
    }
  }

  // ---------- Ordering and exclusivity ----------

  /** Completed tasks are tasks of the group, and each completed one was unlocked. */
  ghost predicate Ordered(setup: Setup, done: set<string>) {
    && (forall id :: id in done ==> exists t :: t in setup.config.tasks && t.id == id)
    && (forall t :: t in setup.config.tasks && t.id in done ==> Unlocked(t, done))
  }

  lemma {:induction false} RunOrdered(setup: Setup, messages: seq<Message>, actions: seq<Action>)
    requires Loadable(setup, messages)
    ensures Ordered(setup, After(setup, messages, actions).completed)
  {
    hide Step, BuildTools, Instructions;
    if actions != [] {
      var n := |actions| - 1;
      RunOrdered(setup, messages, actions[..n]);
      var s := After(setup, messages, actions[..n]);
      StepCompletes(setup, s, actions[n]);
      forall t | t in setup.config.tasks && t.id in Step(setup, s, actions[n]).completed
        ensures Unlocked(t, Step(setup, s, actions[n]).completed)
      {
        if t.id !in s.completed {
          var u :| u in VisibleNow(setup, s) && Step(setup, s, actions[n]).completed == s.completed + {u.id};
          SameIdSameTask(setup.config.tasks, t, u);
        }
      }
    }
  }

  /** No task completes before the task it becomes visible after: whatever step
      completes it, that predecessor was complete before the step, and so the
      two never complete together. */
  lemma CompletesAfterPredecessor(
    setup: Setup, messages: seq<Message>, actions: seq<Action>, n: nat, t: TaskDef)
    requires Loadable(setup, messages) && n < |actions| && t in setup.config.tasks
    requires t.id !in After(setup, messages, actions[..n]).completed
    requires t.id in After(setup, messages, actions[..n + 1]).completed
    ensures t.visibleAfter != "" ==> t.visibleAfter in After(setup, messages, actions[..n]).completed
    ensures !Disappeared(t, After(setup, messages, actions[..n]).completed)
  {
    var s := After(setup, messages, actions[..n]);
    assert actions[..n + 1][..n] == actions[..n];
    StepCompletes(setup, s, actions[n]);
    var u :| u in VisibleNow(setup, s) && Step(setup, s, actions[n]).completed == s.completed + {u.id};
    SameIdSameTask(setup.config.tasks, t, u);
  }

  ghost predicate Cycle(tasks: seq<TaskDef>, cycle: seq<TaskDef>) {
    forall i :: 0 <= i < |cycle| ==>
      && cycle[i] in tasks && cycle[i].visibleAfter != ""
      && cycle[i].visibleAfter == cycle[(i + 1) % |cycle|].id
  }

  ghost predicate NoneDone(cycle: seq<TaskDef>, done: set<string>) {
    forall i :: 0 <= i < |cycle| ==> cycle[i].id !in done
  }

  lemma {:induction false} CycleLocked(tasks: seq<TaskDef>, cycle: seq<TaskDef>, done: set<string>, u: TaskDef)
    requires UniqueIds(tasks) && Cycle(tasks, cycle) && NoneDone(cycle, done)
    requires u in tasks && InScope(u, done)
    ensures NoneDone(cycle, done + {u.id})
  {
    forall i | 0 <= i < |cycle| ensures cycle[i].id != u.id {
      var next := cycle[(i + 1) % |cycle|];
      assert next.id !in done;
      if cycle[i].id == u.id { SameIdSameTask(tasks, u, cycle[i]); }
    }
  }

  /** Tasks that wait for each other in a cycle never complete. */
  lemma {:induction false} CycleNeverCompletes(
    setup: Setup, messages: seq<Message>, actions: seq<Action>, cycle: seq<TaskDef>)
    requires Loadable(setup, messages) && Cycle(setup.config.tasks, cycle)
    ensures NoneDone(cycle, After(setup, messages, actions).completed)
  {
    hide Step, BuildTools, Instructions, Cycle, NoneDone;
    if actions == [] {
      NoneDoneAtFirst(cycle);
    } else {
      var n := |actions| - 1;
      var s := After(setup, messages, actions[..n]);
      CycleNeverCompletes(setup, messages, actions[..n], cycle);
      StepCompletes(setup, s, actions[n]);
      if Step(setup, s, actions[n]).completed != s.completed {
        var u :| u in VisibleNow(setup, s) && Step(setup, s, actions[n]).completed == s.completed + {u.id};
        CycleLocked(setup.config.tasks, cycle, s.completed, u);
      }
    }
  }

  lemma NoneDoneAtFirst(cycle: seq<TaskDef>)
    ensures NoneDone(cycle, {})
  {}

  /** Of two tasks that each disappear after the other, at most one completes. */
  lemma {:induction false} BranchesAreExclusive(
    setup: Setup, messages: seq<Message>, actions: seq<Action>, t: TaskDef, u: TaskDef)
    requires Loadable(setup, messages) && t in setup.config.tasks && u in setup.config.tasks
    requires t.id != u.id && t.id != "" && u.id != ""
    requires t.disappearAfter == u.id && u.disappearAfter == t.id
    ensures !(t.id in After(setup, messages, actions).completed && u.id in After(setup, messages, actions).completed)
  {
    hide Step, BuildTools, Instructions;
    if actions != [] {
      var n := |actions| - 1;
      var s := After(setup, messages, actions[..n]);
      BranchesAreExclusive(setup, messages, actions[..n], t, u);
      StepCompletes(setup, s, actions[n]);
      forall w | w in VisibleNow(setup, s) && (w.id == t.id || w.id == u.id)
        ensures t.id !in s.completed && u.id !in s.completed
      {
        SameIdSameTask(setup.config.tasks, w, if w.id == t.id then t else u);
      }
    }
  }

  lemma {:induction false} CompletedOnlyGrows(setup: Setup, s: Session, actions: seq<Action>)
    ensures s.completed <= Run(setup, s, actions).completed
  {
    if actions != [] {
      CompletedOnlyGrows(setup, s, actions[..|actions| - 1]);
      StepCompletes(setup, Run(setup, s, actions[..|actions| - 1]), actions[|actions| - 1]);
    }
  }

  /** A completed or disappeared task is out of scope for good. */
  lemma NeverVisibleAgain(setup: Setup, s: Session, actions: seq<Action>, t: TaskDef)
    requires t.id in s.completed || Disappeared(t, s.completed)
    ensures t !in VisibleNow(setup, Run(setup, s, actions))
  {
    CompletedOnlyGrows(setup, s, actions);
  }

  function Appended(actions: seq<Action>): seq<Message> {
    if actions == [] then []
    else
      var last := actions[|actions| - 1];
      Appended(actions[..|actions| - 1]) + (if last.Append? then [last.message] else [])
  }

  /** Once nothing is visible the session is frozen: only the conversation grows. */
  lemma {:induction false} CompleteIsFinal(setup: Setup, s: Session, actions: seq<Action>)
    requires VisibleNow(setup, s) == []
    ensures Run(setup, s, actions) == s.(messages := s.messages + Appended(actions))
    ensures VisibleNow(setup, Run(setup, s, actions)) == []
  {
    if actions == [] {
      assert s.messages + Appended(actions) == s.messages;
    } else {
      var n := |actions| - 1;
      CompleteIsFinal(setup, s, actions[..n]);
      assert s.messages + Appended(actions) ==
        s.messages + Appended(actions[..n]) + (if actions[n].Append? then [actions[n].message] else []);
    }
  }

  // ---------- Confluence ----------

  /** `path` leads from t, predecessor by predecessor, to a task visible from the start. */
  ghost predicate Chain(tasks: seq<TaskDef>, t: TaskDef, path: seq<TaskDef>)
    decreases |path|
  {
    if path == [] then t.visibleAfter == ""
    else t.visibleAfter != "" && path[0] in tasks && path[0].id == t.visibleAfter && Chain(tasks, path[0], path[1..])
  }

  ghost predicate Rooted(tasks: seq<TaskDef>, t: TaskDef) {
    exists path :: Chain(tasks, t, path)
  }

  lemma RootedStep(tasks: seq<TaskDef>, t: TaskDef, p: TaskDef)
    requires p in tasks && t.visibleAfter != "" && p.id == t.visibleAfter && Rooted(tasks, p)
    ensures Rooted(tasks, t)
  {
    var path :| Chain(tasks, p, path);
    assert ([p] + path)[1..] == path;
    assert Chain(tasks, t, [p] + path);
  }

  lemma {:induction false} CompletedAreRooted(setup: Setup, messages: seq<Message>, actions: seq<Action>)
    requires Loadable(setup, messages)
    ensures forall t :: t in setup.config.tasks && t.id in After(setup, messages, actions).completed
              ==> Rooted(setup.config.tasks, t)
  {
    hide Step, BuildTools, Instructions;
    if actions != [] {
      var n := |actions| - 1;
      var tasks := setup.config.tasks;
      var s := After(setup, messages, actions[..n]);
      CompletedAreRooted(setup, messages, actions[..n]);
      RunOrdered(setup, messages, actions[..n]);
      StepCompletes(setup, s, actions[n]);
      forall t | t in tasks && t.id in Step(setup, s, actions[n]).completed
        ensures Rooted(tasks, t)
      {
        if t.id !in s.completed {
          var u :| u in VisibleNow(setup, s) && Step(setup, s, actions[n]).completed == s.completed + {u.id};
          SameIdSameTask(tasks, t, u);
          if t.visibleAfter == "" {
            assert Chain(tasks, t, []);
          } else {
            var p :| p in tasks && p.id == t.visibleAfter;
            RootedStep(tasks, t, p);
          }
        }
      }
    }
  }

  /** A task that was cut off: it disappeared without having completed. */
  predicate CutOff(t: TaskDef, done: set<string>) {
    t.id !in done && Disappeared(t, done)
  }

  ghost predicate NoneCutOff(tasks: seq<TaskDef>, done: set<string>) {
    forall u :: u in tasks ==> !CutOff(u, done)
  }

  /** When nothing is visible any more, a task on a chain to a root has completed
      if and only if neither it nor any predecessor was cut off. */
  lemma {:induction false} QuiescentTask(
    setup: Setup, done: set<string>, t: TaskDef, path: seq<TaskDef>)
    requires Ordered(setup, done) && Visible(setup.config.tasks, done) == []
    requires t in setup.config.tasks && Chain(setup.config.tasks, t, path)
    ensures t.id in done <==> NoneCutOff([t] + path, done)
    decreases |path|
  {
    assert !InScope(t, done) by { assert t !in Visible(setup.config.tasks, done); }
    assert NoneCutOff([t] + path, done) <==> !CutOff(t, done) && NoneCutOff(path, done) by {
      assert t in [t] + path && forall u :: u in [t] + path <==> u == t || u in path;
    }
    if path != [] {
      QuiescentTask(setup, done, path[0], path[1..]);
      assert path == [path[0]] + path[1..];
      assert Unlocked(t, done) <==> path[0].id in done;
    }
  }

  ghost function RootedIds(tasks: seq<TaskDef>): set<string> {
    set t | t in tasks && Rooted(tasks, t) :: t.id
  }

  predicate NothingDisappears(tasks: seq<TaskDef>) {
    forall t :: t in tasks ==> t.disappearAfter == ""
  }

  /** Confluence: without disappearing tasks, a run that ends with nothing visible
      has completed exactly the tasks whose chain of predecessors ends at a root,
      whatever was set or completed in whatever order. */
  lemma Confluence(setup: Setup, messages: seq<Message>, actions: seq<Action>)
    requires Loadable(setup, messages) && NothingDisappears(setup.config.tasks)
    requires VisibleNow(setup, After(setup, messages, actions)) == []
    ensures After(setup, messages, actions).completed == RootedIds(setup.config.tasks)
  {
    var done := After(setup, messages, actions).completed;
    RunOrdered(setup, messages, actions);
    CompletedAreRooted(setup, messages, actions);
    forall t | t in setup.config.tasks && Rooted(setup.config.tasks, t) ensures t.id in done {
      var path :| Chain(setup.config.tasks, t, path);
      ChainMembers(setup.config.tasks, t, path);
      QuiescentTask(setup, done, t, path);
    }
  }

  lemma {:induction false} ChainMembers(tasks: seq<TaskDef>, t: TaskDef, path: seq<TaskDef>)
    requires Chain(tasks, t, path)
    ensures forall u :: u in path ==> u in tasks
    decreases |path|
  {
    if path != [] {
      ChainMembers(tasks, path[0], path[1..]);
      assert path == [path[0]] + path[1..];
    }
  }

  /** With disappearing tasks the outcome depends on the order, but only through
      what was cut off: exactly the rooted tasks with no cut-off predecessor completed. */
  lemma ConfluenceUpToCutOff(setup: Setup, messages: seq<Message>, actions: seq<Action>, t: TaskDef)
    requires Loadable(setup, messages) && t in setup.config.tasks
    requires VisibleNow(setup, After(setup, messages, actions)) == []
    ensures t.id in After(setup, messages, actions).completed <==>
            exists path :: Chain(setup.config.tasks, t, path) &&
                           NoneCutOff([t] + path, After(setup, messages, actions).completed)
  {
    var done := After(setup, messages, actions).completed;
    RunOrdered(setup, messages, actions);
    CompletedAreRooted(setup, messages, actions);
    if t.id in done {
      var path :| Chain(setup.config.tasks, t, path);
      QuiescentTask(setup, done, t, path);
    } else {
      forall path | Chain(setup.config.tasks, t, path) ensures !NoneCutOff([t] + path, done) {
        QuiescentTask(setup, done, t, path);
      }
    }
  }
}
