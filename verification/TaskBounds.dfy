/** How long a session can go on, and that it can always be brought to an end. */
module TaskBounds {
  import opened Options
  import opened TaskGroup
  import opened TaskEngine
  import opened TaskTheorems
  import opened TaskProgress

  predicate FillsSlot(setup: Setup, s: Session, a: Action) {
    Missing(setup.config.tasks, Step(setup, s, a).collected) != Missing(setup.config.tasks, s.collected)
  }

  /** Steps that store a value where there was none. */
  function FreshCaptures(setup: Setup, s: Session, actions: seq<Action>): nat {
    if actions == [] then 0
    else
      var n := |actions| - 1;
      var before := Run(setup, s, actions[..n]);
      FreshCaptures(setup, s, actions[..n]) +
      (if FillsSlot(setup, before, actions[n]) then 1 else 0)
  }

  /** Steps that complete a task. */
  function Completions(setup: Setup, s: Session, actions: seq<Action>): nat {
    if actions == [] then 0
    else
      var n := |actions| - 1;
      var before := Run(setup, s, actions[..n]);
      Completions(setup, s, actions[..n]) +
      (if Step(setup, before, actions[n]).completed == before.completed then 0 else 1)
  }

  lemma {:induction false} StepFillsOne(setup: Setup, s: Session, a: Action)
    ensures |Missing(setup.config.tasks, Step(setup, s, a).collected)| + (if FillsSlot(setup, s, a) then 1 else 0)
            == |Missing(setup.config.tasks, s.collected)|
  {
    hide Step, Missing;
    StepCollects(setup, s, a);
    if a.SetVar? && Accepts(setup, s, a.name, a.value).Some? {
      AcceptedCallFills(setup, s, a.name, a.value);
      var slot := (Accepts(setup, s, a.name, a.value).value.task.id, a.name);
      var before := Missing(setup.config.tasks, s.collected);
      if slot !in before { assert before - {slot} == before; }
    }
  }

  /** Every fresh capture takes exactly one slot. */
  lemma {:induction false} CapturesCounted(setup: Setup, s: Session, actions: seq<Action>)
    ensures FreshCaptures(setup, s, actions) + |Missing(setup.config.tasks, Run(setup, s, actions).collected)|
            == |Missing(setup.config.tasks, s.collected)|
  {
    hide Step, Missing, FillsSlot;
    if actions != [] {
      var n := |actions| - 1;
      CapturesCounted(setup, s, actions[..n]);
      StepFillsOne(setup, Run(setup, s, actions[..n]), actions[n]);
    }
  }

  lemma {:induction false} CompletionsCounted(setup: Setup, s: Session, actions: seq<Action>)
    ensures |Run(setup, s, actions).completed| == |s.completed| + Completions(setup, s, actions)
  {
    hide Step;
    if actions != [] {
      var n := |actions| - 1;
      var before := Run(setup, s, actions[..n]);
      CompletionsCounted(setup, s, actions[..n]);
      StepCompletes(setup, before, actions[n]);
      if Step(setup, before, actions[n]).completed != before.completed {
        var t :| t in VisibleNow(setup, before) &&
                 Step(setup, before, actions[n]).completed == before.completed + {t.id};
        assert t.id !in before.completed;
      }
    }
  }

  function Ids(tasks: seq<TaskDef>): (ids: set<string>)
    ensures forall t :: t in tasks ==> t.id in ids
    ensures forall id :: id in ids ==> exists t :: t in tasks && t.id == id
    ensures |ids| <= |tasks|
  {
    if tasks == [] then {}
    else
      var n := |tasks| - 1;
      assert tasks == tasks[..n] + [tasks[n]];
      Ids(tasks[..n]) + {tasks[n].id}
  }

  lemma CompletedAmongIds(tasks: seq<TaskDef>, done: set<string>)
    requires forall id :: id in done ==> exists t :: t in tasks && t.id == id
    ensures done <= Ids(tasks) && |done| <= |Ids(tasks)|
  {
    SubsetCount(done, Ids(tasks));
  }

  lemma {:induction false} SubsetCount(a: set<string>, b: set<string>)
    requires a <= b
    ensures |a| <= |b|
  {
    assert b == a + (b - a);
  }

  /** A session is finite in what it can achieve: however long it goes on, at most
      one fresh capture for every slot of the group and one completion for every task. */
  lemma {:induction false} AchievementsBounded(setup: Setup, messages: seq<Message>, actions: seq<Action>)
    requires Loadable(setup, messages)
    ensures FreshCaptures(setup, Load(setup, messages), actions) <= |Missing(setup.config.tasks, map[])|
    ensures Completions(setup, Load(setup, messages), actions) <= |setup.config.tasks|
  {
    hide Step, Missing, FreshCaptures, Completions;
    CapturesCounted(setup, Load(setup, messages), actions);
    CompletionsCounted(setup, Load(setup, messages), actions);
    RunOrdered(setup, messages, actions);
    CompletedAmongIds(setup.config.tasks, After(setup, messages, actions).completed);
  }

  lemma {:induction false} RunSplit(setup: Setup, s: Session, first: seq<Action>, second: seq<Action>)
    ensures Run(setup, s, first + second) == Run(setup, Run(setup, s, first), second)
    decreases |second|
  {
    hide Step;
    if second == [] {
      assert first + second == first;
    } else {
      var n := |second| - 1;
      RunSplit(setup, s, first, second[..n]);
      assert (first + second)[..|first + second| - 1] == first + second[..n];
    }
  }

  predicate OnlyForced(actions: seq<Action>) { forall a :: a in actions ==> a.Complete? }

  lemma {:induction false} FinishFrom(setup: Setup, s: Session) returns (more: seq<Action>)
    requires s.completed <= Ids(setup.config.tasks)
    ensures OnlyForced(more) && |more| + |s.completed| <= |Ids(setup.config.tasks)|
    ensures VisibleNow(setup, Run(setup, s, more)) == []
    decreases Ids(setup.config.tasks) - s.completed
  {
    hide BuildTools, Instructions, Ids;
    var visible := VisibleNow(setup, s);
    SubsetCount(s.completed, Ids(setup.config.tasks));
    more := [];
    if visible != [] {
      var t := visible[0];
      assert t in visible && t.id !in s.completed;
      IdIn(setup.config.tasks, t);
      var next := Step(setup, s, Complete);
      assert next.completed == s.completed + {t.id};
      var rest := FinishFrom(setup, next);
      more := [Complete] + rest;
      RunSplit(setup, s, [Complete], rest);
      assert [Complete][..0] == [] && Run(setup, s, [Complete]) == next;
    }
  }

  lemma IdIn(tasks: seq<TaskDef>, t: TaskDef)
    requires t in tasks
    ensures t.id in Ids(tasks)
  {}

  /** From every reachable session, whatever was or was not captured, at most as many
      forced completions as there are tasks left bring it to an end. */
  lemma {:induction false} CanAlwaysFinish(setup: Setup, messages: seq<Message>, actions: seq<Action>)
    requires Loadable(setup, messages)
    ensures exists more :: OnlyForced(more) &&
              |more| + |After(setup, messages, actions).completed| <= |setup.config.tasks| &&
              VisibleNow(setup, After(setup, messages, actions + more)) == []
  {
    hide Step, Load, Visible;
    RunOrdered(setup, messages, actions);
    CompletedAmongIds(setup.config.tasks, After(setup, messages, actions).completed);
    var more := FinishFrom(setup, After(setup, messages, actions));
    RunSplit(setup, Load(setup, messages), actions, more);
  }

  // ---------- Finishing by conversation ----------

  /** Every declared variable accepts some value. */
  ghost predicate Answerable(setup: Setup) {
    forall t, v :: t in setup.config.tasks && v in t.variables ==> exists value :: v.Validate(setup.compile, value)
  }

  /** Every call is of a set tool that is on offer when the call is made. */
  ghost predicate AllOffered(setup: Setup, messages: seq<Message>, actions: seq<Action>, calls: seq<Action>)
    requires Loadable(setup, messages)
  {
    forall k :: 0 <= k < |calls| ==>
      calls[k].SetVar? && Offered(After(setup, messages, actions + calls[..k]), calls[k].name)
  }

  ghost predicate NothingToCollect(setup: Setup, s: Session) {
    forall t :: t in VisibleNow(setup, s) ==> t.variables == []
  }

  lemma {:induction false} OfferedFirst(
    setup: Setup, messages: seq<Message>, actions: seq<Action>, call: Action, rest: seq<Action>)
    requires Loadable(setup, messages)
    requires call.SetVar? && Offered(After(setup, messages, actions), call.name)
    requires AllOffered(setup, messages, actions + [call], rest)
    ensures AllOffered(setup, messages, actions, [call] + rest)
  {
    hide After, Offered;
    var calls := [call] + rest;
    forall k | 0 <= k < |calls|
      ensures calls[k].SetVar? && Offered(After(setup, messages, actions + calls[..k]), calls[k].name)
    {
      if k == 0 {
        assert actions + calls[..0] == actions;
      } else {
        assert actions + calls[..k] == actions + [call] + rest[..k - 1];
      }
    }
  }

  /** An answer that fills a slot, for any of the tasks that still collect something. */
  lemma {:induction false} NextAnswer(setup: Setup, messages: seq<Message>, actions: seq<Action>) returns (call: Action)
    requires Loadable(setup, messages) && NoClash(setup) && Answerable(setup)
    requires !NothingToCollect(setup, After(setup, messages, actions))
    ensures call.SetVar? && Offered(After(setup, messages, actions), call.name)
    ensures |Missing(setup.config.tasks, After(setup, messages, actions + [call]).collected)|
            == |Missing(setup.config.tasks, After(setup, messages, actions).collected)| - 1
  {
    hide Load, Step, Missing, Offered;
    SomeOfferProgresses(setup, messages, actions);
    var s := After(setup, messages, actions);
    var t, v :| t in VisibleNow(setup, s) && v in t.variables && FillsASlot(setup, s, v);
    assert t in setup.config.tasks;
    var value :| v.Validate(setup.compile, value);
    call := SetVar(v.name, value);
    assert (actions + [call])[..|actions|] == actions;
  }

  /** When every variable accepts some value, the conversation can always be brought to
      where nothing is left to collect, by calls of offered set tools alone and without
      forcing a completion: from every reachable session, with at most one call for
      every missing slot, only tasks without variables stay visible. */
  lemma {:induction false} CanCollectAll(setup: Setup, messages: seq<Message>, actions: seq<Action>)
    returns (calls: seq<Action>)
    requires Loadable(setup, messages) && NoClash(setup) && Answerable(setup)
    ensures AllOffered(setup, messages, actions, calls)
    ensures |calls| <= |Missing(setup.config.tasks, After(setup, messages, actions).collected)|
    ensures NothingToCollect(setup, After(setup, messages, actions + calls))
    decreases |Missing(setup.config.tasks, After(setup, messages, actions).collected)|
  {
    hide After, Missing, NothingToCollect, Answerable;
    calls := [];
    assert actions + [] == actions;
    if !NothingToCollect(setup, After(setup, messages, actions)) {
      var call := NextAnswer(setup, messages, actions);
      var rest := CanCollectAll(setup, messages, actions + [call]);
      OfferedFirst(setup, messages, actions, call, rest);
      calls := [call] + rest;
      assert actions + calls == actions + [call] + rest;
    }
  }
}
