/** Variable names that several tasks of a group share. */
module TaskNames {
  import opened Options
  import opened TaskGroup
  import opened TaskEngine
  import opened TaskTheorems
  import opened TaskDerivedState
  import opened TaskProgress

  predicate Declares(t: TaskDef, name: string) { exists v :: v in t.variables && v.name == name }

  lemma {:induction false} VisibleDistinct(tasks: seq<TaskDef>, done: set<string>, i: nat, j: nat)
    requires UniqueIds(tasks) && i < j < |Visible(tasks, done)|
    ensures Visible(tasks, done)[i].id != Visible(tasks, done)[j].id
  {
    var at := VisibleInOrder(tasks, done);
    assert at[i] < at[j];
  }

  /** Where in the visible tasks the owner stands. */
  lemma {:induction false} OwnerAt(setup: Setup, s: Session, name: string) returns (k: nat)
    requires Owner(VisibleNow(setup, s), name).Some?
    ensures var visible := VisibleNow(setup, s);
            && k < |visible| && visible[k] == Owner(visible, name).value.task && Declares(visible[k], name)
            && forall i :: 0 <= i < k ==> !Declares(visible[i], name)
  {
    var j;
    k, j := OwnerIsFirst(VisibleNow(setup, s), name);
  }

  lemma AcceptedIsOwner(setup: Setup, s: Session, name: string, value: string)
    requires Accepts(setup, s, name, value).Some?
    ensures Accepts(setup, s, name, value) == Owner(VisibleNow(setup, s), name)
  {
  }

  /** An accepted call reaches a visible task that lacks the variable if and only if no
      earlier visible task declares the name. */
  lemma CallReaches(setup: Setup, s: Session, k: nat, name: string, value: string)
    requires UniqueIds(setup.config.tasks) && k < |VisibleNow(setup, s)| && Accepts(setup, s, name, value).Some?
    requires Lacks(VisibleNow(setup, s)[k].variables, Captured(s.collected, VisibleNow(setup, s)[k].id), name)
    ensures var visible := VisibleNow(setup, s);
            name in Captured(Step(setup, s, SetVar(name, value)).collected, visible[k].id)
            <==> forall i :: 0 <= i < k ==> !Declares(visible[i], name)
  {
    hide BuildTools, Step, Visible, Accepts, Owner, InScope;
    var visible := VisibleNow(setup, s);
    StepCollects(setup, s, SetVar(name, value));
    AcceptedIsOwner(setup, s, name, value);
    var p := OwnerAt(setup, s, name);
    assert Declares(visible[k], name) && p <= k;
    if p < k { VisibleDistinct(setup.config.tasks, s.completed, p, k); }
  }

  /** In every reachable session a set tool is offered for every visible task that lacks
      the variable, and an accepted call of it reaches that task if and only if no
      earlier visible task declares the name. */
  lemma OfferReachesItsTask(
    setup: Setup, messages: seq<Message>, actions: seq<Action>, k: nat, name: string, value: string)
    requires Loadable(setup, messages) && NoClash(setup)
    requires k < |VisibleNow(setup, After(setup, messages, actions))|
    requires var s := After(setup, messages, actions); var t := VisibleNow(setup, s)[k];
             Lacks(t.variables, Captured(s.collected, t.id), name) && Accepts(setup, s, name, value).Some?
    ensures var s := After(setup, messages, actions); var visible := VisibleNow(setup, s);
            && Offered(s, name)
            && (name in Captured(Step(setup, s, SetVar(name, value)).collected, visible[k].id)
                <==> forall i :: 0 <= i < k ==> !Declares(visible[i], name))
  {
    hide BuildTools, Step, Visible, Accepts, After;
    var s := After(setup, messages, actions);
    var visible := VisibleNow(setup, s);
    assert visible[k] in visible && SomeLacks(visible, s.collected, name);
    OfferedIffLacked(setup, messages, actions, name);
    CallReaches(setup, s, k, name, value);
  }

  /** No two tasks declare the same variable name; a group's author can check this. */
  ghost predicate NamesUnique(tasks: seq<TaskDef>) {
    forall t, u, name :: t in tasks && u in tasks && Declares(t, name) && Declares(u, name) ==> t == u
  }

  /** With unique names every offer serves the task it is made for: in every reachable
      session, whatever a visible task lacks, its set tool is on offer, is resolved to
      that task, and fills a slot with every value its variable accepts. */
  lemma UniqueNamesServe(setup: Setup, messages: seq<Message>, actions: seq<Action>, t: TaskDef, name: string)
    requires Loadable(setup, messages) && NoClash(setup) && NamesUnique(setup.config.tasks)
    requires var s := After(setup, messages, actions);
             t in VisibleNow(setup, s) && Lacks(t.variables, Captured(s.collected, t.id), name)
    ensures var s := After(setup, messages, actions);
            exists v :: v in t.variables && v.name == name &&
              Owner(VisibleNow(setup, s), name) == Some(Owned(t, v)) && FillsASlot(setup, s, v)
  {
    var s := After(setup, messages, actions);
    OfferedIffLacked(setup, messages, actions, name);
    var o := Owner(VisibleNow(setup, s), name).value;
    assert Declares(o.task, name) by { assert o.variable in o.task.variables; }
    assert Declares(t, name);
    OwnerLackingFills(setup, s, o);
  }

  /** Two tasks visible from the start that share a name; the first has another variable too. */
  ghost predicate Sharing(setup: Setup, t: TaskDef, u: TaskDef, x: TaskVariable, y: TaskVariable, z: TaskVariable) {
    && setup.config.tasks == [t, u] && t.visibleAfter == "" && u.visibleAfter == ""
    && t.variables == [x, y] && u.variables == [z] && x.name == z.name != y.name
  }

  lemma BothVisible(setup: Setup, t: TaskDef, u: TaskDef)
    requires setup.config.tasks == [t, u] && t.visibleAfter == "" && u.visibleAfter == ""
    ensures Visible(setup.config.tasks, {}) == [t, u]
  {
    assert [t, u][..1] == [t] && [t][..0] == [];
    assert Visible([t], {}) == [t];
  }

  lemma FirstCapture(
    setup: Setup, s: Session, t: TaskDef, u: TaskDef, x: TaskVariable, y: TaskVariable, z: TaskVariable, value: string)
    requires Sharing(setup, t, u, x, y, z) && x.Validate(setup.compile, value)
    requires s.completed == {} && y.name !in Captured(s.collected, t.id)
    ensures Accepts(setup, s, x.name, value) == Some(Owned(t, x))
    ensures var s' := Step(setup, s, SetVar(x.name, value));
            s'.completed == {} && s'.collected == Put(s.collected, t.id, x.name, value)
  {
    hide BuildTools, Instructions, Visible;
    BothVisible(setup, t, u);
    assert t.variables[0] == x && y in t.variables;
    AcceptedStep(setup, s, x.name, value);
  }

  /** Without unique names an offer can be empty: the first task has its x but still
      lacks y, the second lacks x. The set tool for x is on offer, a repeated call is
      accepted, and no slot is filled. */
  lemma SharedNameFillsNothing(
    setup: Setup, messages: seq<Message>, t: TaskDef, u: TaskDef,
    x: TaskVariable, y: TaskVariable, z: TaskVariable, value: string)
    requires Loadable(setup, messages) && NoClash(setup)
    requires Sharing(setup, t, u, x, y, z) && x.Validate(setup.compile, value)
    ensures var s := After(setup, messages, [SetVar(x.name, value)]);
            && u in VisibleNow(setup, s) && Lacks(u.variables, Captured(s.collected, u.id), x.name)
            && Offered(s, x.name) && Accepts(setup, s, x.name, value).Some?
            && Missing(setup.config.tasks, Step(setup, s, SetVar(x.name, value)).collected)
               == Missing(setup.config.tasks, s.collected)
  {
    hide BuildTools, Instructions, Visible, Step, Accepts;
    var s0, call := Load(setup, messages), SetVar(x.name, value);
    assert [call][..0] == [] && After(setup, messages, []) == s0;
    var s := After(setup, messages, [call]);
    assert s == Step(setup, s0, call);
    BothVisible(setup, t, u);
    FirstCapture(setup, s0, t, u, x, y, z, value);
    FirstCapture(setup, s, t, u, x, y, z, value);
    assert setup.config.tasks[0] == t && setup.config.tasks[1] == u && u.variables[0] == z;
    AcceptedCallFills(setup, s, x.name, value);
    OfferedIffLacked(setup, messages, [call], x.name);
  }
}
