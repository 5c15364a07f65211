/** Captured values are valid, and the session can always move forward. */
module TaskProgress {
  import opened Options
  import opened TaskGroup
  import opened TaskEngine
  import opened TaskTheorems
  import opened TaskDerivedState

  /** The variables of the group that have no value yet, by task and name. */
  function Missing(tasks: seq<TaskDef>, collected: Collected): set<(string, string)> {
    set t, v | t in tasks && v in t.variables && v.name !in Captured(collected, t.id) :: (t.id, v.name)
  }

  ghost predicate StoredValid(setup: Setup, collected: Collected) {
    forall id, x :: id in collected && x in collected[id] ==>
      exists t :: t in setup.config.tasks && t.id == id &&
        var v := FirstNamed(t.variables, x);
        v.Some? && v.value.Validate(setup.compile, collected[id][x])
  }

  /** A task that declares variables and has not completed still lacks one. */
  ghost predicate OpenTasksLack(setup: Setup, s: Session) {
    forall t :: t in setup.config.tasks && t.variables != [] && t.id !in s.completed
      ==> exists v :: v in t.variables && v.name !in Captured(s.collected, t.id)
  }

  /** The task and variable a call is stored for: none unless it is accepted. */
  function Accepts(setup: Setup, s: Session, name: string, value: string): (o: Option<Owned>)
    ensures o.Some? ==> o.value.task in VisibleNow(setup, s)
    ensures o.Some? ==> FirstNamed(o.value.task.variables, name) == Some(o.value.variable)
    ensures o.Some? ==> o.value.variable.Validate(setup.compile, value)
  {
    var o := Owner(VisibleNow(setup, s), name);
    if o.Some? && o.value.variable.Validate(setup.compile, value) then o else None
  }

  lemma AcceptedStep(setup: Setup, s: Session, name: string, value: string)
    requires Accepts(setup, s, name, value).Some?
    ensures var t := Accepts(setup, s, name, value).value.task;
            var s1 := Store(setup, s, t.id, name, value);
            Step(setup, s, SetVar(name, value)) ==
              if AllCollected(t, Captured(s1.collected, t.id)) then CompleteTask(setup, s1, t.id) else s1
  {
  }

  lemma StepCollects(setup: Setup, s: Session, a: Action)
    ensures Step(setup, s, a).collected ==
            if a.SetVar? && Accepts(setup, s, a.name, a.value).Some?
            then Put(s.collected, Accepts(setup, s, a.name, a.value).value.task.id, a.name, a.value)
            else s.collected
  {
    if a.SetVar? && Accepts(setup, s, a.name, a.value).Some? {
      AcceptedStep(setup, s, a.name, a.value);
    }
  }

  lemma FullTaskCompletes(setup: Setup, s: Session, name: string, value: string)
    requires Accepts(setup, s, name, value).Some?
    ensures var t := Accepts(setup, s, name, value).value.task; var s' := Step(setup, s, SetVar(name, value));
            (forall v :: v in t.variables ==> v.name in Captured(s'.collected, t.id)) ==> t.id in s'.completed
  {
    AcceptedStep(setup, s, name, value);
  }

  lemma PutStoresValid(setup: Setup, collected: Collected, t: TaskDef, name: string, value: string)
    requires StoredValid(setup, collected) && t in setup.config.tasks
    requires var v := FirstNamed(t.variables, name); v.Some? && v.value.Validate(setup.compile, value)
    ensures StoredValid(setup, Put(collected, t.id, name, value))
  {
    var got := Put(collected, t.id, name, value);
    forall id, x | id in got && x in got[id] && !(id == t.id && x == name)
      ensures id in collected && x in collected[id] && got[id][x] == collected[id][x]
    {
    }
  }

  lemma StepStoresValid(setup: Setup, s: Session, a: Action)
    requires StoredValid(setup, s.collected)
    ensures StoredValid(setup, Step(setup, s, a).collected)
  {
    StepCollects(setup, s, a);
    if a.SetVar? && Accepts(setup, s, a.name, a.value).Some? {
      PutStoresValid(setup, s.collected, Accepts(setup, s, a.name, a.value).value.task, a.name, a.value);
    }
  }

  lemma StepOpenTasksLack(setup: Setup, s: Session, a: Action)
    requires UniqueIds(setup.config.tasks) && OpenTasksLack(setup, s)
    ensures OpenTasksLack(setup, Step(setup, s, a))
  {
    StepCompletes(setup, s, a);
    StepCollects(setup, s, a);
    var s' := Step(setup, s, a);
    var o := if a.SetVar? then Accepts(setup, s, a.name, a.value) else None;
    forall u | u in setup.config.tasks && u.variables != [] && u.id !in s'.completed
      ensures exists v :: v in u.variables && v.name !in Captured(s'.collected, u.id)
    {
      if o.Some? && u.id == o.value.task.id {
        SameIdSameTask(setup.config.tasks, o.value.task, u);
        FullTaskCompletes(setup, s, a.name, a.value);
      } else {
        assert Captured(s'.collected, u.id) == Captured(s.collected, u.id);
      }
    }
  }

  /** Every reachable session holds only valid values, and every visible task that
      declares variables has one that is still missing. */
  lemma {:induction false} ReachableProgress(setup: Setup, messages: seq<Message>, actions: seq<Action>)
    requires Loadable(setup, messages)
    ensures var s := After(setup, messages, actions); StoredValid(setup, s.collected) && OpenTasksLack(setup, s)
  {
    if actions == [] {
      var none: map<string, string> := map[];
      forall t | t in setup.config.tasks && t.variables != [] ensures exists v :: v in t.variables && v.name !in none {
        assert t.variables[0] in t.variables && t.variables[0].name !in none;
      }
    } else {
      var n := |actions| - 1;
      ReachableProgress(setup, messages, actions[..n]);
      var s := After(setup, messages, actions[..n]);
      StepStoresValid(setup, s, actions[n]);
      StepOpenTasksLack(setup, s, actions[n]);
    }
  }

  ghost predicate Offered(s: Session, name: string) {
    exists tool :: tool in s.tools && tool.toolId == SetToolId(name)
  }

  /** No other tool is named like a set tool. */
  ghost predicate NoClash(setup: Setup) {
    && (forall x :: SetToolId(x) !in setup.registry)
    && (forall t, x :: t in setup.permanent ==> t.toolId != SetToolId(x))
  }

  lemma {:induction false} CountZero(tools: seq<Tool>, id: string)
    requires Count(tools, id) == 0
    ensures forall tool :: tool in tools ==> tool.toolId != id
  {
    if tools != [] {
      CountZero(tools[..|tools| - 1], id);
      assert tools == tools[..|tools| - 1] + [tools[|tools| - 1]];
    }
  }

  /** In every reachable session a set tool is offered if and only if a visible task lacks its variable. */
  lemma OfferedIffLacked(setup: Setup, messages: seq<Message>, actions: seq<Action>, name: string)
    requires Loadable(setup, messages) && NoClash(setup)
    ensures var s := After(setup, messages, actions);
            Offered(s, name) <==> SomeLacks(VisibleNow(setup, s), s.collected, name)
  {
    hide BuildTools;
    var s := After(setup, messages, actions);
    CachesAgree(setup, messages, actions);
    SetToolOfferedOnce(setup, VisibleNow(setup, s), s.collected, name);
    if VisibleNow(setup, s) == [] && s.completed != {} {
      assert s.tools == setup.permanent;
    } else if Offered(s, name) {
      if Count(s.tools, SetToolId(name)) == 0 { CountZero(s.tools, SetToolId(name)); }
    } else {
      CountNone(s.tools, SetToolId(name));
    }
  }

  /** Setting `v` fills a slot: v's set tool is on offer, and every value that v
      accepts shrinks the missing slots by exactly one. */
  ghost predicate FillsASlot(setup: Setup, s: Session, v: TaskVariable) {
    && Offered(s, v.name)
    && forall value :: v.Validate(setup.compile, value) ==>
         var s' := Step(setup, s, SetVar(v.name, value));
         && Missing(setup.config.tasks, s'.collected) < Missing(setup.config.tasks, s.collected)
         && |Missing(setup.config.tasks, s'.collected)| == |Missing(setup.config.tasks, s.collected)| - 1
  }

  lemma PutShrinks(tasks: seq<TaskDef>, collected: Collected, id: string, name: string, value: string)
    ensures Missing(tasks, Put(collected, id, name, value)) == Missing(tasks, collected) - {(id, name)}
  {
    var got := Put(collected, id, name, value);
    forall i, x ensures x in Captured(got, i) <==> x in Captured(collected, i) || (i == id && x == name) {}
  }

  /** An accepted call for `name` takes (owner, name) out of the missing slots. It
      fills no slot exactly when the owner, the first visible task declaring the
      name, already has a value for it: a later task lacking the same name gets nothing. */
  lemma AcceptedCallFills(setup: Setup, s: Session, name: string, value: string)
    requires Accepts(setup, s, name, value).Some?
    ensures var slot := (Accepts(setup, s, name, value).value.task.id, name);
            var s' := Step(setup, s, SetVar(name, value));
            && Missing(setup.config.tasks, s'.collected) == Missing(setup.config.tasks, s.collected) - {slot}
            && (Missing(setup.config.tasks, s'.collected) == Missing(setup.config.tasks, s.collected)
                <==> name in Captured(s.collected, slot.0))
  {
    var o := Accepts(setup, s, name, value).value;
    StepCollects(setup, s, SetVar(name, value));
    PutShrinks(setup.config.tasks, s.collected, o.task.id, name, value);
    assert o.variable in o.task.variables;
    assert (o.task.id, name) in Missing(setup.config.tasks, s.collected) <==> name !in Captured(s.collected, o.task.id);
  }

  /** No action re-opens a slot. */
  lemma MissingNeverGrows(setup: Setup, s: Session, a: Action)
    ensures Missing(setup.config.tasks, Step(setup, s, a).collected) <= Missing(setup.config.tasks, s.collected)
  {
    StepCollects(setup, s, a);
    if a.SetVar? && Accepts(setup, s, a.name, a.value).Some? { AcceptedCallFills(setup, s, a.name, a.value); }
  }

  /** First task, in order, that declares any variable. */
  lemma {:induction false} FirstDeclaring(tasks: seq<TaskDef>) returns (k: nat)
    requires exists t :: t in tasks && t.variables != []
    ensures k < |tasks| && tasks[k].variables != [] && forall i :: 0 <= i < k ==> tasks[i].variables == []
  {
    if tasks[0].variables != [] {
      k := 0;
    } else {
      assert tasks == [tasks[0]] + tasks[1..];
      var j := FirstDeclaring(tasks[1..]);
      k := j + 1;
    }
  }

  lemma {:induction false} OwnerSkips(tasks: seq<TaskDef>, k: nat, name: string)
    requires k < |tasks| && (forall i :: 0 <= i < k ==> tasks[i].variables == [])
    requires FirstNamed(tasks[k].variables, name).Some?
    ensures Owner(tasks, name) == Some(Owned(tasks[k], FirstNamed(tasks[k].variables, name).value))
  {
    if k > 0 { OwnerSkips(tasks[1..], k - 1, name); }
  }

  lemma OwnerLackingFills(setup: Setup, s: Session, o: Owned)
    requires Owner(VisibleNow(setup, s), o.variable.name) == Some(o)
    requires o.variable.name !in Captured(s.collected, o.task.id)
    requires Offered(s, o.variable.name)
    ensures FillsASlot(setup, s, o.variable)
  {
    hide Step, Missing, BuildTools, Visible, TaskVariable.Validate;
    var before := Missing(setup.config.tasks, s.collected);
    forall value | o.variable.Validate(setup.compile, value)
      ensures var after := Missing(setup.config.tasks, Step(setup, s, SetVar(o.variable.name, value)).collected);
              after < before && |after| == |before| - 1
    {
      AcceptedCallFills(setup, s, o.variable.name, value);
    }
  }

  /** Progress: while a visible task declares variables, some set tool on offer
      fills a new slot with any value its variable accepts. This holds even when
      variable names repeat across tasks, where an offered tool may be resolved to
      an earlier task that already has the value. */
  lemma SomeOfferProgresses(setup: Setup, messages: seq<Message>, actions: seq<Action>)
    requires Loadable(setup, messages) && NoClash(setup)
    requires exists t :: t in VisibleNow(setup, After(setup, messages, actions)) && t.variables != []
    ensures var s := After(setup, messages, actions);
            exists t, v :: t in VisibleNow(setup, s) && v in t.variables && FillsASlot(setup, s, v)
  {
    var s := After(setup, messages, actions);
    var visible := VisibleNow(setup, s);
    var k := FirstDeclaring(visible);
    var t := visible[k];
    assert t in visible;
    ReachableProgress(setup, messages, actions);
    var u :| u in t.variables && u.name !in Captured(s.collected, t.id);
    var v := FirstNamed(t.variables, u.name).value;
    OwnerSkips(visible, k, u.name);
    assert Lacks(t.variables, Captured(s.collected, t.id), u.name);
    OfferedIffLacked(setup, messages, actions, u.name);
    OwnerLackingFills(setup, s, Owned(t, v));
    assert FillsASlot(setup, s, v);
  }

  /** A task without variables is only ever completed by a forced completion. */
  lemma DialogueNeverAutoCompletes(setup: Setup, s: Session, name: string, value: string, t: TaskDef)
    requires UniqueIds(setup.config.tasks) && t in setup.config.tasks
    requires t.variables == [] && t.id !in s.completed
    ensures t.id !in Step(setup, s, SetVar(name, value)).completed
  {
    hide BuildTools, Instructions, UpdateInstruction;
    var o := Accepts(setup, s, name, value);
    if o.Some? {
      AcceptedStep(setup, s, name, value);
      assert o.value.variable in o.value.task.variables;
      if o.value.task.id == t.id { SameIdSameTask(setup.config.tasks, o.value.task, t); }
    }
  }

  // ---------- What is accepted ----------

  /** A value meets all that a variable declares: one of the choices if there are any;
      else the pattern if there is one that compiles; else something, unless the
      pattern is malformed. */
  ghost predicate Meets(v: TaskVariable, compile: Regexp, value: string) {
    && (v.choices != [] ==> exists k :: 0 <= k < |v.choices| && v.choices[k] == value)
    && (v.choices == [] && v.regex != "" && compile(v.regex).Some? ==> compile(v.regex).value(value))
    && (v.choices == [] && v.regex == "" ==> |value| > 0)
  }

  lemma ValidMeansMeets(v: TaskVariable, compile: Regexp, value: string)
    ensures v.Validate(compile, value) <==> Meets(v, compile, value)
  {}

  /** In every reachable session every stored value meets what its variable, the first
      of its name in its task, declares. */
  lemma StoredValuesMeet(setup: Setup, messages: seq<Message>, actions: seq<Action>, id: string, x: string)
    requires Loadable(setup, messages)
    requires var c := After(setup, messages, actions).collected; id in c && x in c[id]
    ensures var value := After(setup, messages, actions).collected[id][x];
            exists t, j: nat :: t in setup.config.tasks && t.id == id && j < |t.variables| && t.variables[j].name == x
              && (forall i :: 0 <= i < j ==> t.variables[i].name != x) && Meets(t.variables[j], setup.compile, value)
  {
    hide Load, Step, Meets, TaskVariable.Validate;
    ReachableProgress(setup, messages, actions);
    var c := After(setup, messages, actions).collected;
    var t :| t in setup.config.tasks && t.id == id && FirstNamed(t.variables, x).Some? &&
             FirstNamed(t.variables, x).value.Validate(setup.compile, c[id][x]);
    var j := FirstNamedAt(t.variables, x);
    ValidMeansMeets(t.variables[j], setup.compile, c[id][x]);
  }

  /** A call is accepted if and only if a visible task declares the name and the value
      meets what the first such declaration of the first such task says. */
  lemma AcceptedIfMeets(setup: Setup, s: Session, name: string, value: string)
    ensures Accepts(setup, s, name, value).Some? <==>
            exists k, j, o ::
              DeclaredFirst(VisibleNow(setup, s), name, k, j, o) && Meets(o.variable, setup.compile, value)
  {
    hide Meets, Visible, TaskVariable.Validate;
    var visible := VisibleNow(setup, s);
    var owner := Owner(visible, name);
    if owner.Some? {
      var k, j := OwnerIsFirst(visible, name);
      ValidMeansMeets(owner.value.variable, setup.compile, value);
      forall k': nat, j': nat, o' | DeclaredFirst(visible, name, k', j', o') ensures o' == owner.value {
        OneFirst(visible, name, k, j, owner.value, k', j', o');
      }
    } else {
      forall k: nat, j: nat, o ensures !DeclaredFirst(visible, name, k, j, o) {
        if k < |visible| && j < |visible[k].variables| {
          assert visible[k] in visible && visible[k].variables[j] in visible[k].variables;
        }
      }
    }
  }

  lemma OneFirst(tasks: seq<TaskDef>, name: string, k: nat, j: nat, o: Owned, k': nat, j': nat, o': Owned)
    requires DeclaredFirst(tasks, name, k, j, o) && DeclaredFirst(tasks, name, k', j', o')
    ensures o == o'
  {
    assert tasks[k].variables[j] in tasks[k].variables && tasks[k'].variables[j'] in tasks[k'].variables;
    assert k == k';
  }

  // ---------- What a call reports ----------

  /** The task a call was stored for holds the value, and nothing else changed hands. */
  ghost predicate StoredFor(setup: Setup, s: Session, s': Session, t: TaskDef, name: string, value: string) {
    && t in VisibleNow(setup, s)
    && Captured(s'.collected, t.id) == Captured(s.collected, t.id)[name := value]
    && forall id :: id != t.id ==> Captured(s'.collected, id) == Captured(s.collected, id)
  }

  ghost predicate Undeclared(tasks: seq<TaskDef>, name: string) {
    forall t, v :: t in tasks && v in t.variables ==> v.name != name
  }

  ghost predicate Refused(setup: Setup, s: Session, name: string, value: string) {
    exists t, v :: t in VisibleNow(setup, s) && v in t.variables && v.name == name && !v.Validate(setup.compile, value)
  }

  ghost predicate Finished(setup: Setup, s: Session, s': Session, name: string, value: string, taskName: string) {
    exists t :: StoredFor(setup, s, s', t, name, value) && taskName == t.name &&
                s'.completed == s.completed + {t.id} &&
                forall v :: v in t.variables ==> v.name in Captured(s'.collected, t.id)
  }

  ghost predicate Continues(
    setup: Setup, s: Session, s': Session, name: string, value: string, taskName: string, pending: seq<string>)
  {
    && s'.completed == s.completed
    && exists t :: StoredFor(setup, s, s', t, name, value) && taskName == t.name && ExactlyMissing(t, s', pending)
  }

  ghost predicate ExactlyMissing(t: TaskDef, s: Session, names: seq<string>) {
    forall x :: x in names <==> x !in Captured(s.collected, t.id) && exists v :: v in t.variables && v.name == x
  }

  /** The result of a call tells what happened: a refusal means nothing changed, and
      why; a completion means exactly the owner completed, with nothing missing; and
      "still needs" lists exactly what is missing, never nothing. */
  lemma ResultIsTrue(setup: Setup, s: Session, name: string, value: string)
    ensures var (s', r) := SetVariable(setup, s, name, value);
            match r
            case NotLoaded => false
            case NotExpected(x) => x == name && s' == s && Undeclared(VisibleNow(setup, s), name)
            case Invalid(x, y) => x == name && y == value && s' == s && Refused(setup, s, name, value)
            case TaskDone(x, y, taskName) => x == name && y == value && Finished(setup, s, s', name, value, taskName)
            case StillNeeds(x, y, taskName, pending) =>
              x == name && y == value && pending != [] && Continues(setup, s, s', name, value, taskName, pending)
  {
    hide BuildTools, Instructions, UpdateInstruction, Visible, Owner, TaskVariable.Validate;
    var o := Owner(VisibleNow(setup, s), name);
    if o.Some? {
      var Owned(t, v) := o.value;
      if v.Validate(setup.compile, value) {
        var s1 := Store(setup, s, t.id, name, value);
        var got := Captured(s1.collected, t.id);
        assert StoredFor(setup, s, s1, t, name, value);
        if !AllCollected(t, got) {
          var u :| u in t.variables && u.name !in got;
          assert u.name in Pending(t.variables, got);
          assert ExactlyMissing(t, s1, Pending(t.variables, got));
        } else {
          assert StoredFor(setup, s, CompleteTask(setup, s1, t.id), t, name, value);
        }
      } else {
        assert t in VisibleNow(setup, s) && v in t.variables && v.name == name;
      }
    }
  }
}
