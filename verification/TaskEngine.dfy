/** The task-group engine on values: which tasks are in scope, what one locked
    operation does, and the tool list and prompt derived from the progress. */
module TaskEngine {
  import opened Options
  import opened TaskGroup

  // ---------- Visibility ----------

  predicate Unlocked(t: TaskDef, done: set<string>) {
    t.visibleAfter == "" || t.visibleAfter in done
  }

  predicate Disappeared(t: TaskDef, done: set<string>) {
    t.disappearAfter != "" && t.disappearAfter in done
  }

  predicate InScope(t: TaskDef, done: set<string>) {
    t.id !in done && Unlocked(t, done) && !Disappeared(t, done)
  }

  /** The tasks in scope, in configuration order. */
  function Visible(tasks: seq<TaskDef>, done: set<string>): (visible: seq<TaskDef>)
    ensures forall t :: t in visible <==> t in tasks && InScope(t, done)
  {
    if tasks == [] then []
    else
      var last := tasks[|tasks| - 1];
      var rest := Visible(tasks[..|tasks| - 1], done);
      assert tasks == tasks[..|tasks| - 1] + [last];
      if InScope(last, done) then rest + [last] else rest
  }

  // ---------- Variables ----------

  type Collected = map<string, map<string, string>>

  function Captured(collected: Collected, id: string): map<string, string> {
    if id in collected then collected[id] else map[]
  }

  function FirstNamed(vars: seq<TaskVariable>, name: string): (v: Option<TaskVariable>)
    ensures v.None? <==> forall u :: u in vars ==> u.name != name
    ensures v.Some? ==> v.value in vars && v.value.name == name
  {
    if vars == [] then None
    else if vars[0].name == name then Some(vars[0])
    else FirstNamed(vars[1..], name)
  }

  datatype Owned = Owned(task: TaskDef, variable: TaskVariable)

  /** The first task that declares the variable, with its first declaration. */
  function Owner(tasks: seq<TaskDef>, name: string): (o: Option<Owned>)
    ensures o.None? <==> forall t :: t in tasks ==> FirstNamed(t.variables, name).None?
    ensures o.Some? ==> o.value.task in tasks && FirstNamed(o.value.task.variables, name) == Some(o.value.variable)
  {
    if tasks == [] then None
    else
      match FirstNamed(tasks[0].variables, name)
      case Some(v) => Some(Owned(tasks[0], v))
      case None => Owner(tasks[1..], name)
  }

  predicate AllCollected(t: TaskDef, got: map<string, string>) {
    forall v :: v in t.variables ==> v.name in got
  }

  /** Names still missing, in declaration order. */
  function Pending(vars: seq<TaskVariable>, got: map<string, string>): (names: seq<string>)
    ensures forall x :: x in names <==> x !in got && exists v :: v in vars && v.name == x
  {
    if vars == [] then []
    else
      var last := vars[|vars| - 1];
      var rest := Pending(vars[..|vars| - 1], got);
      assert vars == vars[..|vars| - 1] + [last];
      if last.name in got then rest else rest + [last.name]
  }

  // ---------- Tool list ----------

  datatype ToolBody = External(key: int) | SetsVariable(variable: TaskVariable)
  datatype Tool = Tool(toolId: string, body: ToolBody)

  type Registry = m: map<string, Tool> | forall id :: id in m ==> m[id].toolId == id

  function SetToolId(name: string): string { "set_" + name }

  function MakeSetTool(v: TaskVariable): Tool { Tool(SetToolId(v.name), SetsVariable(v)) }

  function GlobalTools(registry: Registry, ids: seq<string>): seq<Tool> {
    if ids == [] then []
    else
      var id := ids[|ids| - 1];
      var rest := GlobalTools(registry, ids[..|ids| - 1]);
      if id in registry then rest + [registry[id]] else rest
  }

  datatype Listing = Listing(tools: seq<Tool>, seen: set<string>)

  function AddRegistered(registry: Registry, ids: seq<string>, from: Listing): Listing {
    if ids == [] then from
    else
      var id := ids[|ids| - 1];
      var acc := AddRegistered(registry, ids[..|ids| - 1], from);
      if id !in acc.seen && id in registry
      then Listing(acc.tools + [registry[id]], acc.seen + {id}) else acc
  }

  function AddSetTools(vars: seq<TaskVariable>, got: map<string, string>, from: Listing): Listing {
    if vars == [] then from
    else
      var v := vars[|vars| - 1];
      var acc := AddSetTools(vars[..|vars| - 1], got, from);
      if v.name !in got && SetToolId(v.name) !in acc.seen
      then Listing(acc.tools + [MakeSetTool(v)], acc.seen + {SetToolId(v.name)}) else acc
  }

  function AddTask(registry: Registry, t: TaskDef, collected: Collected, from: Listing): Listing {
    AddSetTools(t.variables, Captured(collected, t.id), AddRegistered(registry, t.visibleToolIds, from))
  }

  function AddTasks(registry: Registry, tasks: seq<TaskDef>, collected: Collected, from: Listing): Listing {
    if tasks == [] then from
    else AddTask(registry, tasks[|tasks| - 1], collected, AddTasks(registry, tasks[..|tasks| - 1], collected, from))
  }

  // ---------- Session ----------

  datatype Role = System | User | Assistant | ToolRole
  datatype Instruction = WrapUp | FocusOn(task: TaskDef) | Topics(tasks: seq<TaskDef>)
  datatype Body = Text(text: string) | Prompt(instruction: Instruction)
  datatype Message = Message(role: Role, body: Body)

  /** What LoadTaskGroup fixes for the rest of the session. */
  datatype Setup = Setup(
    config: TaskGroupConfig, permanent: seq<Tool>, registry: Registry, instrIndex: nat, compile: Regexp)

  datatype Session = Session(
    completed: set<string>, collected: Collected, tools: seq<Tool>, messages: seq<Message>)

  function VisibleNow(setup: Setup, s: Session): seq<TaskDef> {
    Visible(setup.config.tasks, s.completed)
  }

  function Instructions(visible: seq<TaskDef>): Instruction {
    if visible == [] then WrapUp
    else if |visible| == 1 then FocusOn(visible[0])
    else Topics(visible)
  }

  function BuildTools(setup: Setup, visible: seq<TaskDef>, collected: Collected): seq<Tool> {
    var base := setup.permanent + GlobalTools(setup.registry, setup.config.globalTools);
    AddTasks(setup.registry, visible, collected, Listing(base, {})).tools
  }

  function UpdateInstruction(setup: Setup, messages: seq<Message>, text: Instruction): seq<Message> {
    if setup.instrIndex < |messages|
    then messages[setup.instrIndex := messages[setup.instrIndex].(body := Prompt(text))]
    else messages
  }

  /** Length of the leading run of system messages. */
  function LeadingSystem(messages: seq<Message>): (n: nat)
    ensures n <= |messages|
    ensures forall i :: 0 <= i < n ==> messages[i].role == System
    ensures n < |messages| ==> messages[n].role != System
  {
    if messages == [] || messages[0].role != System then 0 else 1 + LeadingSystem(messages[1..])
  }

  function SetupFor(config: TaskGroupConfig, tools: seq<Tool>, messages: seq<Message>,
                    registry: Registry, compile: Regexp): Setup
  {
    Setup(config, tools, registry, LeadingSystem(messages), compile)
  }

  /** LoadTaskGroup on a context that holds `setup.permanent` and `messages`. */
  function Load(setup: Setup, messages: seq<Message>): Session
    requires setup.instrIndex <= |messages|
  {
    var visible := Visible(setup.config.tasks, {});
    var prompt := Message(System, Prompt(Instructions(visible)));
    Session({}, map[], BuildTools(setup, visible, map[]),
            messages[..setup.instrIndex] + [prompt] + messages[setup.instrIndex..])
  }

  function CompleteTask(setup: Setup, s: Session, id: string): Session {
    var done := s.completed + {id};
    var next := Visible(setup.config.tasks, done);
    if next == [] then
      s.(completed := done, messages := UpdateInstruction(setup, s.messages, WrapUp), tools := setup.permanent)
    else
      s.(completed := done, messages := UpdateInstruction(setup, s.messages, Instructions(next)),
         tools := BuildTools(setup, next, s.collected))
  }

  datatype SetResult =
    | NotLoaded
    | NotExpected(name: string)
    | Invalid(name: string, value: string)
    | StillNeeds(name: string, value: string, taskName: string, pending: seq<string>)
    | TaskDone(name: string, value: string, taskName: string)

  function Put(collected: Collected, id: string, name: string, value: string): Collected {
    collected[id := Captured(collected, id)[name := value]]
  }

  function Store(setup: Setup, s: Session, id: string, name: string, value: string): Session {
    var collected := Put(s.collected, id, name, value);
    s.(collected := collected, tools := BuildTools(setup, VisibleNow(setup, s), collected))
  }

  function SetVariable(setup: Setup, s: Session, name: string, value: string): (Session, SetResult) {
    match Owner(VisibleNow(setup, s), name)
    case None => (s, NotExpected(name))
    case Some(Owned(t, v)) =>
      if !v.Validate(setup.compile, value) then (s, Invalid(name, value))
      else
        var s1 := Store(setup, s, t.id, name, value);
        if AllCollected(t, Captured(s1.collected, t.id)) then
          (CompleteTask(setup, s1, t.id), TaskDone(name, value, t.name))
        else
          (s1, StillNeeds(name, value, t.name, Pending(t.variables, Captured(s1.collected, t.id))))
  }

  function CompleteCurrent(setup: Setup, s: Session): Session {
    var visible := VisibleNow(setup, s);
    if visible == [] then s else CompleteTask(setup, s, visible[0].id)
  }

  /** Everything that can happen to a loaded session, one locked operation at a
      time; `Append` is the rest of the pipeline adding a conversation message. */
  datatype Action = SetVar(name: string, value: string) | Complete | Append(message: Message)

  function Step(setup: Setup, s: Session, a: Action): Session {
    match a
    case SetVar(name, value) => SetVariable(setup, s, name, value).0
    case Complete => CompleteCurrent(setup, s)
    case Append(m) => s.(messages := s.messages + [m])
  }

  function Run(setup: Setup, s: Session, actions: seq<Action>): Session {
    if actions == [] then s
    else Step(setup, Run(setup, s, actions[..|actions| - 1]), actions[|actions| - 1])
  }
}
