/** The context manager itself: fields updated in place, loops over the task list. */
module DynamicContextManagement {
  import opened Options
  import opened TaskGroup
  import opened TaskEngine

  class LLMContext {
    var messages: seq<Message>
    var tools: seq<Tool>

    constructor (messages: seq<Message>, tools: seq<Tool>)
      ensures this.messages == messages && this.tools == tools
    {
      this.messages := messages;
      this.tools := tools;
    }
  }

  class DynamicContextManager {
    const compile: Regexp
    var config: Option<TaskGroupConfig>
    var permanentTools: seq<Tool>
    var toolRegistry: Registry
    var completedTasks: set<string>
    var collectedVars: Collected
    var taskInstrIndex: nat
    var context: LLMContext?

    ghost predicate Loaded()
      reads this
    {
      config.Some? && context != null
    }

    ghost function Settings(): Setup
      reads this
      requires Loaded()
    {
      Setup(config.value, permanentTools, toolRegistry, taskInstrIndex, compile)
    }

    ghost function Now(): Session
      reads this, context
      requires Loaded()
    {
      Session(completedTasks, collectedVars, context.tools, context.messages)
    }

    constructor (context: LLMContext?, compile: Regexp)
      ensures this.context == context && this.compile == compile && config.None? && toolRegistry == map[]
    {
      this.compile := compile;
      this.context := context;
      config, permanentTools, toolRegistry := None, [], map[];
      completedTasks, collectedVars, taskInstrIndex := {}, map[], 0;
    }

    method RegisterTool(tool: Tool)
      modifies this`toolRegistry
      ensures toolRegistry == old(toolRegistry)[tool.toolId := tool]
    {
      toolRegistry := toolRegistry[tool.toolId := tool];
    }

    method FindTask(tasks: seq<TaskDef>, id: string) returns (found: Option<TaskDef>)
      ensures found.None? <==> forall t :: t in tasks ==> t.id != id
      ensures found.Some? ==> found.value in tasks && found.value.id == id
    {
      for i := 0 to |tasks|
        invariant forall t :: t in tasks[..i] ==> t.id != id
      {
        if tasks[i].id == id { return Some(tasks[i]); }
      }
      return None;
    }

    method VisibleTasks() returns (visible: seq<TaskDef>)
      requires config.Some?
      ensures visible == Visible(config.value.tasks, completedTasks)
    {
      visible := [];
      var tasks := config.value.tasks;
      for i := 0 to |tasks|
        invariant visible == Visible(tasks[..i], completedTasks)
      {
        var task := tasks[i];
        assert tasks[..i + 1][..i] == tasks[..i];
        if task.id in completedTasks { continue; }
        if !Unlocked(task, completedTasks) || Disappeared(task, completedTasks) { continue; }
        visible := visible + [task];
      }
      assert tasks[..|tasks|] == tasks;
    }

    method RebuildTools(tasks: seq<TaskDef>)
      requires Loaded()
      modifies context`tools
      ensures context.tools == BuildTools(Settings(), tasks, collectedVars)
    {
      var ids := config.value.globalTools;
      var tools := permanentTools;
      for i := 0 to |ids|
        invariant tools == permanentTools + GlobalTools(toolRegistry, ids[..i])
      {
        assert ids[..i + 1][..i] == ids[..i];
        if ids[i] in toolRegistry { tools := tools + [toolRegistry[ids[i]]]; }
      }
      assert ids[..|ids|] == ids;
      ghost var base := Listing(tools, {});
      var seen: set<string> := {};
      for i := 0 to |tasks|
        invariant Listing(tools, seen) == AddTasks(toolRegistry, tasks[..i], collectedVars, base)
      {
        assert tasks[..i + 1][..i] == tasks[..i];
        tools, seen := AddTaskTools(tasks[i], tools, seen);
      }
      assert tasks[..|tasks|] == tasks;
      context.tools := tools;
    }

    /** One round of the loop over tasks in RebuildTools. */
    method AddTaskTools(task: TaskDef, tools: seq<Tool>, seen: set<string>)
      returns (tools': seq<Tool>, seen': set<string>)
      ensures Listing(tools', seen') == AddTask(toolRegistry, task, collectedVars, Listing(tools, seen))
    {
      tools', seen' := tools, seen;
      var ids := task.visibleToolIds;
      for i := 0 to |ids|
        invariant Listing(tools', seen') == AddRegistered(toolRegistry, ids[..i], Listing(tools, seen))
      {
        assert ids[..i + 1][..i] == ids[..i];
        if ids[i] !in seen' && ids[i] in toolRegistry {
          tools' := tools' + [toolRegistry[ids[i]]];
          seen' := seen' + {ids[i]};
        }
      }
      assert ids[..|ids|] == ids;
      ghost var mid := Listing(tools', seen');
      var collected := Captured(collectedVars, task.id);
      var vars := task.variables;
      for i := 0 to |vars|
        invariant Listing(tools', seen') == AddSetTools(vars[..i], collected, mid)
      {
        assert vars[..i + 1][..i] == vars[..i];
        if vars[i].name in collected { continue; }
        if SetToolId(vars[i].name) !in seen' {
          tools' := tools' + [MakeSetTool(vars[i])];
          seen' := seen' + {SetToolId(vars[i].name)};
        }
      }
      assert vars[..|vars|] == vars;
    }

    method UpdateTaskInstruction(text: Instruction)
      requires Loaded()
      modifies context`messages
      ensures context.messages == UpdateInstruction(Settings(), old(context.messages), text)
    {
      if taskInstrIndex >= |context.messages| { return; }
      var m := context.messages[taskInstrIndex];
      context.messages := context.messages[taskInstrIndex := m.(body := Prompt(text))];
    }

    method ClearDynamicTools()
      requires Loaded()
      modifies context`tools
      ensures context.tools == permanentTools
    {
      context.tools := permanentTools;
    }

    method AllVarsCollected(task: TaskDef) returns (all: bool)
      ensures all <==> AllCollected(task, Captured(collectedVars, task.id))
    {
      var collected := Captured(collectedVars, task.id);
      for i := 0 to |task.variables|
        invariant forall v :: v in task.variables[..i] ==> v.name in collected
      {
        if task.variables[i].name !in collected { return false; }
      }
      return true;
    }

    /** Directly after the leading run of system messages. */
    method InsertionPoint(messages: seq<Message>) returns (insertIdx: nat)
      ensures insertIdx == LeadingSystem(messages)
    {
      insertIdx := 0;
      for i := 0 to |messages|
        invariant insertIdx == i && LeadingSystem(messages) == i + LeadingSystem(messages[i..])
      {
        if messages[i].role != System { break; }
        insertIdx := i + 1;
        assert messages[i..][1..] == messages[i + 1..];
      }
    }

    /** Installs a task group. An unknown initial task is an error that changes nothing. */
    method LoadTaskGroup(config: TaskGroupConfig) returns (ok: bool)
      modifies this, context
      ensures ok <==> InitialKnown(config)
      ensures !ok ==> unchanged(this) && (context != null ==> unchanged(context))
      ensures ok ==> Loaded() && if old(context) != null then context == old(context) else fresh(context)
      ensures ok ==>
        var tools := if old(context) == null then [] else old(context.tools);
        var messages := if old(context) == null then [] else old(context.messages);
        Settings() == SetupFor(config, tools, messages, old(toolRegistry), compile) &&
        Now() == Load(Settings(), messages)
    {
      hide BuildTools, Visible, LeadingSystem, Instructions;
      var initial := FindTask(config.tasks, config.initialTaskId);
      if initial.None? { return false; }
      this.config := Some(config);
      completedTasks := {};
      collectedVars := map[];
      if context == null { context := new LLMContext([], []); }
      permanentTools := context.tools;

      var messages := context.messages;
      var insertIdx := InsertionPoint(messages);
      var visible := VisibleTasks();
      var taskMsg := Message(System, Prompt(Instructions(visible)));
      context.messages := messages[..insertIdx] + [taskMsg] + messages[insertIdx..];
      taskInstrIndex := insertIdx;
      RebuildTools(visible);
      return true;
    }

    method OnTaskComplete(taskId: string)
      requires Loaded()
      modifies this`completedTasks, context
      ensures Now() == CompleteTask(Settings(), old(Now()), taskId)
    {
      completedTasks := completedTasks + {taskId};
      var nextVisible := VisibleTasks();
      if |nextVisible| == 0 {
        UpdateTaskInstruction(WrapUp);
        ClearDynamicTools();
        return;
      }
      UpdateTaskInstruction(Instructions(nextVisible));
      RebuildTools(nextVisible);
    }

    method FindOwner(visible: seq<TaskDef>, varName: string) returns (owned: Option<Owned>)
      ensures owned == Owner(visible, varName)
    {
      for i := 0 to |visible|
        invariant Owner(visible, varName) == Owner(visible[i..], varName)
      {
        var vars := visible[i].variables;
        for j := 0 to |vars|
          invariant FirstNamed(vars, varName) == FirstNamed(vars[j..], varName)
        {
          if vars[j].name == varName { return Some(Owned(visible[i], vars[j])); }
          assert vars[j..][1..] == vars[j + 1..];
        }
        assert visible[i..][1..] == visible[i + 1..];
      }
      return None;
    }

    method PendingNames(task: TaskDef) returns (pending: seq<string>)
      ensures pending == Pending(task.variables, Captured(collectedVars, task.id))
    {
      var collected := Captured(collectedVars, task.id);
      pending := [];
      var vars := task.variables;
      for i := 0 to |vars|
        invariant pending == Pending(vars[..i], collected)
      {
        assert vars[..i + 1][..i] == vars[..i];
        if vars[i].name !in collected { pending := pending + [vars[i].name]; }
      }
      assert vars[..|vars|] == vars;
    }

    /** Records a captured value and takes its set tool off the list. */
    method StoreValue(taskId: string, varName: string, value: string)
      requires Loaded()
      modifies this`collectedVars, context`tools
      ensures Now() == Store(Settings(), old(Now()), taskId, varName, value)
    {
      if taskId !in collectedVars { collectedVars := collectedVars[taskId := map[]]; }
      collectedVars := collectedVars[taskId := collectedVars[taskId][varName := value]];
      assert collectedVars == Put(old(collectedVars), taskId, varName, value);
      var visible := VisibleTasks();
      RebuildTools(visible);
    }

    /** Handles a call of set_<varName>. */
    method HandleSetVariable(varName: string, value: string) returns (result: SetResult)
      requires config.Some? ==> context != null
      modifies this`completedTasks, this`collectedVars, context
      ensures old(config).None? ==> result == NotLoaded && unchanged(this) && (context != null ==> unchanged(context))
      ensures old(config).Some? ==> (Now(), result) == SetVariable(Settings(), old(Now()), varName, value)
    {
      if config.None? { return NotLoaded; }
      var visible := VisibleTasks();
      var owned := FindOwner(visible, varName);
      if owned.None? { return NotExpected(varName); }
      var Owned(ownerTask, varDef) := owned.value;
      if !varDef.Validate(compile, value) { return Invalid(varName, value); }

      var taskId := ownerTask.id;
      StoreValue(taskId, varName, value);
      var all := AllVarsCollected(ownerTask);
      if all {
        OnTaskComplete(taskId);
        return TaskDone(varName, value, ownerTask.name);
      }
      var pending := PendingNames(ownerTask);
      return StillNeeds(varName, value, ownerTask.name, pending);
    }

    method CompleteCurrentTask()
      requires Loaded()
      modifies this`completedTasks, context
      ensures Now() == CompleteCurrent(Settings(), old(Now()))
    {
      var visible := VisibleTasks();
      if |visible| == 0 { return; }
      OnTaskComplete(visible[0].id);
    }

    method CurrentTaskId() returns (id: string)
      requires Loaded()
      ensures var visible := Visible(config.value.tasks, completedTasks);
              id == if visible == [] then "" else visible[0].id
    {
      var visible := VisibleTasks();
      if |visible| == 0 { return ""; }
      return visible[0].id;
    }

    method IsComplete() returns (complete: bool)
      ensures complete <==> config.Some? && forall t :: t in config.value.tasks ==> !InScope(t, completedTasks)
    {
      if config.None? { return false; }
      var visible := VisibleTasks();
      assert forall t :: t in visible <==> t in config.value.tasks && InScope(t, completedTasks);
      if |visible| != 0 { assert visible[0] in visible; }
      return |visible| == 0;
    }
  }
}
