/** Data of a task group, and the validation of captured values. */
module TaskGroup {
  import opened Options

  /** Compiles a pattern: None when it is malformed, otherwise its matcher. */
  type Regexp = string -> Option<string -> bool>

  datatype TaskVariable = TaskVariable(
    name: string, description: string, regex: string, choices: seq<string>, example: string)
  {
    predicate Validate(compile: Regexp, value: string) {
      if choices != [] then
        value in choices
      else if regex != "" then
        match compile(regex)
        case None => true  // a malformed pattern accepts anything
        case Some(matches) => matches(value)
      else
        value != ""
    }
  }

  /** The empty string in `visibleAfter` or `disappearAfter` means "no such task". */
  datatype TaskDef = TaskDef(
    id: string, name: string, instructions: string, variables: seq<TaskVariable>,
    disappearAfter: string, visibleToolIds: seq<string>, visibleAfter: string)

  datatype TaskGroupConfig = TaskGroupConfig(
    initialTaskId: string, globalTools: seq<string>, tasks: seq<TaskDef>)

  /** What loading a group demands of its initial task. */
  predicate InitialKnown(config: TaskGroupConfig) {
    exists t :: t in config.tasks && t.id == config.initialTaskId
  }

  predicate UniqueIds(tasks: seq<TaskDef>) {
    forall i, j :: 0 <= i < j < |tasks| ==> tasks[i].id != tasks[j].id
  }
}
