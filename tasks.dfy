/**
  The values the directive layer passes around: a task extracted from the
  agent's reply, the result a task reports back, the outcome of an external
  command, the command itself and the workspace files a task may write.
 */
module Tasks {
  import opened Wrappers
  import opened JsStrings

  /** A directive found in the agent's text: its type tag and positional arguments. */
  datatype Task = Task(kind: string, args: seq<string>)

  /**
    What running a task reports: whether it succeeded and the message, if any,
    to relay to the agent. One shape for the `[success, message]` tuple and the
    `{ success, messageToAgent }` object the task files return.
   */
  datatype TaskResult = TaskResult(success: bool, messageToAgent: Option<string>)

  /** How an external command ended: its exit code (`None` when the process was killed) and its output. */
  datatype ProcResult = ProcResult(code: Option<int>, stdout: string, stderr: string)

  /** An external command: working directory, program and arguments. */
  datatype Command = Command(cwd: string, program: string, args: seq<string>)

  /** Where a task runs: the workspace root and the project directory under it. */
  datatype TaskContext = TaskContext(rootPath: string, dirName: string)

  /** The bare markers of the two older generations, spelled alike in both. */
  const UPDATE_FILE := "UPDATE_FILE"
  const INSTALL_PACKAGE := "INSTALL_PACKAGE"

  /** The workspace files, by path. */
  type FileMap = map<string, string>

  /**
    How the promise a task's `run` returns settles: resolved with a result,
    the files afterwards and the commands it issued, or rejected.
   */
  datatype RunOutcome =
    | Resolved(result: TaskResult, files: FileMap, commands: seq<Command>)
    | Rejected(reason: string)

  /** `path.join(...parts)`, without normalisation. */
  function PathJoin(parts: seq<string>): string {
    Join(parts, '/')
  }

  /** `args[i]` where only its truthiness matters: a missing argument reads as empty. */
  function Arg(args: seq<string>, i: nat): string {
    if i < |args| then args[i] else ""
  }

  /** `${args[i]}` in a template literal: a missing argument prints as `undefined`. */
  function ArgText(args: seq<string>, i: nat): string {
    if i < |args| then args[i] else "undefined"
  }

  /** `${code}` for an exit code that may be `null`. */
  function CodeText(code: Option<int>): string {
    match code
    case None => "null"
    case Some(c) => IntToString(c)
  }

  /**
    How `runCmd` of the helpers module settles for an exit code: it resolves
    with no value on code 0 (`None`) and rejects otherwise (`Some(reason)`).
   */
  function HelpersRunCmd(code: Option<int>): (rejection: Option<string>)
    ensures rejection == None <==> code == Some(0)
  {
    if code == Some(0) then None else Some("Command failed with code " + CodeText(code))
  }

  /** The rejection raised when the fields of an `undefined` command result are destructured. */
  const DestructureUndefined := "TypeError: Cannot destructure property 'code' of undefined"
}
