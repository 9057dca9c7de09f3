/** The `[update-file]` directive: write a whole file given after the marker line in a fenced block. */
module UpdateFileTask {
  import opened Wrappers
  import opened JsStrings
  import opened Tasks
  import LineScan
  import opened FencedScan

  const UPDATE_FILE_CMD := "[update-file]"

  /** The instruction handed to the agent. */
  const UPDATE_FILE_INST := InstLead + UPDATE_FILE_CMD + InstRest
  const InstLead := "At any time you can ask to update a specific file. Write "
  const InstRest := " <path_of_the_file_to_update>, followed by code. Make sure you start with a new line. "
    + "Make sure to provide the full file contents including the parts that are not changed."

  const MISFORMED := "Misformed task: missing the file path or content"

  const IsExposedToAi := true
  const IsLoop := false

  /** The tasks `extract` returns for `text`. */
  function Extracted(text: string): (r: seq<Task>)
    ensures forall k :: 0 <= k < |r| ==> r[k].kind == UPDATE_FILE_CMD && |r[k].args| == 2
  {
    var blocks := Scan(AfterMarker, UPDATE_FILE_CMD, SplitLines(text), Idle);
    AsTasksShape(UPDATE_FILE_CMD, blocks);
    AsTasks(UPDATE_FILE_CMD, blocks)
  }

  /** `UPDATE_FILE.extract`: every task is an update with two arguments, the path and the body. */
  method Extract(text: string) returns (out: seq<Task>)
    ensures out == Extracted(text)
  {
    out := ExtractBlocks(text, UPDATE_FILE_CMD);
  }

  /**
    `UPDATE_FILE.run`: a missing or empty path or content is refused with a
    message and nothing is written; otherwise the whole file at the path under
    the root is replaced by the content.
   */
  function Run(ctx: TaskContext, task: Task, files: FileMap): (r: RunOutcome)
    ensures r.Resolved? && r.commands == []
    ensures r.result.success <==> Arg(task.args, 0) != "" && Arg(task.args, 1) != ""
    ensures !r.result.success ==> r.result.messageToAgent == Some(MISFORMED) && r.files == files
    ensures r.result.success ==>
      r.result.messageToAgent == None &&
      r.files == files[PathJoin([ctx.rootPath, task.args[0]]) := task.args[1]]
  {
    var p, content := Arg(task.args, 0), Arg(task.args, 1);
    if p == "" || content == "" then
      Resolved(TaskResult(false, Some(MISFORMED)), files, [])
    else
      Resolved(TaskResult(true, None), files[PathJoin([ctx.rootPath, p]) := content], [])
  }

  /** The fixed text in front of a title's argument. */
  const TitleLead := "Updating file "

  /** `UPDATE_FILE.title`: the fixed lead, then the task's first argument as written. */
  function Title(task: Task): (r: string)
    ensures StartsWith(r, TitleLead) && r[|TitleLead|..] == ArgText(task.args, 0)
  {
    TitleLead + ArgText(task.args, 0)
  }

  /**
    A directive written as the instruction asks (the marker and the path on
    one line, then the file between two fence lines) is extracted as exactly
    one update task carrying that path and the file, each line newline-terminated.
   */
  lemma {:induction false} RoundTrip(path: string, fileLines: seq<string>)
    requires IsTrimmed(path) && '\n' !in path
    requires forall k :: 0 <= k < |fileLines| ==> '\n' !in fileLines[k] && Plain(UPDATE_FILE_CMD, fileLines[k])
    ensures Extracted(JoinLines([UPDATE_FILE_CMD + " " + path, Fence] + fileLines + [Fence]))
         == [Task(UPDATE_FILE_CMD, [path, Terminated(fileLines)])]
  {
    var markerLine := UPDATE_FILE_CMD + " " + path;
    assert markerLine == UPDATE_FILE_CMD + (" " + path);
    assert StartsWith(markerLine, UPDATE_FILE_CMD) by {
      assert markerLine[..|UPDATE_FILE_CMD|] == UPDATE_FILE_CMD;
    }
    DirectiveRoundTrip(AfterMarker, UPDATE_FILE_CMD, markerLine, fileLines);
    LineScan.ArgAfterSpacedMarker(UPDATE_FILE_CMD, path);
  }

  /** A task with an empty body is always refused, whatever the path. */
  lemma EmptyBodyRefused(ctx: TaskContext, path: string, files: FileMap)
    ensures Run(ctx, Task(UPDATE_FILE_CMD, [path, ""]), files)
         == Resolved(TaskResult(false, Some(MISFORMED)), files, [])
  {
  }
}
