/** The `[npm-install]` directive: install a runtime dependency with npm. */
module NpmInstallTask {
  import opened Wrappers
  import opened JsStrings
  import opened Tasks
  import opened LineScan

  const NPM_INSTALL_CMD := "[npm-install]"

  /** The instruction handed to the agent. */
  const NPM_INSTALL_INST := InstLead + NPM_INSTALL_CMD + InstRest
  const InstLead := "At any time you can ask to install an npm module: write "
  const InstRest := " <name>. Make sure you start with a new line."

  const MISFORMED := "Misformed task: missing the package name"

  const IsExposedToAi := true
  const IsLoop := false

  /** The tasks `extract` returns for `text`. */
  function Extracted(text: string): seq<Task> {
    Scanned(SplitLines(text), NPM_INSTALL_CMD, |NPM_INSTALL_CMD|)
  }

  /** `NPM_INSTALL_PACKAGE.extract`: one single-argument install task per line that mentions the marker. */
  method Extract(text: string) returns (out: seq<Task>)
    ensures out == Extracted(text)
    ensures |out| == |MarkedLines(SplitLines(text), NPM_INSTALL_CMD)|
    ensures forall k :: 0 <= k < |out| ==>
      out[k] == Task(NPM_INSTALL_CMD, [ArgAfter(MarkedLines(SplitLines(text), NPM_INSTALL_CMD)[k], NPM_INSTALL_CMD, |NPM_INSTALL_CMD|)])
  {
    out := ScanMarkedLines(text, NPM_INSTALL_CMD, |NPM_INSTALL_CMD|);
    ScannedIsMarkedLines(SplitLines(text), NPM_INSTALL_CMD, |NPM_INSTALL_CMD|);
  }

  /** The command the install runs, in the project directory. */
  function InstallCommand(ctx: TaskContext, name: string): Command {
    Command(PathJoin([ctx.rootPath, ctx.dirName]), "npm", ["install", name])
  }

  /**
    `NPM_INSTALL_PACKAGE.run`: an empty or missing name is refused and no
    command runs; otherwise `npm install <name>` runs once and the task
    succeeds exactly when it exits with code 0. No message is relayed on that
    path, not even on failure.
   */
  function Run(ctx: TaskContext, task: Task, files: FileMap, proc: ProcResult): (r: RunOutcome)
    ensures r.Resolved? && r.files == files
    ensures Arg(task.args, 0) == "" ==> r.result == TaskResult(false, Some(MISFORMED)) && r.commands == []
    ensures Arg(task.args, 0) != "" ==>
      r.commands == [InstallCommand(ctx, task.args[0])] &&
      (r.result.success <==> proc.code == Some(0)) &&
      r.result.messageToAgent == None
  {
    var name := Arg(task.args, 0);
    if name == "" then
      Resolved(TaskResult(false, Some(MISFORMED)), files, [])
    else
      Resolved(TaskResult(proc.code == Some(0), None), files, [InstallCommand(ctx, name)])
  }

  /** The fixed text in front of a title's argument. */
  const TitleLead := "Installing package "

  /** `NPM_INSTALL_PACKAGE.title`: the fixed lead, then the task's first argument as written. */
  function Title(task: Task): (r: string)
    ensures StartsWith(r, TitleLead) && r[|TitleLead|..] == ArgText(task.args, 0)
  {
    TitleLead + ArgText(task.args, 0)
  }

  /** A line that is the marker and trailing whitespace gives an empty name, which `run` refuses. */
  lemma MarkerEndsLine(ctx: TaskContext, w: string, files: FileMap, proc: ProcResult)
    requires AllWhitespace(w)
    ensures ArgAfter(NPM_INSTALL_CMD + w, NPM_INSTALL_CMD, |NPM_INSTALL_CMD|) == ""
    ensures Run(ctx, Task(NPM_INSTALL_CMD, [ArgAfter(NPM_INSTALL_CMD + w, NPM_INSTALL_CMD, |NPM_INSTALL_CMD|)]), files, proc)
         == Resolved(TaskResult(false, Some(MISFORMED)), files, [])
  {
    ArgAfterLeadingMarker(NPM_INSTALL_CMD, w, 0);
    assert Substring(w, 0) == w + [] + [];
    TrimPadded(w, [], []);
  }

  /** Names written one per line as the instruction asks come back as install tasks, in order. */
  lemma {:induction false} RoundTrip(names: seq<string>)
    requires |names| >= 1
    requires forall k :: 0 <= k < |names| ==> IsTrimmed(names[k]) && '\n' !in names[k]
    ensures Extracted(JoinLines(SpacedLines(NPM_INSTALL_CMD, names))) == TasksFor(NPM_INSTALL_CMD, names)
  {
    DirectiveLinesRoundTrip(NPM_INSTALL_CMD, names);
  }
}
