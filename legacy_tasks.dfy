/**
  The older generation of directives, from the shared task module of the
  templates: bare-word markers, arguments taken at hard-coded offsets past
  the marker, and `[success, message]` results. The type check of this
  generation is word for word the current one (`TsCheckTask`), and the titles
  and flags are those of the current update and install directives.
 */
module LegacyTasks {
  import opened Wrappers
  import opened JsStrings
  import opened Tasks
  import opened LineScan
  import opened FencedScan

  const INSTALL_DEV_PACKAGE := "INSTALL_DEV_PACKAGE"

  /** The offsets the source adds to the marker's index. */
  const UpdatePathOffset := 11
  const InstallNameOffset := 16
  const InstallDevNameOffset := 20

  const MISFORMED := "Misformed task"

  /** The update path offset is the marker's length, so the path is all that follows the marker. */
  lemma UpdateOffsetIsMarkerLength()
    ensures UpdatePathOffset == |UPDATE_FILE|
    ensures InstallNameOffset == |INSTALL_PACKAGE| + 1 && InstallDevNameOffset == |INSTALL_DEV_PACKAGE| + 1
  {
  }

  /** The update tasks `extract` returns for `text`. */
  function UpdateExtracted(text: string): (r: seq<Task>)
    ensures forall k :: 0 <= k < |r| ==> r[k].kind == UPDATE_FILE && |r[k].args| == 2
  {
    var blocks := Scan(AfterMarker, UPDATE_FILE, SplitLines(text), Idle);
    AsTasksShape(UPDATE_FILE, blocks);
    AsTasks(UPDATE_FILE, blocks)
  }

  /** Older `UPDATE_FILE.extract`: the fenced scan with the bare marker. */
  method UpdateExtract(text: string) returns (out: seq<Task>)
    ensures out == UpdateExtracted(text)
  {
    out := ExtractBlocks(text, UPDATE_FILE);
  }

  /**
    Older `UPDATE_FILE.run`: an empty path or content is refused; otherwise
    the file is written under the project directory, not under the root.
   */
  function UpdateRun(ctx: TaskContext, task: Task, files: FileMap): (r: RunOutcome)
    ensures r.Resolved? && r.commands == []
    ensures r.result.success <==> Arg(task.args, 0) != "" && Arg(task.args, 1) != ""
    ensures !r.result.success ==> r.result.messageToAgent == Some(MISFORMED) && r.files == files
    ensures r.result.success ==>
      r.result.messageToAgent == None &&
      r.files == files[PathJoin([ctx.rootPath, ctx.dirName, task.args[0]]) := task.args[1]]
  {
    var p, content := Arg(task.args, 0), Arg(task.args, 1);
    if p == "" || content == "" then
      Resolved(TaskResult(false, Some(MISFORMED)), files, [])
    else
      Resolved(TaskResult(true, None), files[PathJoin([ctx.rootPath, ctx.dirName, p]) := content], [])
  }

  /**
    The oldest spelling `UPDATE_FILE: <path>` still arms the scanner, but the
    colon is no longer a separator: it stays at the front of the path.
   */
  lemma ColonSpellingKeepsColon(path: string)
    requires path != [] && IsTrimmed(path)
    ensures PathOf(AfterMarker, UPDATE_FILE, UPDATE_FILE + ": " + path) == ": " + path
  {
    var arg := ": " + path;
    calc {
      PathOf(AfterMarker, UPDATE_FILE, UPDATE_FILE + ": " + path);
      ArgAfter(UPDATE_FILE + ": " + path, UPDATE_FILE, |UPDATE_FILE| + 0);
      { assert UPDATE_FILE + ": " + path == UPDATE_FILE + arg; }
      ArgAfter(UPDATE_FILE + arg, UPDATE_FILE, |UPDATE_FILE| + 0);
      { ArgAfterLeadingMarker(UPDATE_FILE, arg, 0); }
      Trim(Substring(arg, 0));
      { assert Substring(arg, 0) == [] + arg + []; }
      Trim([] + arg + []);
      { assert arg[|arg| - 1] == path[|path| - 1];
        TrimPadded([], arg, []); }
      arg;
    }
  }

  /** The install tasks `extract` returns for `text`. */
  function InstallExtracted(text: string): seq<Task> {
    Scanned(SplitLines(text), INSTALL_PACKAGE, InstallNameOffset)
  }

  /** Older `NPM_INSTALL_PACKAGE.extract`: the name is taken one character past the end of the marker. */
  method InstallExtract(text: string) returns (out: seq<Task>)
    ensures out == InstallExtracted(text)
    ensures |out| == |MarkedLines(SplitLines(text), INSTALL_PACKAGE)|
    ensures forall k :: 0 <= k < |out| ==>
      out[k] == Task(INSTALL_PACKAGE, [ArgAfter(MarkedLines(SplitLines(text), INSTALL_PACKAGE)[k], INSTALL_PACKAGE, InstallNameOffset)])
  {
    out := ScanMarkedLines(text, INSTALL_PACKAGE, InstallNameOffset);
    ScannedIsMarkedLines(SplitLines(text), INSTALL_PACKAGE, InstallNameOffset);
  }

  /** The dev-install tasks `extract` returns for `text`. */
  function InstallDevExtracted(text: string): seq<Task> {
    Scanned(SplitLines(text), INSTALL_DEV_PACKAGE, InstallDevNameOffset)
  }

  /** Older `NPM_INSTALL_DEV_PACKAGE.extract`: likewise, one character past the end of its marker. */
  method InstallDevExtract(text: string) returns (out: seq<Task>)
    ensures out == InstallDevExtracted(text)
    ensures |out| == |MarkedLines(SplitLines(text), INSTALL_DEV_PACKAGE)|
    ensures forall k :: 0 <= k < |out| ==>
      out[k] == Task(INSTALL_DEV_PACKAGE,
                     [ArgAfter(MarkedLines(SplitLines(text), INSTALL_DEV_PACKAGE)[k], INSTALL_DEV_PACKAGE, InstallDevNameOffset)])
  {
    out := ScanMarkedLines(text, INSTALL_DEV_PACKAGE, InstallDevNameOffset);
    ScannedIsMarkedLines(SplitLines(text), INSTALL_DEV_PACKAGE, InstallDevNameOffset);
  }

  /**
    Whatever single character follows a leading marker is dropped, separator
    or not: `INSTALL_PACKAGE: react`'s colon goes, `INSTALL_PACKAGEreact`
    loses the `r`. The rest of the line, trimmed, is the name.
   */
  lemma SeparatorDropped(marker: string, c: char, name: string)
    requires IsTrimmed(name)
    ensures ArgAfter(marker + [c] + name, marker, |marker| + 1) == name
  {
    var rest := [c] + name;
    calc {
      ArgAfter(marker + [c] + name, marker, |marker| + 1);
      { assert marker + [c] + name == marker + rest; }
      ArgAfter(marker + rest, marker, |marker| + 1);
      { ArgAfterLeadingMarker(marker, rest, 1); }
      Trim(Substring(rest, 1));
      { assert Substring(rest, 1) == [] + name + []; }
      Trim([] + name + []);
      { TrimPadded([], name, []); }
      name;
    }
  }

  /**
    A line whose first marker ends it, or is followed by one character only,
    gives an empty name, whatever text comes before the marker.
   */
  lemma MarkerEndsLine(pre: string, marker: string, tail: string)
    requires IndexOf(pre + marker + tail, marker) == |pre|
    requires |tail| <= 1
    ensures ArgAfter(pre + marker + tail, marker, |marker| + 1) == ""
  {
    assert Substring(pre + marker + tail, |pre| + |marker| + 1) == [];
  }

  /** The install commands, in the project directory. */
  function InstallCommand(ctx: TaskContext, name: string, dev: bool): Command {
    Command(PathJoin([ctx.rootPath, ctx.dirName]), "npm", if dev then ["install", name, "--save-dev"] else ["install", name])
  }

  /**
    Older install `run`s (plain when `dev` is false, dev otherwise), with a
    command runner that reports its result: an empty name is refused without
    running anything; otherwise the command runs and the result is
    `[true, null]`, the exit code being ignored.
   */
  function InstallRun(ctx: TaskContext, task: Task, files: FileMap, dev: bool): (r: RunOutcome)
    ensures r.Resolved? && r.files == files
    ensures r.result.success <==> Arg(task.args, 0) != ""
    ensures !r.result.success ==> r.result.messageToAgent == Some(MISFORMED) && r.commands == []
    ensures r.result.success ==> r.result.messageToAgent == None && r.commands == [InstallCommand(ctx, task.args[0], dev)]
  {
    var name := Arg(task.args, 0);
    if name == "" then
      Resolved(TaskResult(false, Some(MISFORMED)), files, [])
    else
      Resolved(TaskResult(true, None), files, [InstallCommand(ctx, name, dev)])
  }

  /**
    The install `run`s as written: `runCmd` comes from the helpers module,
    which resolves with no value on exit code 0 and rejects otherwise.
    Destructuring the missing value throws, so every run that gets past the
    name guard rejects, and `[true, null]` is never returned.
   */
  function InstallRunAsWritten(ctx: TaskContext, task: Task, files: FileMap, dev: bool, code: Option<int>): (r: RunOutcome)
    ensures r.Rejected? <==> Arg(task.args, 0) != ""
    ensures r.Resolved? ==> r.result == TaskResult(false, Some(MISFORMED))
  {
    if Arg(task.args, 0) == "" then
      Resolved(TaskResult(false, Some(MISFORMED)), files, [])
    else
      match HelpersRunCmd(code)
      case Some(reason) => Rejected(reason)
      case None => Rejected(DestructureUndefined)
  }

  /** A named install whose command exits 0 succeeds once corrected, and rejects as written. */
  lemma AsWrittenLosesInstall(ctx: TaskContext, name: string, files: FileMap, dev: bool)
    requires name != ""
    ensures InstallRun(ctx, Task(INSTALL_PACKAGE, [name]), files, dev).result == TaskResult(true, None)
    ensures InstallRunAsWritten(ctx, Task(INSTALL_PACKAGE, [name]), files, dev, Some(0)) == Rejected(DestructureUndefined)
  {
  }
}
