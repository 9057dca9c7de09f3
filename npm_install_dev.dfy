/** The `[npm-install-dev]` directive: install a development dependency with npm. */
module NpmInstallDevTask {
  import opened Wrappers
  import opened JsStrings
  import opened Tasks
  import opened LineScan
  import NpmInstallTask

  const NPM_INSTALL_DEV_CMD := "[npm-install-dev]"

  /** The instruction handed to the agent. */
  const NPM_INSTALL_DEV_INST := InstLead + NPM_INSTALL_DEV_CMD + InstRest
  const InstLead := "At any time you can ask to install a development npm module: write "
  const InstRest := " <name>. Make sure you start with a new line."

  const MISFORMED := "Misformed task"

  const IsExposedToAi := true
  const IsLoop := false

  /** The tasks `extract` returns for `text`. */
  function Extracted(text: string): seq<Task> {
    Scanned(SplitLines(text), NPM_INSTALL_DEV_CMD, |NPM_INSTALL_DEV_CMD|)
  }

  /** `NPM_INSTALL_DEV_PACKAGE.extract`: one single-argument task per line that mentions the marker. */
  method Extract(text: string) returns (out: seq<Task>)
    ensures out == Extracted(text)
    ensures |out| == |MarkedLines(SplitLines(text), NPM_INSTALL_DEV_CMD)|
    ensures forall k :: 0 <= k < |out| ==>
      out[k] == Task(NPM_INSTALL_DEV_CMD,
                     [ArgAfter(MarkedLines(SplitLines(text), NPM_INSTALL_DEV_CMD)[k], NPM_INSTALL_DEV_CMD, |NPM_INSTALL_DEV_CMD|)])
  {
    out := ScanMarkedLines(text, NPM_INSTALL_DEV_CMD, |NPM_INSTALL_DEV_CMD|);
    ScannedIsMarkedLines(SplitLines(text), NPM_INSTALL_DEV_CMD, |NPM_INSTALL_DEV_CMD|);
  }

  /** The command the install runs, in the project directory. */
  function InstallDevCommand(ctx: TaskContext, name: string): Command {
    Command(PathJoin([ctx.rootPath, ctx.dirName]), "npm", ["install", name, "--save-dev"])
  }

  /**
    `NPM_INSTALL_DEV_PACKAGE.run`: an empty or missing name is refused and no
    command runs; otherwise `npm install <name> --save-dev` runs once and the
    task reports success, the exit code not being consulted.
   */
  function Run(ctx: TaskContext, task: Task, files: FileMap): (r: RunOutcome)
    ensures r.Resolved? && r.files == files
    ensures r.result.success <==> Arg(task.args, 0) != ""
    ensures !r.result.success ==> r.result.messageToAgent == Some(MISFORMED) && r.commands == []
    ensures r.result.success ==>
      r.result.messageToAgent == None && r.commands == [InstallDevCommand(ctx, task.args[0])]
  {
    var name := Arg(task.args, 0);
    if name == "" then
      Resolved(TaskResult(false, Some(MISFORMED)), files, [])
    else
      Resolved(TaskResult(true, None), files, [InstallDevCommand(ctx, name)])
  }

  /** The fixed text in front of a title's argument. */
  const TitleLead := "Installing dev package "

  /** `NPM_INSTALL_DEV_PACKAGE.title`: the fixed lead, then the task's first argument as written. */
  function Title(task: Task): (r: string)
    ensures StartsWith(r, TitleLead) && r[|TitleLead|..] == ArgText(task.args, 0)
  {
    TitleLead + ArgText(task.args, 0)
  }

  /** Names written one per line as the instruction asks come back as dev-install tasks, in order. */
  lemma {:induction false} RoundTrip(names: seq<string>)
    requires |names| >= 1
    requires forall k :: 0 <= k < |names| ==> IsTrimmed(names[k]) && '\n' !in names[k]
    ensures Extracted(JoinLines(SpacedLines(NPM_INSTALL_DEV_CMD, names))) == TasksFor(NPM_INSTALL_DEV_CMD, names)
  {
    DirectiveLinesRoundTrip(NPM_INSTALL_DEV_CMD, names);
  }

  /**
    The plain install marker is not a substring of the dev marker line, so a
    dev-install line whose name does not itself mention the plain marker
    yields no plain install task.
   */
  lemma DevLineIsNotInstallLine(name: string)
    requires '\n' !in name && !Contains(name, NpmInstallTask.NPM_INSTALL_CMD)
    ensures NpmInstallTask.Extracted(NPM_INSTALL_DEV_CMD + " " + name) == []
  {
    var m := NpmInstallTask.NPM_INSTALL_CMD;
    var d := NPM_INSTALL_DEV_CMD + " ";
    var line := d + name;
    assert |d| == 18;
    forall j | OccursAt(line, m, j) ensures false {
      if j < |d| {
        NotInDevPrefix(name, j);
      } else {
        assert name[j - |d|..j - |d| + |m|] == line[j..j + |m|];
        OccursThenContains(name, m, j - |d|);
      }
    }
    assert !Contains(line, m);
    assert '\n' !in line;
    SplitJoin([line], '\n');
    assert SplitLines(line) == [line];
    assert [line][..0] == [];
  }

  /** No occurrence of the plain marker starts inside the dev marker and its space. */
  lemma NotInDevPrefix(name: string, j: int)
    requires 0 <= j < |NPM_INSTALL_DEV_CMD| + 1
    ensures !OccursAt(NPM_INSTALL_DEV_CMD + " " + name, NpmInstallTask.NPM_INSTALL_CMD, j)
  {
    var d := NPM_INSTALL_DEV_CMD + " ";
    var line := d + name;
    assert line[j] == d[j];
    if j == 0 {
      assert line[12] == d[12] == '-';
    } else {
      assert d[j] != '[';
    }
  }
}
