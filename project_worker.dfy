/**
  The oldest generation: one `parseTasks` that turns the agent's reply into
  package installs and file updates, their titles, and the `ProjectWorker`
  that applies updates and creates the project directory.
 */
module ProjectWorkers {
  import opened Wrappers
  import opened JsStrings
  import opened Tasks
  import opened FencedScan
  import LineScan

  /** A task of this generation: a whole-file update or a package install. */
  datatype WorkerTask =
    | UpdateFile(path: string, content: string)
    | InstallPackage(name: string)

  /** `name.endsWith(".") ? name.slice(0, -1) : name`: at most one final full stop goes. */
  function DropFinalDot(name: string): (r: string)
    ensures EndsWith(name, ".") ==> r + "." == name
    ensures !EndsWith(name, ".") ==> r == name
  {
    if EndsWith(name, ".") then name[..|name| - 1] else name
  }

  /** The install name on a line: the field after the first colon, trimmed, without a final full stop. */
  function InstallName(line: string): (r: string)
    ensures ':' !in line ==> r == ""
    ensures ':' !in r
    ensures r == [] || !IsWhitespace(r[0])
  {
    SplitHasSecondField(line, ':');
    SplitFieldsLackSeparator(line, ':');
    var fields := Split(line, ':');
    if |fields| > 1 then DropFinalDot(Trim(fields[1])) else ""
  }

  /** A line the install pass reads but that has no field after a colon: `split(":")[1]` is undefined. */
  predicate ThrowsOnInstall(line: string) {
    Contains(line, INSTALL_PACKAGE) && ':' !in line
  }

  /** Likewise for the update pass, which reads the field of every line that starts with its marker. */
  predicate ThrowsOnUpdate(line: string) {
    StartsWith(line, UPDATE_FILE) && ':' !in line
  }

  /** The install tasks the first pass pushes over `lines`, in line order. */
  function Installs(lines: seq<string>): (r: seq<WorkerTask>)
    ensures |r| <= |lines|
    ensures forall k :: 0 <= k < |r| ==> r[k].InstallPackage?
    decreases |lines|
  {
    if lines == [] then []
    else
      var last := lines[|lines| - 1];
      Installs(lines[..|lines| - 1]) + (if Contains(last, INSTALL_PACKAGE) then [InstallPackage(InstallName(last))] else [])
  }

  /**
    The install pass against the plain filter of the lines that mention
    `INSTALL_PACKAGE`: the k-th install is named after the k-th such line.
   */
  lemma {:induction false} InstallsAreMarkedLines(lines: seq<string>)
    ensures |Installs(lines)| == |LineScan.MarkedLines(lines, INSTALL_PACKAGE)|
    ensures forall k :: 0 <= k < |Installs(lines)| ==>
      Installs(lines)[k] == InstallPackage(InstallName(LineScan.MarkedLines(lines, INSTALL_PACKAGE)[k]))
    decreases |lines|
  {
    if lines != [] {
      InstallsAreMarkedLines(lines[..|lines| - 1]);
    }
  }

  /** The blocks of the second pass as update tasks. */
  function Updates(blocks: seq<Block>): (r: seq<WorkerTask>)
    ensures |r| == |blocks|
    ensures forall k :: 0 <= k < |r| ==> r[k] == UpdateFile(blocks[k].path, blocks[k].body)
    decreases |blocks|
  {
    if blocks == [] then [] else [UpdateFile(blocks[0].path, blocks[0].body)] + Updates(blocks[1..])
  }

  /**
    What `parseTasks` does with `message`: it throws (`None`) when a line
    trips either pass; otherwise every install, in line order, comes before
    every update, in line order.
   */
  function Parsed(message: string): Option<seq<WorkerTask>> {
    var lines := SplitLines(message);
    if exists k :: 0 <= k < |lines| && (ThrowsOnInstall(lines[k]) || ThrowsOnUpdate(lines[k])) then None
    else Some(Installs(lines) + Updates(Scan(ColonField, UPDATE_FILE, lines, Idle)))
  }

  /** `parseTasks`: an install pass over all lines, then the fenced update scan. */
  method ParseTasks(message: string) returns (r: Option<seq<WorkerTask>>)
    ensures r == Parsed(message)
  {
    var lines := SplitLines(message);
    var installs := InstallPass(lines);
    if installs.None? {
      return None;
    }
    var updates := UpdatePass(lines);
    if updates.None? {
      return None;
    }
    r := Some(installs.value + updates.value);
  }

  /** The first pass: every line that mentions the install marker pushes an install. */
  method InstallPass(lines: seq<string>) returns (r: Option<seq<WorkerTask>>)
    ensures r == if exists k :: 0 <= k < |lines| && ThrowsOnInstall(lines[k]) then None else Some(Installs(lines))
  {
    var out: seq<WorkerTask> := [];
    for i := 0 to |lines|
      invariant out == Installs(lines[..i])
      invariant forall k :: 0 <= k < i ==> !ThrowsOnInstall(lines[k])
    {
      var line := lines[i];
      if Contains(line, INSTALL_PACKAGE) {
        var fields := Split(line, ':');
        if |fields| < 2 {
          assert ThrowsOnInstall(lines[i]) by { SplitHasSecondField(line, ':'); }
          return None;
        }
        var name := DropFinalDot(Trim(fields[1]));
        out := out + [InstallPackage(name)];
        assert !ThrowsOnInstall(lines[i]) by { SplitHasSecondField(line, ':'); }
      }
      assert out == Installs(lines[..i + 1]) by { InstallsStep(lines, i); }
    }
    assert lines[..|lines|] == lines;
    r := Some(out);
  }

  /** The second pass: the fenced scan, reading the path between the first two colons. */
  method UpdatePass(lines: seq<string>) returns (r: Option<seq<WorkerTask>>)
    ensures r.None? <==> exists k :: 0 <= k < |lines| && ThrowsOnUpdate(lines[k])
    ensures r.Some? ==> r.value == Updates(Scan(ColonField, UPDATE_FILE, lines, Idle))
  {
    var out: seq<WorkerTask> := [];
    var isInTask, path, inCode, code := false, "", false, "";
    assert lines[0..] == lines;
    for i := 0 to |lines|
      invariant out + Updates(Scan(ColonField, UPDATE_FILE, lines[i..], ScanState(isInTask, path, inCode, code)))
             == Updates(Scan(ColonField, UPDATE_FILE, lines, Idle))
      invariant forall k :: 0 <= k < i ==> !ThrowsOnUpdate(lines[k])
    {
      ghost var before := out;
      ghost var st := ScanState(isInTask, path, inCode, code);
      ghost var next := Step(ColonField, UPDATE_FILE, st, lines[i]);
      ScanUnfold(ColonField, UPDATE_FILE, lines, i, st);
      UpdatesStep(before, next.1, Scan(ColonField, UPDATE_FILE, lines[i + 1..], next.0));
      var line := lines[i];
      if StartsWith(line, UPDATE_FILE) {
        var fields := Split(line, ':');
        SplitHasSecondField(line, ':');
        if |fields| < 2 {
          assert ThrowsOnUpdate(lines[i]);
          return None;
        }
        assert next == (st.(isInTask := true, path := Trim(fields[1])), []);
        isInTask := true;
        path := Trim(fields[1]);
      } else if isInTask {
        if inCode {
          if StartsWith(line, Fence) {
            assert next == (Idle, [Block(path, code)]);
            assert Updates(next.1) == [UpdateFile(path, code)];
            out := out + [UpdateFile(path, code)];
            code := "";
            inCode := false;
            isInTask := false;
            path := "";
          } else {
            assert next == (st.(code := code + line + "\n"), []);
            code := code + line + "\n";
          }
        } else {
          if StartsWith(line, Fence) {
            inCode := true;
          }
        }
      }
      assert ScanState(isInTask, path, inCode, code) == next.0;
      assert out == before + Updates(next.1);
    }
    assert lines[|lines|..] == [];
    r := Some(out);
  }

  lemma InstallsStep(lines: seq<string>, i: nat)
    requires i < |lines|
    ensures Installs(lines[..i + 1]) == Installs(lines[..i])
      + (if Contains(lines[i], INSTALL_PACKAGE) then [InstallPackage(InstallName(lines[i]))] else [])
  {
    assert lines[..i + 1][..i] == lines[..i];
  }

  lemma {:induction false} UpdatesAppend(a: seq<Block>, b: seq<Block>)
    ensures Updates(a + b) == Updates(a) + Updates(b)
    decreases |a|
  {
    if a == [] {
      assert a + b == b;
    } else {
      assert (a + b)[1..] == a[1..] + b;
      UpdatesAppend(a[1..], b);
    }
  }

  lemma UpdatesStep(before: seq<WorkerTask>, emitted: seq<Block>, tail: seq<Block>)
    ensures (before + Updates(emitted)) + Updates(tail) == before + Updates(emitted + tail)
  {
    UpdatesAppend(emitted, tail);
  }

  /**
    Installs come first: once an update appears in the parsed list, everything
    after it is an update, however the directives interleave in the text.
   */
  lemma {:induction false} InstallsBeforeUpdates(message: string)
    requires Parsed(message).Some?
    ensures var ts := Parsed(message).value;
      forall i, j :: 0 <= i < j < |ts| && ts[i].UpdateFile? ==> ts[j].UpdateFile?
  {
    var lines := SplitLines(message);
    InstallsThenUpdates(Installs(lines), Updates(Scan(ColonField, UPDATE_FILE, lines, Idle)));
  }

  lemma InstallsThenUpdates(ins: seq<WorkerTask>, ups: seq<WorkerTask>)
    requires forall k :: 0 <= k < |ins| ==> ins[k].InstallPackage?
    requires forall k :: 0 <= k < |ups| ==> ups[k].UpdateFile?
    ensures forall i, j :: 0 <= i < j < |ins + ups| && (ins + ups)[i].UpdateFile? ==> (ins + ups)[j].UpdateFile?
  {
    var ts := ins + ups;
    forall i, j | 0 <= i < j < |ts| && ts[i].UpdateFile? ensures ts[j].UpdateFile? {
      assert ts[j] == ups[j - |ins|];
    }
  }

  /** `INSTALL_PACKAGE: <name>`, with or without a final full stop, gives the name back. */
  lemma InstallNameRoundTrip(name: string, stop: bool)
    requires name != [] && IsTrimmed(name) && ':' !in name && !EndsWith(name, ".")
    ensures InstallName(INSTALL_PACKAGE + ": " + name + (if stop then "." else "")) == name
  {
    var tail := " " + name + (if stop then "." else "");
    var line := INSTALL_PACKAGE + ": " + name + (if stop then "." else "");
    assert line == Join([INSTALL_PACKAGE, tail], ':');
    assert ':' !in tail;
    SplitJoin([INSTALL_PACKAGE, tail], ':');
    var kept := name + (if stop then "." else "");
    assert kept[0] == name[0];
    assert kept[|kept| - 1] == if stop then '.' else name[|name| - 1];
    assert tail == [' '] + kept + [];
    TrimPadded([' '], kept, []);
    if stop {
      assert EndsWith(kept, ".");
      assert kept[..|kept| - 1] == name;
    }
  }

  /** The update path is the trimmed field after the colon of `UPDATE_FILE: <path>`. */
  lemma ColonPath(path: string)
    requires IsTrimmed(path) && ':' !in path
    ensures PathOf(ColonField, UPDATE_FILE, UPDATE_FILE + ": " + path) == path
  {
    var line := UPDATE_FILE + ": " + path;
    assert line == Join([UPDATE_FILE, " " + path], ':');
    assert ':' !in " " + path;
    SplitJoin([UPDATE_FILE, " " + path], ':');
    assert " " + path == [' '] + path + [];
    TrimPadded([' '], path, []);
  }

  /** The current spelling, marker and path without a colon, makes this generation's parser throw. */
  lemma SpellingWithoutColonThrows(path: string)
    requires ':' !in path && '\n' !in path
    ensures Parsed(UPDATE_FILE + " " + path) == None
  {
    var line := UPDATE_FILE + " " + path;
    assert line == UPDATE_FILE + (" " + path);
    assert line[..|UPDATE_FILE|] == UPDATE_FILE;
    SplitJoin([line], '\n');
    assert SplitLines(line)[0] == line;
    assert ThrowsOnUpdate(SplitLines(line)[0]);
  }

  /**
    The install pass reads every line, those inside an update's code block
    included: an install line in a file body is both installed and written
    into the file.
   */
  lemma {:induction false} InstallInsideCodeBlock(path: string, name: string)
    requires IsTrimmed(path) && ':' !in path && '\n' !in path && !Contains(path, INSTALL_PACKAGE)
    requires name != [] && IsTrimmed(name) && ':' !in name && '\n' !in name && !EndsWith(name, ".")
    ensures var installLine := INSTALL_PACKAGE + ": " + name;
      Parsed(JoinLines([UPDATE_FILE + ": " + path, Fence, installLine, Fence]))
        == Some([InstallPackage(name), UpdateFile(path, installLine + "\n")])
  {
    var markerLine := UPDATE_FILE + ": " + path;
    var installLine := INSTALL_PACKAGE + ": " + name;
    var lines := [markerLine, Fence, installLine, Fence];
    CodeBlockLines(path, name);
    assert SplitLines(JoinLines(lines)) == lines;
    CodeBlockUpdates(path, name);
    CodeBlockInstalls(path, name);
    CodeBlockNoThrow(path, name);
    assert !exists k :: 0 <= k < |lines| && (ThrowsOnInstall(lines[k]) || ThrowsOnUpdate(lines[k]));
    assert Updates([Block(path, installLine + "\n")]) == [UpdateFile(path, installLine + "\n")];
    assert Parsed(JoinLines(lines)) == Some(Installs(lines) + Updates(Scan(ColonField, UPDATE_FILE, lines, Idle)));
    assert [InstallPackage(name)] + [UpdateFile(path, installLine + "\n")]
        == [InstallPackage(name), UpdateFile(path, installLine + "\n")];
  }

  lemma CodeBlockLines(path: string, name: string)
    requires '\n' !in path && '\n' !in name
    ensures var lines := [UPDATE_FILE + ": " + path, Fence, INSTALL_PACKAGE + ": " + name, Fence];
      SplitLines(JoinLines(lines)) == lines
  {
    var lines := [UPDATE_FILE + ": " + path, Fence, INSTALL_PACKAGE + ": " + name, Fence];
    assert lines[0] == UPDATE_FILE + (": " + path);
    assert lines[2] == INSTALL_PACKAGE + (": " + name);
    forall k | 0 <= k < |lines| ensures '\n' !in lines[k] {
    }
    SplitJoin(lines, '\n');
  }

  lemma CodeBlockUpdates(path: string, name: string)
    requires IsTrimmed(path) && ':' !in path && '\n' !in path && '\n' !in name
    ensures var installLine := INSTALL_PACKAGE + ": " + name;
      Scan(ColonField, UPDATE_FILE, [UPDATE_FILE + ": " + path, Fence, installLine, Fence], Idle)
        == [Block(path, installLine + "\n")]
  {
    var markerLine := UPDATE_FILE + ": " + path;
    var installLine := INSTALL_PACKAGE + ": " + name;
    assert markerLine == UPDATE_FILE + (": " + path);
    assert installLine == INSTALL_PACKAGE + (": " + name);
    assert StartsWith(markerLine, UPDATE_FILE) by {
      assert markerLine[..|UPDATE_FILE|] == UPDATE_FILE;
    }
    assert !StartsWith(installLine, UPDATE_FILE) by {
      assert installLine[0] == 'I';
    }
    assert !StartsWith(installLine, Fence) by {
      assert installLine[0] == 'I';
    }
    var lines := [markerLine, Fence] + [installLine] + [Fence];
    calc {
      Scan(ColonField, UPDATE_FILE, [markerLine, Fence, installLine, Fence], Idle);
      { assert lines == [markerLine, Fence, installLine, Fence];
        CodeBlockLines(path, name); }
      Scan(ColonField, UPDATE_FILE, SplitLines(JoinLines(lines)), Idle);
      { DirectiveRoundTrip(ColonField, UPDATE_FILE, markerLine, [installLine]); }
      [Block(PathOf(ColonField, UPDATE_FILE, markerLine), Terminated([installLine]))];
      { ColonPath(path);
        assert Terminated([installLine]) == installLine + "\n"; }
      [Block(path, installLine + "\n")];
    }
  }

  lemma CodeBlockInstalls(path: string, name: string)
    requires !Contains(path, INSTALL_PACKAGE)
    requires name != [] && IsTrimmed(name) && ':' !in name && !EndsWith(name, ".")
    ensures Installs([UPDATE_FILE + ": " + path, Fence, INSTALL_PACKAGE + ": " + name, Fence]) == [InstallPackage(name)]
  {
    var installLine := INSTALL_PACKAGE + ": " + name;
    var lines := [UPDATE_FILE + ": " + path, Fence, installLine, Fence];
    assert installLine == INSTALL_PACKAGE + (": " + name);
    LeadingOccurrence(INSTALL_PACKAGE, ": " + name);
    NotInMarkerLine(path);
    NotInFence();
    InstallNameRoundTrip(name, false);
    assert installLine + (if false then "." else "") == installLine;
    assert lines[..3] == [UPDATE_FILE + ": " + path, Fence, installLine];
    assert lines[..3][..2] == lines[..2];
    assert lines[..2][..1] == lines[..1];
    assert lines[..1][..0] == [];
    assert Installs(lines[..1]) == [];
    assert Installs(lines[..2]) == [];
    assert Installs(lines[..3]) == [InstallPackage(name)];
  }

  lemma CodeBlockNoThrow(path: string, name: string)
    ensures var lines := [UPDATE_FILE + ": " + path, Fence, INSTALL_PACKAGE + ": " + name, Fence];
      forall k :: 0 <= k < |lines| ==> !ThrowsOnInstall(lines[k]) && !ThrowsOnUpdate(lines[k])
  {
    var markerLine := UPDATE_FILE + ": " + path;
    var installLine := INSTALL_PACKAGE + ": " + name;
    assert markerLine[|UPDATE_FILE|] == ':';
    assert installLine[|INSTALL_PACKAGE|] == ':';
    NotInFence();
  }

  lemma NotInMarkerLine(path: string)
    requires !Contains(path, INSTALL_PACKAGE)
    ensures !Contains(UPDATE_FILE + ": " + path, INSTALL_PACKAGE)
  {
    var d := UPDATE_FILE + ": ";
    forall j | 0 <= j < |d| ensures !OccursAt(d + path, INSTALL_PACKAGE, j) {
      NotInColonPrefix(path, j);
    }
    NotContainedAfterPrefix(d, path, INSTALL_PACKAGE);
  }

  lemma NotInColonPrefix(path: string, j: int)
    requires 0 <= j < |UPDATE_FILE| + 2
    ensures !OccursAt(UPDATE_FILE + ": " + path, INSTALL_PACKAGE, j)
  {
    var d := UPDATE_FILE + ": ";
    var line := d + path;
    assert d == ['U', 'P', 'D', 'A', 'T', 'E', '_', 'F', 'I', 'L', 'E', ':', ' '];
    if j + |INSTALL_PACKAGE| <= |line| {
      var w := line[j..j + |INSTALL_PACKAGE|];
      assert w[0] == line[j] == d[j];
      if j == 8 {
        assert w[1] == line[9] == d[9];
        assert w[1] != INSTALL_PACKAGE[1];
      } else {
        assert w[0] != INSTALL_PACKAGE[0];
      }
    }
  }

  lemma NotInFence()
    ensures !Contains(Fence, INSTALL_PACKAGE)
  {
  }

  /** The fixed texts in front of a title's name or path. */
  const InstallTitle := "Installing package "
  const UpdateTitle := "Updating file "

  /** `taskTitle`: the kind's fixed lead, then the package name or the file path. */
  function TaskTitle(task: WorkerTask): (r: string)
    ensures task.InstallPackage? ==> StartsWith(r, InstallTitle) && r[|InstallTitle|..] == task.name
    ensures task.UpdateFile? ==> StartsWith(r, UpdateTitle) && r[|UpdateTitle|..] == task.path
  {
    match task
    case InstallPackage(name) => InstallTitle + name
    case UpdateFile(path, _) => UpdateTitle + path
  }

  /** The title tells installs from updates and gives back the name or the path. */
  lemma TitleDeterminesTarget(t1: WorkerTask, t2: WorkerTask)
    requires TaskTitle(t1) == TaskTitle(t2)
    ensures t1.InstallPackage? <==> t2.InstallPackage?
    ensures t1.InstallPackage? ==> t1.name == t2.name
    ensures t1.UpdateFile? ==> t1.path == t2.path
  {
    var s := TaskTitle(t1);
    assert s[0] == TaskTitle(t1)[0] == TaskTitle(t2)[0];
    match t1
    case InstallPackage(n1) =>
      var h := InstallTitle;
      if t2.InstallPackage? {
        assert n1 == (h + n1)[|h|..];
        assert t2.name == (h + t2.name)[|h|..];
      }
    case UpdateFile(p1, _) =>
      var h := UpdateTitle;
      if t2.UpdateFile? {
        assert p1 == (h + p1)[|h|..];
        assert t2.path == (h + t2.path)[|h|..];
      }
  }

  const VITE_REACT_TS := "vite:react-ts"

  /** How a promise settles: with a value or with a rejection. */
  datatype Settled = Resolves(value: string) | Rejects(reason: string)

  /** What `createProject` reports and what it did: the commands it issued and the files afterwards. */
  datatype CreateOutcome = CreateOutcome(status: Settled, commands: seq<Command>, files: FileMap)

  /**
    The commands `createProject` issues for the default template, in order:
    scaffold the project beside the others, then, inside it, set git's default
    branch, initialise, stage, commit, and install the dependencies.
   */
  function ScaffoldPlan(rootPath: string, dirName: string): (plan: seq<Command>)
    ensures |plan| == 6 && plan[0].cwd == rootPath && dirName in plan[0].args
    ensures forall i :: 1 <= i < |plan| ==> plan[i].cwd == PathJoin([rootPath, dirName])
  {
    var dir := PathJoin([rootPath, dirName]);
    [ Command(rootPath, "npm", ["create", "vite@latest", dirName, "--", "--template", "react-ts"]),
      Command(dir, "git", ["config", "--global", "init.defaultBranch", "main"]),
      Command(dir, "git", ["init", dir]),
      Command(dir, "git", ["add", "."]),
      Command(dir, "git", ["commit", "-m", "Initial commit"]),
      Command(dir, "npm", ["install"]) ]
  }

  /** The index of the first command that does not exit with code 0, or the length when all do. */
  function FirstFailure(cmds: seq<Command>, exitCode: Command -> Option<int>): (k: nat)
    ensures k <= |cmds|
    ensures forall i :: 0 <= i < k ==> exitCode(cmds[i]) == Some(0)
    ensures k < |cmds| ==> exitCode(cmds[k]) != Some(0)
    decreases |cmds|
  {
    if cmds == [] then 0
    else if exitCode(cmds[0]) != Some(0) then 0
    else 1 + FirstFailure(cmds[1..], exitCode)
  }

  /**
    The worker for one project directory `rootPath/dirName`. The exit code
    each command ends with is an input (`exitCode`), and the file system is a
    map from paths to contents passed in and out.
   */
  class ProjectWorker {
    var rootPath: string
    var dirName: string
    var port: int
    /** The development server last started, if any. */
    var serverProcess: Option<Command>

    constructor(rootPath: string, dirName: string, port: int)
      ensures this.rootPath == rootPath && this.dirName == dirName && this.port == port
      ensures serverProcess == None
    {
      this.rootPath := rootPath;
      this.dirName := dirName;
      this.port := port;
      serverProcess := None;
    }

    function Dir(): string
      reads this
    {
      PathJoin([rootPath, dirName])
    }

    /**
      `runTask`: an update replaces the whole file under the project
      directory; an install is only logged as an unknown task type.
     */
    method RunTask(task: WorkerTask, files: FileMap) returns (after: FileMap)
      ensures task.UpdateFile? ==> after == files[PathJoin([rootPath, dirName, task.path]) := task.content]
      ensures task.InstallPackage? ==> after == files
    {
      if task.UpdateFile? {
        var filePath := PathJoin([rootPath, dirName, task.path]);
        after := files[filePath := task.content];
      } else {
        after := files;
      }
    }

    /** `startServer`: the development server runs in the project directory; any earlier one is left running. */
    method StartServer()
      modifies this`serverProcess
      ensures serverProcess == Some(Command(Dir(), "npm", ["run", "dev"]))
    {
      var dir := PathJoin([rootPath, dirName]);
      serverProcess := Some(Command(dir, "npm", ["run", "dev"]));
    }

    /**
      `createProject`: an existing directory is reported at once, with no
      command and no write; an unknown template likewise. Otherwise the plan's
      commands run in order until one fails, which rejects the promise (the
      command runner rejects on a non-zero exit). The default stylesheet is
      emptied once the scaffold command has succeeded, and `OK` is reported
      when every command succeeds.
     */
    method CreateProject(template: string, dirExists: bool, exitCode: Command -> Option<int>, files: FileMap)
      returns (r: CreateOutcome)
      ensures dirExists ==> r == CreateOutcome(Resolves("EXISTS"), [], files)
      ensures !dirExists && template != VITE_REACT_TS ==> r == CreateOutcome(Resolves("UNKNOWN_TEMPLATE"), [], files)
      ensures !dirExists && template == VITE_REACT_TS ==>
        var plan := ScaffoldPlan(rootPath, dirName);
        var k := FirstFailure(plan, exitCode);
        r.commands == plan[..if k < |plan| then k + 1 else |plan|] &&
        r.files == (if k == 0 then files else files[Dir() + "/src/index.css" := ""]) &&
        r.status == (if k < |plan| then Rejects("Command failed with code " + CodeText(exitCode(plan[k]))) else Resolves("OK"))
    {
      var dir := PathJoin([rootPath, dirName]);
      if dirExists {
        return CreateOutcome(Resolves("EXISTS"), [], files);
      }
      if template != VITE_REACT_TS {
        return CreateOutcome(Resolves("UNKNOWN_TEMPLATE"), [], files);
      }
      var plan := ScaffoldPlan(rootPath, dirName);
      ghost var k := FirstFailure(plan, exitCode);
      FirstFailureSteps(plan, exitCode);
      var failed := HelpersRunCmd(exitCode(plan[0]));
      if failed.Some? {
        assert k == 0;
        return CreateOutcome(Rejects(failed.value), [plan[0]], files);
      }
      var written := files[dir + "/src/index.css" := ""];
      var rest, restFailed := RunInOrder(plan[1..], exitCode);
      assert k == 1 + FirstFailure(plan[1..], exitCode);
      assert plan == [plan[0]] + plan[1..];
      if restFailed.Some? {
        assert [plan[0]] + rest == plan[..k + 1];
        return CreateOutcome(Rejects(restFailed.value), [plan[0]] + rest, written);
      }
      return CreateOutcome(Resolves("OK"), [plan[0]] + rest, written);
    }
  }

  /**
    The five commands that follow the scaffold, awaited one after the other:
    the run stops at the first that does not exit with code 0, whose
    rejection it reports.
   */
  method RunInOrder(cmds: seq<Command>, exitCode: Command -> Option<int>) returns (issued: seq<Command>, failed: Option<string>)
    requires |cmds| == 5
    ensures var k := FirstFailure(cmds, exitCode);
      issued == cmds[..if k < |cmds| then k + 1 else |cmds|] &&
      failed == (if k < |cmds| then Some("Command failed with code " + CodeText(exitCode(cmds[k]))) else None)
  {
    ghost var k := FirstFailure(cmds, exitCode);
    FirstFailureSteps(cmds, exitCode);
    issued := [cmds[0]];
    failed := HelpersRunCmd(exitCode(cmds[0]));
    if failed.Some? {
      assert k == 0 && issued == cmds[..1];
      return;
    }
    issued := issued + [cmds[1]];
    failed := HelpersRunCmd(exitCode(cmds[1]));
    if failed.Some? {
      assert k == 1 && issued == cmds[..2];
      return;
    }
    issued := issued + [cmds[2]];
    failed := HelpersRunCmd(exitCode(cmds[2]));
    if failed.Some? {
      assert k == 2 && issued == cmds[..3];
      return;
    }
    issued := issued + [cmds[3]];
    failed := HelpersRunCmd(exitCode(cmds[3]));
    if failed.Some? {
      assert k == 3 && issued == cmds[..4];
      return;
    }
    issued := issued + [cmds[4]];
    failed := HelpersRunCmd(exitCode(cmds[4]));
    assert k == 4 ==> failed.Some?;
    assert issued == cmds[..5];
  }

  /** `FirstFailure` is the first index whose command fails, so it is below every failing index. */
  lemma FirstFailureSteps(cmds: seq<Command>, exitCode: Command -> Option<int>)
    ensures forall i :: 0 <= i < |cmds| && exitCode(cmds[i]) != Some(0) ==> FirstFailure(cmds, exitCode) <= i
  {
  }
}
