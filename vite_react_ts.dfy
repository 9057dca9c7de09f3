/**
  The catalog of the Vite + React + TypeScript template: the briefing given
  to the agent, the directive-to-definition map and the command that starts
  the development server.
 */
module ViteReactTs {
  import opened Wrappers
  import opened JsStrings
  import opened Tasks
  import UpdateFileTask
  import ReadFileTask
  import NpmInstallTask
  import NpmInstallDevTask
  import TsCheckTask

  /** The task definitions of the current generation, one per directive file. */
  datatype TaskDef = UpdateFileDef | ReadFileDef | NpmInstallDef | NpmInstallDevDef | TsCheckTypesDef

  /** `extract` of each definition. */
  function Extract(def: TaskDef, text: string): seq<Task> {
    match def
    case UpdateFileDef => UpdateFileTask.Extracted(text)
    case ReadFileDef => ReadFileTask.Extracted(text)
    case NpmInstallDef => NpmInstallTask.Extracted(text)
    case NpmInstallDevDef => NpmInstallDevTask.Extracted(text)
    case TsCheckTypesDef => TsCheckTask.Extracted(text)
  }

  /** `run` of each definition, with the command's result as an input. */
  function Run(def: TaskDef, ctx: TaskContext, task: Task, files: FileMap, proc: ProcResult): RunOutcome {
    match def
    case UpdateFileDef => UpdateFileTask.Run(ctx, task, files)
    case ReadFileDef => ReadFileTask.Run(ctx, task, files)
    case NpmInstallDef => NpmInstallTask.Run(ctx, task, files, proc)
    case NpmInstallDevDef => NpmInstallDevTask.Run(ctx, task, files)
    case TsCheckTypesDef => TsCheckTask.Run(ctx, task, files, proc)
  }

  /** `title` of each definition. */
  function Title(def: TaskDef, task: Task): string {
    match def
    case UpdateFileDef => UpdateFileTask.Title(task)
    case ReadFileDef => ReadFileTask.Title(task)
    case NpmInstallDef => NpmInstallTask.Title(task)
    case NpmInstallDevDef => NpmInstallDevTask.Title(task)
    case TsCheckTypesDef => TsCheckTask.Title(task)
  }

  /** `isExposedToAi` of each definition: every one but the type check is offered to the agent. */
  function IsExposedToAi(def: TaskDef): (r: bool)
    ensures r <==> def != TsCheckTypesDef
  {
    match def
    case UpdateFileDef => UpdateFileTask.IsExposedToAi
    case ReadFileDef => ReadFileTask.IsExposedToAi
    case NpmInstallDef => NpmInstallTask.IsExposedToAi
    case NpmInstallDevDef => NpmInstallDevTask.IsExposedToAi
    case TsCheckTypesDef => TsCheckTask.IsExposedToAi
  }

  /** `isLoop` of each definition: only the type check is one the server runs itself. */
  function IsLoop(def: TaskDef): (r: bool)
    ensures r <==> def == TsCheckTypesDef
  {
    match def
    case UpdateFileDef => UpdateFileTask.IsLoop
    case ReadFileDef => ReadFileTask.IsLoop
    case NpmInstallDef => NpmInstallTask.IsLoop
    case NpmInstallDevDef => NpmInstallDevTask.IsLoop
    case TsCheckTypesDef => TsCheckTask.IsLoop
  }

  /** `TASK_DEFS`: the two installs and the type check, keyed by their markers. */
  const TaskDefs: map<string, TaskDef> := map[
    NpmInstallTask.NPM_INSTALL_CMD := NpmInstallDef,
    NpmInstallDevTask.NPM_INSTALL_DEV_CMD := NpmInstallDevDef,
    TsCheckTask.TS_CHECK_TYPES_CMD := TsCheckTypesDef
  ]

  /** The catalog has exactly the three keys, and the file directives are not among them. */
  lemma CatalogKeys()
    ensures TaskDefs.Keys == {NpmInstallTask.NPM_INSTALL_CMD, NpmInstallDevTask.NPM_INSTALL_DEV_CMD, TsCheckTask.TS_CHECK_TYPES_CMD}
    ensures UpdateFileTask.UPDATE_FILE_CMD !in TaskDefs && ReadFileTask.READ_FILE_CMD !in TaskDefs
  {
  }

  /**
    Every task a catalog entry extracts carries that entry's key as its type,
    so looking the task up by its type finds the definition that extracted it.
   */
  lemma ExtractedTypeIsKey(key: string, text: string)
    requires key in TaskDefs
    ensures forall k :: 0 <= k < |Extract(TaskDefs[key], text)| ==>
      Extract(TaskDefs[key], text)[k].kind == key && TaskDefs[Extract(TaskDefs[key], text)[k].kind] == TaskDefs[key]
  {
  }

  /** The type check is the only loop entry, it is hidden from the agent, and both installs are exposed. */
  lemma OnlyTypeCheckLoops()
    ensures forall key :: key in TaskDefs && IsLoop(TaskDefs[key]) ==> key == TsCheckTask.TS_CHECK_TYPES_CMD
    ensures !IsExposedToAi(TaskDefs[TsCheckTask.TS_CHECK_TYPES_CMD]) && IsLoop(TaskDefs[TsCheckTask.TS_CHECK_TYPES_CMD])
    ensures IsExposedToAi(TaskDefs[NpmInstallTask.NPM_INSTALL_CMD]) && IsExposedToAi(TaskDefs[NpmInstallDevTask.NPM_INSTALL_DEV_CMD])
  {
  }

  /** No text makes any catalog entry emit a type-check task: the check never comes from the agent. */
  lemma TypeCheckNeverExtracted(key: string, text: string)
    requires key in TaskDefs
    ensures forall k :: 0 <= k < |Extract(TaskDefs[key], text)| ==>
      Extract(TaskDefs[key], text)[k].kind != TsCheckTask.TS_CHECK_TYPES_CMD
  {
    ExtractedTypeIsKey(key, text);
  }

  /** The briefing's lines, in order. */
  const SystemLines := [
    Intro, SmallFiles,
    UpdateFileTask.UPDATE_FILE_INST,
    ReadFileTask.READ_FILE_INST,
    NpmInstallTask.NPM_INSTALL_INST,
    NpmInstallDevTask.NPM_INSTALL_DEV_INST,
    Screenshot, Concise, Practices, CodeBlocks
  ]
  const Intro := "You are a professional TypeScript and React programmer. You task is to update an existing website based on the provided description."
  const SmallFiles := "Whatever files you create/update, make sure they are as small as possible. It's better to have multiple small files than a single large file."
  const Screenshot := "At any time you can ask for a screenshot: write [provide-screenshot]."
  const Concise := "Please be consise, and don't explain anything until asked by a user."
  const Practices := "Consider the following good practices: files should be small, components should be reusable, the code should be clean and easy to understand. In CSS, use CSS variables. Use css variables (--u1, --u2, and so on) for length units."
  const CodeBlocks := "Don't forget to use ``` for code blocks."

  /** `SYSTEM_MSG`: the briefing, one line per instruction; every line occurs in it. */
  function SystemMsg(): (r: string)
    ensures forall i :: 0 <= i < |SystemLines| ==> Contains(r, SystemLines[i])
  {
    JoinContainsParts(SystemLines, '\n');
    JoinLines(SystemLines)
  }

  /** Every part of a joined text occurs in it. */
  lemma JoinContainsParts(parts: seq<string>, sep: char)
    ensures forall i :: 0 <= i < |parts| ==> Contains(Join(parts, sep), parts[i])
  {
    forall i | 0 <= i < |parts|
      ensures Contains(Join(parts, sep), parts[i])
    {
      JoinContainsPart(parts, sep, i);
    }
  }

  /** Each part of a joined text occurs in it. */
  lemma {:induction false} JoinContainsPart(parts: seq<string>, sep: char, i: nat)
    requires i < |parts|
    ensures Contains(Join(parts, sep), parts[i])
    decreases |parts|
  {
    if |parts| == 1 {
      assert Join(parts, sep) == [] + parts[0] + [];
      ContainsInfix([], parts[0], []);
    } else if i == 0 {
      assert Join(parts, sep) == [] + parts[0] + ([sep] + Join(parts[1..], sep));
      ContainsInfix([], parts[0], [sep] + Join(parts[1..], sep));
    } else {
      JoinContainsPart(parts[1..], sep, i - 1);
      var rest := Join(parts[1..], sep);
      assert Join(parts, sep) == (parts[0] + [sep]) + rest + [];
      ContainsInfix(parts[0] + [sep], rest, []);
      ContainsTransitive(Join(parts, sep), rest, parts[i]);
    }
  }

  /**
    The briefing carries the instruction of each agent-facing directive
    (update-file, read-file, npm-install, npm-install-dev), and with it the
    directive's marker.
   */
  lemma BriefingTeachesDirectives()
    ensures Contains(SystemMsg(), UpdateFileTask.UPDATE_FILE_INST) && Contains(SystemMsg(), UpdateFileTask.UPDATE_FILE_CMD)
    ensures Contains(SystemMsg(), ReadFileTask.READ_FILE_INST) && Contains(SystemMsg(), ReadFileTask.READ_FILE_CMD)
    ensures Contains(SystemMsg(), NpmInstallTask.NPM_INSTALL_INST) && Contains(SystemMsg(), NpmInstallTask.NPM_INSTALL_CMD)
    ensures Contains(SystemMsg(), NpmInstallDevTask.NPM_INSTALL_DEV_INST) && Contains(SystemMsg(), NpmInstallDevTask.NPM_INSTALL_DEV_CMD)
  {
    TeachesDirective(SystemLines, 2, UpdateFileTask.InstLead, UpdateFileTask.UPDATE_FILE_CMD, UpdateFileTask.InstRest);
    TeachesDirective(SystemLines, 3, ReadFileTask.InstLead, ReadFileTask.READ_FILE_CMD, ReadFileTask.InstRest);
    TeachesDirective(SystemLines, 4, NpmInstallTask.InstLead, NpmInstallTask.NPM_INSTALL_CMD, NpmInstallTask.InstRest);
    TeachesDirective(SystemLines, 5, NpmInstallDevTask.InstLead, NpmInstallDevTask.NPM_INSTALL_DEV_CMD, NpmInstallDevTask.InstRest);
  }

  /** A line of a joined text that embeds a marker puts both the line and the marker in the text. */
  lemma {:induction false} TeachesDirective(lines: seq<string>, i: nat, a: string, marker: string, b: string)
    requires i < |lines| && lines[i] == a + marker + b
    ensures Contains(JoinLines(lines), lines[i]) && Contains(JoinLines(lines), marker)
  {
    JoinContainsPart(lines, '\n', i);
    ContainsInfix(a, marker, b);
    ContainsTransitive(JoinLines(lines), lines[i], marker);
  }

  /** `startApplication`: `npm run dev -- --port <port>`, run in the project directory. */
  function StartApplication(ctx: TaskContext, port: int): (c: Command)
    ensures c.cwd == PathJoin([ctx.rootPath, ctx.dirName]) && c.program == "npm"
    ensures |c.args| == 5 && c.args[..4] == ["run", "dev", "--", "--port"]
  {
    Command(PathJoin([ctx.rootPath, ctx.dirName]), "npm", ["run", "dev", "--", "--port", IntToString(port)])
  }

  /** The server is started on the very port asked for: the decimal argument reads back as the port. */
  lemma StartApplicationPort(ctx: TaskContext, port: int)
    ensures ParseInt(StartApplication(ctx, port).args[4]) == port
  {
    IntToStringRoundTrip(port);
  }

  /**
    Titles tell the directives apart: two tasks of different catalog entries
    never share a title, and within an entry that names its argument, the
    title gives the argument back.
   */
  lemma TitlesTellApart(d1: TaskDef, d2: TaskDef, t1: Task, t2: Task)
    requires Title(d1, t1) == Title(d2, t2)
    ensures d1 == d2
    ensures d1 != TsCheckTypesDef ==> ArgText(t1.args, 0) == ArgText(t2.args, 0)
  {
    var s := Title(d1, t1);
    var a1, a2 := ArgText(t1.args, 0), ArgText(t2.args, 0);
    assert s[0] == Title(d2, t2)[0];
    if d1 == NpmInstallDef || d1 == NpmInstallDevDef {
      assert s[11] == Title(d2, t2)[11] by {
        assert |s| >= 12 && |Title(d2, t2)| >= 12;
      }
    }
    var h := TitleHead(d1);
    if d1 != TsCheckTypesDef && d1 == d2 {
      assert Title(d1, t1) == h + a1 && Title(d2, t2) == h + a2;
      assert a1 == (h + a1)[|h|..];
      assert a2 == (h + a2)[|h|..];
    }
  }

  /** The fixed text in front of a title's argument. */
  function TitleHead(def: TaskDef): string {
    match def
    case UpdateFileDef => UpdateFileTask.TitleLead
    case ReadFileDef => ReadFileTask.TitleLead
    case NpmInstallDef => NpmInstallTask.TitleLead
    case NpmInstallDevDef => NpmInstallDevTask.TitleLead
    case TsCheckTypesDef => TsCheckTask.TitleText
  }
}
