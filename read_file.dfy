/** The `[read-file]` directive: the agent asks for a file and gets its contents back in the reply. */
module ReadFileTask {
  import opened Wrappers
  import opened JsStrings
  import opened Tasks
  import opened LineScan
  import UpdateFileTask

  const READ_FILE_CMD := "[read-file]"

  /** The instruction handed to the agent. */
  const READ_FILE_INST := InstLead + READ_FILE_CMD + InstRest
  const InstLead := "To read contents of a file, write "
  const InstRest := " <path_of_the_file_to_read>. The file contents will be returned in the response."

  const MISFORMED := "Misformed task: missing the file path"

  const IsExposedToAi := true
  const IsLoop := false

  /** The tasks `extract` returns for `text`. */
  function Extracted(text: string): seq<Task> {
    Scanned(SplitLines(text), READ_FILE_CMD, |READ_FILE_CMD|)
  }

  /** `READ_FILE.extract`: one single-argument read task per line that mentions the marker. */
  method Extract(text: string) returns (out: seq<Task>)
    ensures out == Extracted(text)
    ensures |out| == |MarkedLines(SplitLines(text), READ_FILE_CMD)|
    ensures forall k :: 0 <= k < |out| ==>
      out[k] == Task(READ_FILE_CMD, [ArgAfter(MarkedLines(SplitLines(text), READ_FILE_CMD)[k], READ_FILE_CMD, |READ_FILE_CMD|)])
  {
    out := ScanMarkedLines(text, READ_FILE_CMD, |READ_FILE_CMD|);
    ScannedIsMarkedLines(SplitLines(text), READ_FILE_CMD, |READ_FILE_CMD|);
  }

  const ReplyHead := "\n      [file "
  const ReplyMid := " content]\n\n      "
  /** The fence lines around the content, with the reply's indentation. */
  const ReplyOpen := "```\n\n      "
  const ReplyClose := "\n\n      ```"
  const ReplyTail := "\n    "

  /** The reply that carries a file back to the agent: the path, then the content between fences. */
  function Reply(p: string, content: string): string {
    ReplyHead + p + ReplyMid + ReplyOpen + content + ReplyClose + ReplyTail
  }

  /** The file `path.join(rootPath, p)` names. */
  function FilePath(ctx: TaskContext, p: string): string {
    PathJoin([ctx.rootPath, p])
  }

  /**
    `READ_FILE.run`: an empty or missing path is refused without reading;
    a file that is not there rejects the promise; otherwise the reply carries
    the path and the content. Nothing is written and no command is issued.
   */
  function Run(ctx: TaskContext, task: Task, files: FileMap): (r: RunOutcome)
    ensures Arg(task.args, 0) == "" ==> r == Resolved(TaskResult(false, Some(MISFORMED)), files, [])
    ensures Arg(task.args, 0) != "" ==>
      (r.Rejected? <==> FilePath(ctx, task.args[0]) !in files)
    ensures r.Resolved? ==> r.files == files && r.commands == []
    ensures Arg(task.args, 0) != "" && FilePath(ctx, task.args[0]) in files ==>
      r == Resolved(TaskResult(true, Some(Reply(task.args[0], files[FilePath(ctx, task.args[0])]))), files, [])
  {
    var p := Arg(task.args, 0);
    if p == "" then
      Resolved(TaskResult(false, Some(MISFORMED)), files, [])
    else if FilePath(ctx, p) !in files then
      Rejected("ENOENT: no such file or directory, open '" + FilePath(ctx, p) + "'")
    else
      Resolved(TaskResult(true, Some(Reply(p, files[FilePath(ctx, p)]))), files, [])
  }

  /** The fixed text in front of a title's argument. */
  const TitleLead := "Sending file "

  /** `READ_FILE.title`: the fixed lead, then the task's first argument as written. */
  function Title(task: Task): (r: string)
    ensures StartsWith(r, TitleLead) && r[|TitleLead|..] == ArgText(task.args, 0)
  {
    TitleLead + ArgText(task.args, 0)
  }

  /** The reply names the path and holds the content between two fence lines. */
  lemma ReplyEmbeds(p: string, content: string)
    ensures Contains(Reply(p, content), ReplyHead + p + ReplyMid)
    ensures Contains(Reply(p, content), ReplyOpen + content + ReplyClose)
  {
    var named, fenced := ReplyHead + p + ReplyMid, ReplyOpen + content + ReplyClose;
    assert Reply(p, content) == named + fenced + ReplyTail;
    FirstAndSecond(named, fenced, ReplyTail);
  }

  lemma {:induction false} FirstAndSecond(a: string, b: string, c: string)
    ensures Contains(a + b + c, a) && Contains(a + b + c, b)
  {
    assert a + b + c == [] + a + (b + c);
    ContainsInfix([], a, b + c);
    ContainsInfix(a, b, c);
  }

  /** The agent can read the content back: for a given path, different contents give different replies. */
  lemma ReplyDeterminesContent(p: string, c1: string, c2: string)
    requires Reply(p, c1) == Reply(p, c2)
    ensures c1 == c2
  {
    var head := ReplyHead + p + ReplyMid + ReplyOpen;
    var tail := ReplyClose + ReplyTail;
    assert Reply(p, c1) == head + c1 + tail;
    assert Reply(p, c2) == head + c2 + tail;
    assert c1 == (head + c1 + tail)[|head|..|head| + |c1|];
    assert c2 == (head + c2 + tail)[|head|..|head| + |c2|];
  }

  /**
    Reading a file right after the update directive wrote it gives back the
    content just written: both directives resolve the path against the root.
   */
  lemma ReadAfterUpdate(ctx: TaskContext, p: string, content: string, files: FileMap)
    requires p != "" && content != ""
    ensures var written := UpdateFileTask.Run(ctx, Task(UpdateFileTask.UPDATE_FILE_CMD, [p, content]), files);
      Run(ctx, Task(READ_FILE_CMD, [p]), written.files)
        == Resolved(TaskResult(true, Some(Reply(p, content))), written.files, [])
  {
  }

  /** The argument runs to the end of the line: a second marker on the line stays inside it. */
  lemma SecondMarkerStaysInArg(p: string)
    requires p != [] && IsTrimmed(p)
    ensures ArgAfter(READ_FILE_CMD + " " + (p + " " + READ_FILE_CMD), READ_FILE_CMD, |READ_FILE_CMD|)
         == p + " " + READ_FILE_CMD
  {
    var arg := p + " " + READ_FILE_CMD;
    assert arg[0] == p[0];
    assert arg[|arg| - 1] == ']';
    ArgAfterSpacedMarker(READ_FILE_CMD, arg);
  }

  /** Paths written one per line as the instruction asks come back as read tasks, in order. */
  lemma {:induction false} RoundTrip(paths: seq<string>)
    requires |paths| >= 1
    requires forall k :: 0 <= k < |paths| ==> IsTrimmed(paths[k]) && '\n' !in paths[k]
    ensures Extracted(JoinLines(SpacedLines(READ_FILE_CMD, paths))) == TasksFor(READ_FILE_CMD, paths)
  {
    DirectiveLinesRoundTrip(READ_FILE_CMD, paths);
  }
}
