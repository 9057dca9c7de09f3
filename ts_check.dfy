/**
  The `[ts-check-types]` check: run the TypeScript compiler without emitting
  and report its output when it fails. It is never extracted from the
  agent's text: `isLoop` marks it as a check the server runs itself.
 */
module TsCheckTask {
  import opened Wrappers
  import opened JsStrings
  import opened Tasks

  const TS_CHECK_TYPES_CMD := "[ts-check-types]"

  const IsExposedToAi := false
  const IsLoop := true

  /** `TS_CHECK_TYPES.extract`: not applicable, whatever the text. */
  function Extracted(text: string): (r: seq<Task>)
    ensures r == []
  {
    []
  }

  /** The compiler run, in the project directory. */
  function CheckCommand(ctx: TaskContext): Command {
    Command(PathJoin([ctx.rootPath, ctx.dirName]), "./node_modules/.bin/tsc", ["--noEmit"])
  }

  const FailureLead := "Typescript checking failed with code "
  const StdoutLabel := " \n\n Stdout: \n\n "
  const StderrLabel := "\n\n Stderr: \n\n "

  /** `s` between an opening and a closing fence line. */
  function Fenced(s: string): string {
    "```\n" + s + "\n```"
  }

  /** The message relayed when the check fails: the exit code, then stdout and stderr each in a fenced block. */
  function FailureMessage(code: Option<int>, stdout: string, stderr: string): string {
    FailureLead + CodeText(code) + "." + StdoutLabel + Fenced(stdout) + StderrLabel + Fenced(stderr)
  }

  /**
    `TS_CHECK_TYPES.run` against a command runner that reports its result:
    exit code 0 passes with no message, anything else (a killed process
    included) fails with the compiler's output. The task itself is not read.
   */
  function Run(ctx: TaskContext, task: Task, files: FileMap, proc: ProcResult): (r: RunOutcome)
    ensures r.Resolved? && r.files == files && r.commands == [CheckCommand(ctx)]
    ensures r.result.success <==> proc.code == Some(0)
    ensures r.result.success ==> r.result.messageToAgent == None
    ensures !r.result.success ==> r.result.messageToAgent == Some(FailureMessage(proc.code, proc.stdout, proc.stderr))
  {
    if proc.code != Some(0) then
      Resolved(TaskResult(false, Some(FailureMessage(proc.code, proc.stdout, proc.stderr))), files, [CheckCommand(ctx)])
    else
      Resolved(TaskResult(true, None), files, [CheckCommand(ctx)])
  }

  /** The title of every type check. */
  const TitleText := "Checking types..."

  /** `TS_CHECK_TYPES.title`: the same fixed text, whatever the task. */
  function Title(task: Task): (r: string)
    ensures r == TitleText
  {
    TitleText
  }

  /**
    The failure message starts with the lead and the exit code followed by a
    full stop, and holds stdout and stderr each between fence lines.
   */
  lemma FailureMessageShape(code: Option<int>, stdout: string, stderr: string)
    ensures StartsWith(FailureMessage(code, stdout, stderr), FailureLead + CodeText(code) + ".")
    ensures Contains(FailureMessage(code, stdout, stderr), Fenced(stdout))
    ensures Contains(FailureMessage(code, stdout, stderr), Fenced(stderr))
  {
    var lead := FailureLead + CodeText(code) + ".";
    assert FailureMessage(code, stdout, stderr) == lead + StdoutLabel + Fenced(stdout) + StderrLabel + Fenced(stderr);
    LeadAndInfixes(lead, StdoutLabel, Fenced(stdout), StderrLabel, Fenced(stderr));
  }

  /** A text put together from five pieces starts with the first and contains the third and the fifth. */
  lemma {:induction false} LeadAndInfixes(a: string, b: string, c: string, d: string, e: string)
    ensures StartsWith(a + b + c + d + e, a)
    ensures Contains(a + b + c + d + e, c) && Contains(a + b + c + d + e, e)
  {
    var msg := a + b + c + d + e;
    assert msg[..|a|] == a;
    assert msg == (a + b) + c + (d + e);
    ContainsInfix(a + b, c, d + e);
    assert msg == (a + b + c + d) + e + [];
    ContainsInfix(a + b + c + d, e, []);
  }

  /** The outcome depends on the project directory and the compiler's result only, never on the task. */
  lemma TaskIgnored(ctx: TaskContext, t1: Task, t2: Task, files: FileMap, proc: ProcResult)
    ensures Run(ctx, t1, files, proc) == Run(ctx, t2, files, proc)
  {
  }

  /**
    `TS_CHECK_TYPES.run` as written: `runCmd` is imported from the helpers
    module, whose promise resolves with no value on exit code 0 and rejects on
    any other code. Destructuring the missing value throws, so the run's
    promise rejects whatever the compiler does and neither result is reached.
   */
  function RunAsWritten(ctx: TaskContext, task: Task, files: FileMap, code: Option<int>): (r: RunOutcome)
    ensures r.Rejected?
  {
    match HelpersRunCmd(code)
    case Some(reason) => Rejected(reason)
    case None => Rejected(DestructureUndefined)
  }

  /** A passing compiler run that the corrected check reports as a pass is a rejection as written. */
  lemma AsWrittenLosesPass(ctx: TaskContext, task: Task, files: FileMap)
    ensures Run(ctx, task, files, ProcResult(Some(0), "", "")).Resolved?
    ensures Run(ctx, task, files, ProcResult(Some(0), "", "")).result == TaskResult(true, None)
    ensures RunAsWritten(ctx, task, files, Some(0)) == Rejected(DestructureUndefined)
  {
  }
}
