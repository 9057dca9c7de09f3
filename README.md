# allthefish directive layer, in Dafny

allthefish lets an AI agent build a web project. The agent replies in free text. The server reads directives out of that text, and each directive becomes a task of the form `{type, args}`. Each task kind has a small rule that runs it and reports `(success, messageToAgent)`.

This project models that directive layer in all three of its generations:

- **Current.** Each directive lives in its own file under `server/src/tasks/` and uses a bracket marker:
  - `[update-file]` (`UpdateFileTask`)
  - `[read-file]` (`ReadFileTask`)
  - `[npm-install]` (`NpmInstallTask`)
  - `[npm-install-dev]` (`NpmInstallDevTask`)
  - `[ts-check-types]` (`TsCheckTask`)
- **Older.** `server/src/templates/common_tasks.ts` uses bare-word markers with hard-coded offsets (`LegacyTasks`).
- **Oldest.** `server/src/project_worker.ts` has a single `parseTasks`, `taskTitle` and the `ProjectWorker` class (`ProjectWorkers`).
- **Catalog.** The Vite + React + TypeScript template binds markers to definitions, composes the agent's briefing and starts the dev server (`ViteReactTs`).

Shared modules:

- `JsStrings`: the JavaScript string operations the scanners use, over `seq<char>`. These are `startsWith`, `includes`, `indexOf`, a clamping `substring`, `trim`, `split`, `join` and decimal rendering.
- `Tasks`: the task, result, command and context values. Two result shapes unify into one `TaskResult`: the `[success, message]` tuple and the `{success, messageToAgent}` object.
- `LineScan`: the "line mentions the marker, take the trimmed remainder" scanner.
- `FencedScan`: the three-state fenced-block scanner. Its states are idle, armed and collecting, held in four variables.

Each scanner is a method whose loop mirrors the source. Its contract ties it to a recursive specification function, and the properties are lemmas about those functions.

External commands and the file system are inputs:

- A command's outcome is `ProcResult(code, stdout, stderr)`. `None` stands for a `null` exit code, that is, a killed process.
- The workspace is a map from path to content.
- `path.join` is modelled as joining with `/`.
- Every `run` returns the commands it issued, so "runs no command" is stated and proved.

## Model

| member | source | states |
|---|---|---|
| JsStrings.IndexOf | server/src/tasks/read_file.ts:20 | The result is -1 exactly when the marker occurs nowhere; otherwise the marker occurs there and at no earlier index. |
| JsStrings.Trim | server/src/tasks/read_file.ts:19-21 | The result has no leading or trailing whitespace (the ECMAScript WhiteSpace and LineTerminator set) and is no longer than the input. |
| JsStrings.TrimPadded | server/src/tasks/npm_install.ts:19-21 | Trimming whitespace + p + whitespace gives back p when p is already trimmed. |
| JsStrings.SplitJoin | server/src/tasks/update_file.ts:15 | Splitting on the separator a join of separator-free lines gives back exactly those lines. |
| JsStrings.JoinSplit | server/src/tasks/update_file.ts:15 | Joining the fields of a split restores the text. |
| JsStrings.SplitHasSecondField | server/src/project_worker.ts:117 | `split(":")` has a field at index 1 if and only if the line contains a colon. |
| JsStrings.IntToStringRoundTrip | server/src/templates/vite_react_ts/index.ts:70 | The decimal rendering of an integer parses back to that integer. |
| LineScan.ScanMarkedLines | server/src/tasks/read_file.ts:12-27 | The loop's output equals the line-scan specification over the reply's lines. |
| LineScan.Scanned | server/src/tasks/npm_install.ts:17-25 | At most one task per line; every task has the marker as its type and exactly one argument. |
| LineScan.ScannedIsMarkedLines | server/src/tasks/read_file.ts:17-24 | One task per line that mentions the marker, in line order; the k-th task's argument is taken from the k-th such line. |
| LineScan.NoMarkerNoTasks | server/src/tasks/read_file.ts:15-26 | Text in which no line mentions the marker yields no task. |
| LineScan.ArgAfterLeadingMarker | server/src/tasks/read_file.ts:19-21 | On a line that starts with the marker, the argument is the rest after the marker (and any extra skipped characters), trimmed. A second marker stays in it, and it is empty when the marker ends the line. |
| LineScan.DirectiveLinesRoundTrip | server/src/tasks/npm_install.ts:8-25 | Arguments written one per line as marker, space, argument are extracted as one task each, in order, carrying the argument. |
| FencedScan.ExtractBlocks | server/src/tasks/update_file.ts:12-52 | The four-variable loop's output equals the three-state scan specification. |
| FencedScan.AsTasksShape | server/src/tasks/update_file.ts:33-36 | The k-th task carries the k-th block's path and body as its two arguments. |
| FencedScan.NoMarkerLineNoBlocks | server/src/tasks/update_file.ts:24 | Only lines that start with the marker arm the scanner: without such a line, nothing is emitted. |
| FencedScan.NoFenceNoBlocks | server/src/tasks/update_file.ts:31-47 | Without a fence line nothing is emitted, from any state. |
| FencedScan.BlocksNeedTwoFences | server/src/tasks/update_file.ts:32-40 | Each emitted block consumes an opening and a closing fence line. |
| FencedScan.SkipGap | server/src/tasks/update_file.ts:44-47 | Lines between the marker line and the opening fence are discarded. |
| FencedScan.CollectBody | server/src/tasks/update_file.ts:41-43 | While collecting, each plain line is appended to the body followed by a newline. |
| FencedScan.BlockRecovered | server/src/tasks/update_file.ts:24-49 | Marker line, gap, opening fence, body, closing fence emit exactly one block (the marker line's path, the newline-terminated body), then the scan starts afresh. |
| FencedScan.RearmWhileCollecting | server/src/tasks/update_file.ts:24-29 | A marker line met while collecting takes the new path but keeps the body so far and stays collecting. |
| FencedScan.UnclosedBlockDropped | server/src/tasks/update_file.ts:31-43 | A block whose closing fence never comes emits nothing. |
| FencedScan.DirectiveRoundTrip | server/src/tasks/update_file.ts:24-49 | A marker line, an opening fence, file lines and a closing fence come back as exactly one block holding the marker line's path and the file. |
| UpdateFileTask.Extract | server/src/tasks/update_file.ts:12-52 | Equals the fenced scan with the `[update-file]` marker; every task has that type and two arguments. |
| UpdateFileTask.Run | server/src/tasks/update_file.ts:53-71 | Success if and only if path and content are both non-empty. Failure carries "Misformed task: missing the file path or content" and writes nothing. Success replaces the whole file at root/path, has a null message and issues no command. |
| UpdateFileTask.RoundTrip | server/src/tasks/update_file.ts:9-49 | A directive written as the instruction says is extracted as one task with that path and the file's lines, each newline-terminated. |
| UpdateFileTask.EmptyBodyRefused | server/src/tasks/update_file.ts:55-59 | A task with an empty body is refused with the misformed message, whatever the path. |
| UpdateFileTask.Title | server/src/tasks/update_file.ts:72 | The title is "Updating file " followed by the task's first argument, which can be read back from it. |
| ReadFileTask.Extract | server/src/tasks/read_file.ts:12-27 | One `[read-file]` task per line that mentions the marker, in order, with the argument after the first marker, trimmed. |
| ReadFileTask.Run | server/src/tasks/read_file.ts:28-50 | An empty path fails with "Misformed task: missing the file path". A missing file rejects. Otherwise the result is success with the reply for the path and the file's content. Nothing is written and no command runs. |
| ReadFileTask.ReplyEmbeds | server/src/tasks/read_file.ts:40-45 | The reply names the path and holds the content between two fence lines. |
| ReadFileTask.ReplyDeterminesContent | server/src/tasks/read_file.ts:40-45 | For one path, different contents give different replies, so the content can be read back. |
| ReadFileTask.ReadAfterUpdate | server/src/tasks/read_file.ts:36-49 | Reading a path just written by the update directive returns the written content. |
| ReadFileTask.SecondMarkerStaysInArg | server/src/tasks/read_file.ts:19-21 | A second marker on the line stays inside the argument. |
| ReadFileTask.Title | server/src/tasks/read_file.ts:51 | The title is "Sending file " followed by the task's first argument, which can be read back from it. |
| ReadFileTask.RoundTrip | server/src/tasks/read_file.ts:9-24 | Paths written one per line as the instruction says come back as read tasks, in order. |
| NpmInstallTask.Extract | server/src/tasks/npm_install.ts:11-27 | One `[npm-install]` task per line that mentions the marker, in order, with the trimmed remainder after the first marker. |
| NpmInstallTask.Run | server/src/tasks/npm_install.ts:28-52 | An empty name fails with "Misformed task: missing the package name" and runs nothing. Otherwise `npm install <name>` runs once in root/dirName, success if and only if the exit code is 0 (a null code fails), and the message is always null. |
| NpmInstallTask.MarkerEndsLine | server/src/tasks/npm_install.ts:19-36 | A marker followed only by whitespace gives an empty name, which `run` refuses. |
| NpmInstallTask.RoundTrip | server/src/tasks/npm_install.ts:8-25 | Names written one per line as instructed come back as install tasks, in order. |
| NpmInstallTask.Title | server/src/tasks/npm_install.ts:53 | The title is "Installing package " followed by the task's first argument, which can be read back from it. |
| NpmInstallDevTask.Extract | server/src/tasks/npm_install_dev.ts:11-29 | One `[npm-install-dev]` task per line that mentions the marker, in order, with the trimmed remainder. |
| NpmInstallDevTask.Run | server/src/tasks/npm_install_dev.ts:30-52 | An empty name gives `[false, "Misformed task"]` and runs nothing. Otherwise `npm install <name> --save-dev` runs and the result is `[true, null]`, the exit code not being consulted. |
| NpmInstallDevTask.RoundTrip | server/src/tasks/npm_install_dev.ts:7-26 | Names written one per line as instructed come back as dev-install tasks, in order. |
| NpmInstallDevTask.DevLineIsNotInstallLine | server/src/tasks/npm_install.ts:18 | A `[npm-install-dev]` line yields no plain install task, because the plain marker is not a substring of it. |
| NpmInstallDevTask.Title | server/src/tasks/npm_install_dev.ts:53 | The title is "Installing dev package " followed by the task's first argument, which can be read back from it. |
| TsCheckTask.Run | server/src/tasks/ts_check.ts:13-29 | Runs `./node_modules/.bin/tsc --noEmit` in root/dirName. Success if and only if the exit code is 0, in which case the message is null. Any other code, null included, fails with the failure message. |
| TsCheckTask.FailureMessageShape | server/src/tasks/ts_check.ts:21-22 | The failure message starts with "Typescript checking failed with code <code>." and holds stdout and stderr, each between fence lines. |
| TsCheckTask.TaskIgnored | server/src/tasks/ts_check.ts:13 | The outcome does not depend on the task. |
| TsCheckTask.RunAsWritten | server/src/tasks/ts_check.ts:4-20 | With the helpers `runCmd` it imports, the run rejects whatever the exit code. |
| TsCheckTask.AsWrittenLosesPass | server/src/tasks/ts_check.ts:16-28 | A compiler run that exits 0 is a pass once corrected and a rejection as written. |
| TsCheckTask.Extracted | server/src/tasks/ts_check.ts:9-12 | Whatever the text, no type-check task is extracted. |
| TsCheckTask.Title | server/src/tasks/ts_check.ts:30 | The title is "Checking types..." whatever the task. |
| Tasks.HelpersRunCmd | server/src/helpers.ts:34-56 | The helpers' command runner resolves if and only if the exit code is 0. |
| LegacyTasks.UpdateOffsetIsMarkerLength | server/src/templates/common_tasks.ts:40 | Offset 11 is the length of `UPDATE_FILE`. Offsets 16 and 20 are one more than the install markers' lengths. |
| LegacyTasks.UpdateExtract | server/src/templates/common_tasks.ts:26-64 | Equals the fenced scan with the bare `UPDATE_FILE` marker; every task has that type and arguments `[path, code]`. |
| LegacyTasks.UpdateRun | server/src/templates/common_tasks.ts:65-77 | Success if and only if path and content are non-empty. Failure is `[false, "Misformed task"]`. Success writes the whole file at root/dirName/path with a null message. |
| LegacyTasks.ColonSpellingKeepsColon | server/src/templates/common_tasks.ts:38-40 | `UPDATE_FILE: <path>` still arms the scanner, but the colon stays at the front of the path. |
| LegacyTasks.InstallExtract | server/src/templates/common_tasks.ts:84-98 | One `INSTALL_PACKAGE` task per line that mentions the marker, with the argument taken 16 characters past the marker's start. |
| LegacyTasks.InstallDevExtract | server/src/templates/common_tasks.ts:120-136 | The same for `INSTALL_DEV_PACKAGE` at offset 20. |
| LegacyTasks.SeparatorDropped | server/src/templates/common_tasks.ts:92 | Exactly one character after a leading marker is dropped, separator or not; the trimmed rest is the name. |
| LegacyTasks.MarkerEndsLine | server/src/templates/common_tasks.ts:129-130 | A line whose first marker ends it, or is followed by one character only, gives an empty name, whatever text comes before the marker. |
| LegacyTasks.InstallRun | server/src/templates/common_tasks.ts:99-113 | An empty name gives `[false, "Misformed task"]` with no command. Otherwise the install command runs and the result is `[true, null]`, ignoring the exit code. The same holds for the dev variant with `--save-dev`. |
| LegacyTasks.InstallRunAsWritten | server/src/templates/common_tasks.ts:6 | With the helpers `runCmd`, every named install rejects, and only the misformed result is ever returned. |
| LegacyTasks.AsWrittenLosesInstall | server/src/templates/common_tasks.ts:107-112 | A named install whose command exits 0 returns `[true, null]` once corrected and rejects as written. |
| ProjectWorkers.DropFinalDot | server/src/project_worker.ts:118-120 | At most one final full stop is removed, and only when present. |
| ProjectWorkers.InstallName | server/src/project_worker.ts:117-120 | A line without a colon gives no name; a name never holds a colon and never starts with whitespace. |
| ProjectWorkers.Installs | server/src/project_worker.ts:114-123 | At most one task per line, all of them installs. |
| ProjectWorkers.InstallsAreMarkedLines | server/src/project_worker.ts:114-123 | One install per line that mentions `INSTALL_PACKAGE`, in order: the k-th install is named after the k-th such line. |
| ProjectWorkers.Updates | server/src/project_worker.ts:139-143 | One update per emitted block, carrying its path and body. |
| ProjectWorkers.ParseTasks | server/src/project_worker.ts:109-160 | Equals the specification: it throws if and only if some line trips either pass; otherwise the result is the installs followed by the fenced-scan updates. |
| ProjectWorkers.InstallPass | server/src/project_worker.ts:114-123 | Throws if and only if a line mentions `INSTALL_PACKAGE` without a colon; otherwise the result is one install per such line, in order. |
| ProjectWorkers.UpdatePass | server/src/project_worker.ts:125-157 | Throws if and only if a line starts with `UPDATE_FILE` without a colon; otherwise the result is the fenced scan with the path read between the first two colons. |
| ProjectWorkers.InstallsBeforeUpdates | server/src/project_worker.ts:109-159 | Once an update appears in the output, everything after it is an update, however the directives interleave. |
| ProjectWorkers.InstallNameRoundTrip | server/src/project_worker.ts:117-120 | `INSTALL_PACKAGE: <name>`, with or without a final full stop, gives the name back. |
| ProjectWorkers.ColonPath | server/src/project_worker.ts:134 | The update path is the trimmed field after the colon. |
| ProjectWorkers.SpellingWithoutColonThrows | server/src/project_worker.ts:132-134 | A colon-less `UPDATE_FILE <path>` line makes the parser throw. |
| ProjectWorkers.InstallInsideCodeBlock | server/src/project_worker.ts:114-157 | An install line inside an update's code block is both installed and written into the file body. |
| ProjectWorkers.TitleDeterminesTarget | server/src/project_worker.ts:162-170 | Equal titles mean the same kind of task with the same name or path. |
| ProjectWorkers.TaskTitle | server/src/project_worker.ts:162-170 | An install's title is "Installing package " followed by its name, an update's "Updating file " followed by its path. |
| ProjectWorkers.FirstFailure | server/src/project_worker.ts:70-97 | Every command before the index exits 0, and the command at the index, if any, does not. |
| ProjectWorkers.ScaffoldPlan | server/src/project_worker.ts:68-97 | Six commands: the scaffold runs in the workspace root and names the project directory; every later command runs inside root/dirName. |
| ProjectWorkers.RunInOrder | server/src/project_worker.ts:88-97 | The five commands after the scaffold run in order: exactly those up to and including the first failure are issued, and that failure's "Command failed with code" rejection is reported; none is reported when all exit 0. |
| ProjectWorkers.ProjectWorker.constructor | server/src/project_worker.ts:25-29 | The worker holds the given root, directory and port, with no server started. |
| ProjectWorkers.ProjectWorker.RunTask | server/src/project_worker.ts:31-42 | An update replaces the file at root/dirName/path with its content; an install changes nothing. |
| ProjectWorkers.ProjectWorker.StartServer | server/src/project_worker.ts:44-48 | The server process becomes `npm run dev` in the project directory. |
| ProjectWorkers.ProjectWorker.CreateProject | server/src/project_worker.ts:50-106 | An existing directory gives "EXISTS" with no command and no write. An unknown template gives "UNKNOWN_TEMPLATE", also with no command and no write. Otherwise the six commands run in order up to the first failure, which rejects. The stylesheet is emptied once scaffolding succeeds, and the result is "OK" when all commands succeed. |
| ViteReactTs.CatalogKeys | server/src/templates/vite_react_ts/index.ts:57-61 | The catalog has exactly the keys `[npm-install]`, `[npm-install-dev]` and `[ts-check-types]`; the file directives are not among them. |
| ViteReactTs.ExtractedTypeIsKey | server/src/templates/vite_react_ts/index.ts:57-61 | Every task an entry extracts has that entry's key as its type, so a lookup by type finds the definition that extracted it. |
| ViteReactTs.OnlyTypeCheckLoops | server/src/templates/vite_react_ts/index.ts:57-61 | The type check is the only loop entry and is hidden from the agent; both installs are exposed. |
| ViteReactTs.IsExposedToAi | server/src/tasks/ts_check.ts:31 | Every definition but the type check is offered to the agent (the four other files declare `isExposedToAi: true` on the line after their title). |
| ViteReactTs.IsLoop | server/src/tasks/ts_check.ts:32 | Only the type check is a loop task (the four other files declare `isLoop: false` two lines after their title). |
| ViteReactTs.TypeCheckNeverExtracted | server/src/tasks/ts_check.ts:9-12 | No text makes any catalog entry emit a type-check task. |
| ViteReactTs.BriefingTeachesDirectives | server/src/templates/vite_react_ts/index.ts:20-37 | The system message contains the instruction and the marker of update-file, read-file, npm-install and npm-install-dev. |
| ViteReactTs.SystemMsg | server/src/templates/vite_react_ts/index.ts:20-37 | Every line of the briefing occurs in the joined system message. |
| ViteReactTs.StartApplication | server/src/templates/vite_react_ts/index.ts:63-72 | The dev server command is `npm run dev -- --port <port>` run in root/dirName. |
| ViteReactTs.StartApplicationPort | server/src/templates/vite_react_ts/index.ts:63-72 | The last argument of the dev server command reads back as the requested port. |
| ViteReactTs.TitlesTellApart | server/src/tasks/update_file.ts:72 | Titles of different directives never coincide, and within a directive the title gives back the first argument; the other titles are read_file.ts:51, npm_install.ts:53, npm_install_dev.ts:53 and ts_check.ts:30. |

## Left out

- The loop that drives tasks after each agent turn (install priority, relaying messages, autopilot). It lives in server code that is not part of this model.
- Vendor clients, WebSocket and HTTP routing, the client UI, configuration files and logging. None of them change what a directive does.
- Process spawning. A command's exit code and output are inputs, and `runBackground` is represented by the command it starts.
- File-system failures other than a missing file on read: directory creation, permissions, write errors and `fs.access` errors. Existence of the project directory is an input to `CreateProject`.
- Path normalisation. `path.join` is modelled as joining with `/`, so `a/../b` and `a//b` are not normalised.
- `scaffold` of the Vite template. It is a sequence of effects.
- ReadFileTask.Run: the rejection reason for a missing file is a fixed `ENOENT` text, not Node's error object.
- Trim covers all of ECMAScript's WhiteSpace and LineTerminator code points. Characters outside the Basic Multilingual Plane are not modelled.
- ProjectWorkers.ProjectWorker.StartServer: a previous server is abandoned, not stopped; the model keeps only the latest command.
- The older generation's titles and flags are word for word those of the current update and install directives. Its `TS_CHECK_TYPES` (server/src/templates/common_tasks.ts:165-190) is word for word the current one. Both are modelled once, by the current modules.
- The template's `TASK_DEFS` lists only the two installs and the type check; update-file and read-file are advertised in the briefing but have no catalog entry (ViteReactTs.CatalogKeys).

## Findings

| source | as written | input that shows it | evidently intended | confidence | as-written member | corrected member |
|---|---|---|---|---|---|---|
| server/src/tasks/ts_check.ts:4 | `runCmd` is imported from the helpers module. That version resolves with no value on exit 0 and rejects otherwise, so destructuring `{ code, stdout, stderr }` throws on a pass and a failure rejects before the message is built. | A compiler run with exit code 0 | Use the command runner that reports `{ code, stdout, stderr }`, and return `[true, null]` on code 0 or `[false, msg]` otherwise | high (not executed) | TsCheckTask.RunAsWritten | TsCheckTask.Run |
| server/src/templates/common_tasks.ts:6 | The same helpers `runCmd` is imported, so the installs reject after the name guard, and the type check on every run, instead of returning `[true, null]`. | A named install whose command exits 0 | Return `[true, null]` after running the command | high (not executed) | LegacyTasks.InstallRunAsWritten | LegacyTasks.InstallRun |
