# pyhuman shell driver — a Dafny model

pyhuman simulates a human user. One of its workflows downloads and builds a
piece of open-source software: it types shell commands into a
pseudo-terminal like a person would, typos and backspaces included. After
each command it waits for the prompt, judges the output with a check
callback, and retries or gives up.

This project models that subsystem and the small policies around it, and
proves properties of the model:

- `shell_interact.dfy` models the retry-driven executor
  (`run_shell_commands_with_checks`). Two recursive specification functions
  describe it: `RunTask` for one task's `while True` loop and `Run` for the
  `for task in tasks` loop. The imperative method is proved equal to them,
  and lemmas state the attempt counts, the verdict passed to each check, the
  order of tasks and the errors.
- `human_typer.dfy` models the `HumanTyperShell` session as a class:
  - Fields: the shared output buffer, a log of every byte written to the
    pty, and the `stop`, `suppress_output` and open-descriptor flags.
  - Methods: the reader's `Append` and `ReadOutput`, the prompt wait, typing
    a command, `close`, and the constructor's startup wait.
  - The keystroke stream and the quiescence timeout are specification
    functions with their own lemmas.
- `build_software.dfy` models the check constructors `basic_success` and
  `tarball_check_contains`, the `cmds` builder and the table of twelve
  projects. It also models the `build_software` loop: both the code as
  written and the call it evidently intends (see Findings).
- `base_workflow.dfy` and `metric_workflow.dfy` model the workflow
  bookkeeping:
  - the integrity flag that `_log` ANDs with Python's `&`;
  - the status check and the log entry's conditional keys;
  - the console line, the default messages and `display`;
  - the "pwned"/"pwnd" screen.
- `moodle.dfy` models `MoodleBrowse.get_creds`, the scanner of the
  `extra` argument list.
- `text.dfy` holds the Python string operations these rely on: `in`,
  `split`/`join`, `strip`, ASCII `lower` and `str(int)`.
- `wrappers.dfy` holds `Option` and `Result`.

Abstractions:

- **Shell session.** The executor sees the session as a function from
  (commands typed so far, command) to the output text. The function gives
  nothing when `type_command` raises: a `TimeoutError` while waiting for
  the prompt, or an `OSError` on the pty. The executor does not catch
  either, so the run ends there with the outcome `SessionFailed`.
- **Regular expressions.** The prompt regex is a search function returning
  where its first match ends. `re.search` in `basic_success` is a predicate
  parameter.
- **Random decisions.** The typo decisions and the choice of projects are
  parameters.
- **Time.** Time counts 50 ms polls. The reader's data is given per poll
  (`arrivals`) and for the post-prompt delay (`late`).
- **Logging context.** The clock, host name and process id for `_log`
  come in as a `Stamp`.
- **Files.** The file read by `get_creds` is a function from a path to
  the file's text.

Behaviour of the code that the model keeps as written:

- **Close.** `close` is not idempotent. It releases the descriptor with
  `os.close`, which raises `OSError` on a descriptor already closed, so a
  second `Close` returns an error.
- **No observer.** `run_shell_commands_with_checks` takes only the shell,
  the task list and `max_retries`, and reports progress to no observer or
  step logger. The model has none.
- **Buffer.** `type_command` empties the shared buffer before typing
  (pyhuman/app/utility/human_typer.py:110). The bytes that the previous
  `_wait_for_prompt` kept after its match (lines 91-92) are therefore
  discarded, and never returned by the next command.
- **Echo.** `suppress_output` is set before the first key is written
  (line 111) and cleared only after the newline (line 156). While a
  command is typed, the reader therefore does not mirror the shell's
  output to standard output (line 62). The typist's own echo of its keys
  to standard output is left out (see the first line under Left out).

## Model

| member | source | states |
|---|---|---|
| `ShellInteract.RunShellCommandsWithChecks` | pyhuman/app/utility/shell_interact.py:26-45 | The attempts the executor makes, for each task it starts, and how the run ends are exactly those of the specification `Run`. |
| `ShellInteract.RunOneTask` | pyhuman/app/utility/shell_interact.py:32-45 | One task's `while True` loop, started from `fail_count = 0`, makes exactly the attempts of the specification `RunTask` and ends the same way. |
| `ShellInteract.RunTaskAttempt` | pyhuman/app/utility/shell_interact.py:33-39 | Attempt k of a task retypes the same command after k earlier copies of it, and its output is what the session returned for that typing. The check receives the number of "retry" verdicts already given for that task. Every attempt before the last got "retry". |
| `ShellInteract.RunTaskEnd` | pyhuman/app/utility/shell_interact.py:33-45 | A task makes at most `max_retries + 1` attempts, and none only when the session raised on its first typing. It completes iff an attempt was made and the last verdict is "success". It exhausts its retries iff the session did not raise and the last verdict is "retry". A check failure carries the command and the last output. |
| `ShellInteract.SessionAfterRetries` | pyhuman/app/utility/shell_interact.py:33-34 | When `type_command` raises, the task ends with an error naming its command, at the typing that raised. Every earlier attempt of the task got "retry" within the budget. |
| `ShellInteract.AlwaysRetryAttempts` | pyhuman/app/utility/shell_interact.py:38-42 | A check that always answers "retry" makes the command be typed exactly `max_retries + 1` times (once if `max_retries` is negative), then the exhausted-retries error is raised; there is no further attempt. If the session raises first, the run ends after fewer typings. |
| `ShellInteract.RunAt` | pyhuman/app/utility/shell_interact.py:31-34 | Task j runs with a fresh `fail_count` after every command typed for tasks 0..j-1. Every task started before the last one completed. |
| `ShellInteract.RunLength` | pyhuman/app/utility/shell_interact.py:31-45 | The run starts no more tasks than the list holds, at least one if the list is not empty, and every task when it completes. |
| `ShellInteract.RunEnd` | pyhuman/app/utility/shell_interact.py:31-45 | The run starts no more tasks than the list holds, and at least one if there is one. It completes iff all tasks ran and the last completed. Otherwise its error is the last started task's error. |
| `ShellInteract.RunShape` | pyhuman/app/utility/shell_interact.py:31-45 | Tasks run in list order, and every attempt of run j types task j's command. A normal return means every task's last verdict was "success". After an error no later task is typed. The error names the last task's command, and a check's error also carries that task's last output. |
| `ShellInteract.ErrorMessage` | pyhuman/app/utility/shell_interact.py:41-45 | Both RuntimeError messages contain the command text and the last output. |
| `ShellInteract.TwoCommandsSucceedOnce` | pyhuman/app/utility/shell_interact.py:31-37 | With a session that echoes "ok:" and a check that wants it, two commands are each typed once and the run completes. |
| `BuildSoftware.BasicSuccess` | pyhuman/app/workflows/build_software.py:14-18 | The verdict is "success" iff the pattern is found in the output, else "retry" while `fail_count < 2`, else "fail". |
| `BuildSoftware.TarballCheckContains` | pyhuman/app/workflows/build_software.py:29-32 | The verdict is "success" iff the string occurs in the output, with the same retry/fail shape. |
| `BuildSoftware.Cmds` | pyhuman/app/workflows/build_software.py:21-24 | `cmds` keeps the number of groups, each group's length and command order. Pattern strings become `basic_success` checks; check functions pass through unchanged. |
| `BuildSoftware.ThreeStrikesAttempts` | pyhuman/app/workflows/build_software.py:14-18 | Under such a check and a retry budget of at least two, a command is typed at most three times. It never exhausts the retries, and fails only on its third typing. It is typed not at all only if the session raised. |
| `BuildSoftware.NeverSucceedingTypedThreeTimes` | pyhuman/app/workflows/build_software.py:14-18 | With the default `max_retries = 3`, a command whose check never succeeds is typed exactly three times and then fails permanently, unless the session raises first. |
| `BuildSoftware.DotStarSucceedsAtOnce` | pyhuman/app/workflows/build_software.py:38 | Given a search function that reports `.*` found in every output, `basic_success(".*")` answers "success" at once. The task then completes on its first typing with that output, or fails with no attempt if the session raised. |
| `BuildSoftware.ProjectChecksThreeStrikes` | pyhuman/app/workflows/build_software.py:36-143 | The table has twelve projects, and every check in it has the three-verdict shape above. |
| `BuildSoftware.GivenChecksAreTarball` | pyhuman/app/workflows/build_software.py:36-143 | Every check function written into the table is `tarball_check_contains(s)` for some string `s`, and so has the three-verdict shape. |
| `BuildSoftware.GroupNeverExhausts` | pyhuman/app/workflows/build_software.py:167-169 | Running a project's task list with the default budget never raises the exhausted-retries error. It types each started task at most three times, and not at all only when the session raised. |
| `BuildSoftware.Chosen` | pyhuman/app/workflows/build_software.py:165-166 | The chosen groups are the table entries at the drawn indices, in the order drawn. |
| `BuildSoftware.ChosenThreeStrikes` | pyhuman/app/workflows/build_software.py:165-167 | Every check of every chosen group has the three-verdict shape. |
| `BuildSoftware.BuildSoftwareAsWritten` | pyhuman/app/workflows/build_software.py:160-171 | As written, no command is ever typed. The call raises TypeError once the session has started, and the session is closed exactly when it was opened. |
| `BuildSoftware.BuildSoftware` | pyhuman/app/workflows/build_software.py:160-171 | With the intended call, the chosen groups run in order on one session until one raises, through a check failure or the session raising. The session is closed whenever it was opened. No group raises the exhausted-retries error. |
| `BuildSoftware.RunGroupsInOrder` | pyhuman/app/workflows/build_software.py:167-169 | The loop over groups runs each group after everything typed for the earlier ones, and stops at the first group that raises. |
| `HumanTyper.Utf8` | pyhuman/app/utility/human_typer.py:145 | `char.encode()` takes one to four bytes, and one byte equal to the code point for ASCII. It contains 0x7F only for U+007F. |
| `HumanTyper.QwertyNeighbors` | pyhuman/app/utility/human_typer.py:97-107 | `qwerty_neighbors.get(key)` gives a non-empty list of printable ASCII neighbours for each of the 39 keys in the table, and nothing for any other key. |
| `HumanTyper.Candidates` | pyhuman/app/utility/human_typer.py:97-125 | The typo candidates for a character are non-empty printable ASCII: the neighbours of its lower-case key, or a random lower-case letter. The key is `char.lower()`, which maps ASCII capitals and U+212A KELVIN SIGN into the table. |
| `HumanTyper.CapitalsUseLowerNeighbors` | pyhuman/app/utility/human_typer.py:124 | A capital letter takes the candidates of its lower-case letter, and the Kelvin sign those of 'k' ("jiolm"). |
| `HumanTyper.TypoChar` | pyhuman/app/utility/human_typer.py:125-127 | A typo character is printable ASCII, so its encoding is one byte and never a backspace. |
| `HumanTyper.TypoCharIsCandidate` | pyhuman/app/utility/human_typer.py:125-127 | A typo character is always one of the candidates for the intended character. |
| `HumanTyper.TypoBytesShape` | pyhuman/app/utility/human_typer.py:123-128 | A typo burst writes exactly one byte per typo, the typo character chosen by its pick, and never a backspace. |
| `HumanTyper.Dels` | pyhuman/app/utility/human_typer.py:134-136 | The backspace run holds exactly `typo_count` bytes, all 0x7F. |
| `HumanTyper.NoTypoKeys` | pyhuman/app/utility/human_typer.py:113-150 | When no typo fires, the bytes written are the command's characters, in order. |
| `HumanTyper.CharKeysErase` | pyhuman/app/utility/human_typer.py:118-145 | The keys for one character, with 0x7F read as delete-previous, leave exactly that character: the burst is erased by its own backspaces. |
| `HumanTyper.KeysErase` | pyhuman/app/utility/human_typer.py:113-150 | With 0x7F as delete-previous, the bytes for a command without U+007F reduce to the command itself, whatever typos fired. |
| `HumanTyper.TypedStreamReduces` | pyhuman/app/utility/human_typer.py:113-152 | The whole written stream, newline included, reduces to the command followed by one newline. |
| `HumanTyper.LastChange` | pyhuman/app/utility/human_typer.py:83-85 | `last_change` never lies after the current poll. |
| `HumanTyper.WaitMatched` | pyhuman/app/utility/human_typer.py:74-82 | A match is the first one: no earlier poll matched, and the timeout had not expired at any poll before it. |
| `HumanTyper.WaitTimedOut` | pyhuman/app/utility/human_typer.py:74-87 | A timeout comes only after no poll matched, and once `timeout` has passed since the last size change. |
| `HumanTyper.LastChangeIsLast` | pyhuman/app/utility/human_typer.py:83-85 | Every poll that saw the buffer's size change lies no later than `last_change`, so any change resets the window. |
| `HumanTyper.WaitTimeoutIsQuiet` | pyhuman/app/utility/human_typer.py:72-87 | When the wait times out, every growth of the buffer it saw lies at least `timeout` before the end, and no poll matched. |
| `HumanTyper.WaitEnds` | pyhuman/app/utility/human_typer.py:74-87 | The wait ends within the polls that bring data plus the number of 50 ms polls the timeout spans, rounded up. |
| `HumanTyper.AwaitSplitsBuffer` | pyhuman/app/utility/human_typer.py:89-93 | The returned bytes are the buffer up to the end of the first match. Returned and retained bytes together are the buffer at split time: nothing is dropped or duplicated. |
| `HumanTyper.NoTimeLeft` | pyhuman/app/utility/human_typer.py:72-87 | A timeout of zero or less raises before the first poll and leaves the buffer untouched. |
| `HumanTyper.HumanTyperShell.constructor` | pyhuman/app/utility/human_typer.py:35-40 | After the fork, the buffer is empty, nothing has been written, neither flag is set and the descriptor is open. |
| `HumanTyper.HumanTyperShell.Append` | pyhuman/app/utility/human_typer.py:60-61 | The reader adds data at the end of the buffer. |
| `HumanTyper.HumanTyperShell.Write` | pyhuman/app/utility/human_typer.py:128 | A write on the open pty adds its bytes to the end of the written log. |
| `HumanTyper.HumanTyperShell.ReadOutput` | pyhuman/app/utility/human_typer.py:52-66 | The reader only appends, in arrival order. It exits on the stop flag (reading nothing), on an empty read, or on a read error. |
| `HumanTyper.HumanTyperShell.PollForPrompt` | pyhuman/app/utility/human_typer.py:71-87 | The polling loop ends as the specification `WaitFrom` does, with the buffer as its last poll saw it. |
| `HumanTyper.HumanTyperShell.WaitForPrompt` | pyhuman/app/utility/human_typer.py:68-93 | Result and retained buffer are those of the specification `Await`: `buffer[:end]` returned and `buffer[end:]` kept after a match, and TimeoutError otherwise. |
| `HumanTyper.HumanTyperShell.TypeTypos` | pyhuman/app/utility/human_typer.py:123-128 | The typo burst writes one candidate character per typo. |
| `HumanTyper.HumanTyperShell.TypeDels` | pyhuman/app/utility/human_typer.py:134-136 | The burst is followed by as many 0x7F bytes as typos. |
| `HumanTyper.HumanTyperShell.TypeChar` | pyhuman/app/utility/human_typer.py:115-149 | One character writes its optional burst and backspaces, then the character itself. It is typed only while `suppress_output` is true. |
| `HumanTyper.HumanTyperShell.TypeKeys` | pyhuman/app/utility/human_typer.py:113-150 | The typing loop writes the keys for every character, in order. It runs only while `suppress_output` is true. |
| `HumanTyper.HumanTyperShell.TypeCommand` | pyhuman/app/utility/human_typer.py:96-157 | It empties the buffer first and writes the keys plus one newline. `suppress_output` is true while the keys are written (the typing methods require it), and false before the prompt wait, which uses `prompt_timeout`. The result never contains bytes from before the call. On a closed pty it raises `OSError`, with the buffer emptied and `suppress_output` left true. |
| `HumanTyper.HumanTyperShell.Close` | pyhuman/app/utility/human_typer.py:160-167 | Close sets `stop` and writes "exit\n" if the pty is open. A second close raises `OSError`. |
| `HumanTyper.Open` | pyhuman/app/utility/human_typer.py:42-50 | The startup wait uses the 10 s default, not `prompt_timeout`. Its timeout becomes a RuntimeError; otherwise the session starts open, with nothing written. |
| `BaseWorkflow.BitAndSelf` | pyhuman/app/utility/base_workflow.py:109-117 | `x & x == x`, so passing the current integrity leaves it unchanged. |
| `BaseWorkflow.BitAndBelow` | pyhuman/app/utility/base_workflow.py:55-56 | ANDing into a non-negative integrity never raises it nor makes it negative. |
| `BaseWorkflow.BitAndFlags` | pyhuman/app/utility/base_workflow.py:55-56 | On 0/1 flags, `&` is logical AND. |
| `BaseWorkflow.IntegrityNeverRises` | pyhuman/app/utility/base_workflow.py:55-56 | Over any sequence of `_log` calls, integrity starting non-negative only goes down. |
| `BaseWorkflow.ZeroIsFinal` | pyhuman/app/utility/base_workflow.py:55-56 | Once integrity is 0 it stays 0. |
| `BaseWorkflow.IntegrityIsConjunction` | pyhuman/app/utility/base_workflow.py:33-56 | Starting from 1 with 0/1 arguments, integrity ends at 0 iff some call passed 0. |
| `BaseWorkflow.Entry` | pyhuman/app/utility/base_workflow.py:63-76 | The entry always has the six base keys. It has `integrity` iff an integrity was given, and `step_name` iff a step name was given, with those values. |
| `BaseWorkflow.StepFormIff` | pyhuman/app/utility/base_workflow.py:82-85 | The console line takes the step form iff the step name is truthy. An empty step name gets the workflow form, though its entry still has a `step_name` key. |
| `BaseWorkflow.OrDefault` | pyhuman/app/utility/base_workflow.py:89-90 | An empty message is replaced by the default; a non-empty one is kept. |
| `BaseWorkflow.DefaultsNameTheirSubject` | pyhuman/app/utility/base_workflow.py:88-117 | Each default message names its step or workflow (and description), and the success and error defaults differ. |
| `BaseWorkflow.Display` | pyhuman/app/utility/base_workflow.py:22-24 | `display` is "Running Task: " followed by exactly the description. |
| `BaseWorkflow.DisplayInjective` | pyhuman/app/utility/base_workflow.py:22-24 | Different descriptions display differently. |
| `BaseWorkflow.BaseWorkflow.constructor` | pyhuman/app/utility/base_workflow.py:28-33 | Integrity starts at 1, with nothing logged or printed. |
| `BaseWorkflow.BaseWorkflow.Cleanup` | pyhuman/app/utility/base_workflow.py:39-42 | Without a driver nothing happens; with one, `driver.cleanup()` is called once. |
| `BaseWorkflow.BaseWorkflow.Log` | pyhuman/app/utility/base_workflow.py:45-85 | Integrity is updated before the status check. An invalid status raises ValueError and logs nothing; a valid one logs the entry and prints the console line. |
| `BaseWorkflow.BaseWorkflow.LogStepStart` | pyhuman/app/utility/base_workflow.py:88-91 | It logs the step's start with the default message if none is given, and never changes integrity. |
| `BaseWorkflow.BaseWorkflow.LogStepSuccess` | pyhuman/app/utility/base_workflow.py:93-96 | It logs the step's success, with the default message if none is given, and ANDs in the given integrity. |
| `BaseWorkflow.BaseWorkflow.LogStepError` | pyhuman/app/utility/base_workflow.py:98-101 | It logs the step's error, with the default message if none is given, and ANDs in the given integrity. |
| `BaseWorkflow.BaseWorkflow.LogWorkflowStart` | pyhuman/app/utility/base_workflow.py:104-107 | It logs the workflow's start with the default message built from name and description, and never changes integrity. |
| `BaseWorkflow.BaseWorkflow.LogWorkflowSuccess` | pyhuman/app/utility/base_workflow.py:109-112 | It logs success with the current integrity in the entry, and leaves integrity unchanged. |
| `BaseWorkflow.BaseWorkflow.LogWorkflowError` | pyhuman/app/utility/base_workflow.py:114-117 | It logs the error with the current integrity in the entry, and leaves integrity unchanged. |
| `MetricWorkflow.CheckExternalIntegrity` | pyhuman/app/utility/metric_workflow.py:99-103 | The result is 0 iff the text contains "pwned" or "pwnd", else 1. The test is case-sensitive. |
| `MetricWorkflow.CheckIntegrity` | pyhuman/app/utility/metric_workflow.py:105-113 | The same screen runs over the lower-cased page source. |
| `MetricWorkflow.CaseMatters` | pyhuman/app/utility/metric_workflow.py:99-113 | "PWNED" passes the external screen but fails the page check. |
| `MetricWorkflow.FlaggedAnywhere` | pyhuman/app/utility/metric_workflow.py:99-103 | "pwned" or "pwnd" anywhere in the text gives 0. |
| `MetricWorkflow.MetricWorkflow.constructor` | pyhuman/app/utility/metric_workflow.py:25-27 | Integrity starts at 1, with nothing logged. |
| `MetricWorkflow.MetricWorkflow.Log` | pyhuman/app/utility/metric_workflow.py:29-64 | Integrity is updated before the status check. An invalid status raises and logs nothing; a valid one logs a blank record and then the entry, and prints nothing. |
| `MetricWorkflow.MetricWorkflow.LogStepStart` | pyhuman/app/utility/metric_workflow.py:68-71 | It logs the step's start with the default message if none is given, and never changes integrity. |
| `MetricWorkflow.MetricWorkflow.LogStepSuccess` | pyhuman/app/utility/metric_workflow.py:73-76 | It logs the step's success, with the default message if none is given, and ANDs in the given integrity. |
| `MetricWorkflow.MetricWorkflow.LogStepError` | pyhuman/app/utility/metric_workflow.py:78-81 | It logs the step's error, with the default message if none is given, and ANDs in the given integrity. |
| `MetricWorkflow.MetricWorkflow.LogWorkflowStart` | pyhuman/app/utility/metric_workflow.py:84-87 | It logs the workflow's start with the default message, and never changes integrity. |
| `MetricWorkflow.MetricWorkflow.LogWorkflowSuccess` | pyhuman/app/utility/metric_workflow.py:89-92 | It logs success with the current integrity, and leaves integrity unchanged. |
| `MetricWorkflow.MetricWorkflow.LogWorkflowError` | pyhuman/app/utility/metric_workflow.py:94-97 | It logs the error with the current integrity, and leaves integrity unchanged. |
| `Moodle.StopsBound` | pyhuman/app/workflows/moodle.py:67-78 | The loop examines increasing indices inside the list, each keyword moving on by 2 and any other token by 1. It ends after at most `len(extra)` iterations. |
| `Moodle.NoPassfileKeepsLogin` | pyhuman/app/workflows/moodle.py:64-78 | Without a "passfile" token among those the loop reaches, user name and password are untouched. |
| `Moodle.NoRolesKeepsRoles` | pyhuman/app/workflows/moodle.py:74-78 | Without a "user_roles" token among those the loop reaches, the roles are untouched by the scan. |
| `Moodle.RolesResetEachCall` | pyhuman/app/workflows/moodle.py:64-78 | The roles are reset on every call, including when `extra` is None, so when the loop reaches no "user_roles" token they end empty. |
| `Moodle.LastRolesWin` | pyhuman/app/workflows/moodle.py:74-76 | The last "user_roles" token the loop reaches sets the roles to the next token split on ",". A "user_roles" token skipped as another keyword's argument does not count. This holds even if a later token raises. |
| `Moodle.LastPassfileWins` | pyhuman/app/workflows/moodle.py:69-73 | The last "passfile" token the loop reaches sets user name and password to the first two stripped lines of its file. A "passfile" token skipped as another keyword's argument does not count. |
| `Moodle.FinalKeywordRaises` | pyhuman/app/workflows/moodle.py:68-76 | A keyword reached as the final token makes the call raise. |
| `Moodle.MoodleBrowse.constructor` | pyhuman/app/workflows/moodle.py:37-41 | The defaults are "jdh", "jdhpass" and ["admin"]. |
| `Moodle.MoodleBrowse.GetCreds` | pyhuman/app/workflows/moodle.py:64-78 | Credentials, roles and error are those of the specification `GetCredsSpec`. A missing `extra` raises TypeError after the reset, and a final keyword raises IndexError. A file that cannot be opened raises, keeping the updates made so far. |

## Left out

- Pty and process plumbing are not modelled: `pty.fork`, `os.execvp`, `select`, `os.read`, `os.write`, `os.close` and the `live_echo` output to standard output (the reader's mirror of the shell's output and the typist's echo of its own keys). The pty is a byte log, and reads are given as data.
- The reader thread and the lock are not modelled as real concurrency. The reader's appends are given per poll of the prompt wait. `ReadOutput` reads the stop flag as it is when called.
- `time.sleep`, `time.time`, `keystroke_delay_fn`, the 3% typo probability and `random.choice`/`random.sample`/`random.randint` are left out. Time counts 50 ms polls, and every random decision is a parameter.
- The regular-expression engine is left out. The prompt regex is a search function returning where its first match ends, and `re.search` is a predicate parameter.
- HumanTyper.HumanTyperShell.WaitForPrompt: returns the bytes cut from the buffer. The final `decode(errors='ignore')` to text is not modelled, and the executor's shell oracle returns text directly.
- ShellInteract.RunShellCommandsWithChecks: when `type_command` raises, the model does not say which exception it was (`TimeoutError` or `OSError`). The run ends with `SessionFailed`, naming the command being typed.
- ShellInteract.RunShellCommandsWithChecks: the check receives the command rather than the whole task dictionary, whose only other entry is the check itself.
- BuildSoftware.BuildSoftware: the session (with `prompt_timeout=180.0` and `live_echo=True`) is the executor's shell oracle, and only whether its startup succeeded is a parameter.
- MetricWorkflow.CheckIntegrity: lower-cases ASCII letters only, not every Unicode letter as `str.lower` does.
- Moodle.MoodleBrowse.GetCreds: `readline().strip()` is modelled on the file's text split at '\n' only. Python's text-mode reading also ends a line at a lone '\r', which `Moodle.Line` does not. Only the listed whitespace characters are stripped, and decoding errors of the file are not modelled.
- MetricWorkflow.CheckExternalIntegrity: the message printed when the screen finds a suspicious term is not modelled. Only the returned flag is.
- HumanTyper.HumanTyperShell.Close: the bounded `join` of the reader thread is not modelled.
- `MetricWorkflow` inherits `display` and `cleanup` from `BaseWorkflow`. They are modelled once, on `BaseWorkflow`.
- Logging output is not modelled: the JSON text, `datetime.utcnow`, the host name and the process id. Entries are key/value maps, and the clock, host and pid values are a parameter.
- The Selenium-driven workflows, the rest of `moodle.py`, the web-driver helper and the top-level scheduler in `human.py` are not part of this model. They are thin wrappers over a browser library that is not shown.

## Findings

| source | as written | input that shows it | evidently intended | confidence | as-written member | corrected member |
|---|---|---|---|---|---|---|
| pyhuman/app/workflows/build_software.py:168-169 | `run_shell_commands_with_checks(shell, task_group, step_logger=self)`, but the function takes no `step_logger` parameter (pyhuman/app/utility/shell_interact.py:26-30) | any call of `build_software` whose session starts: the first group's call raises TypeError before any command is typed, then the session is closed | run each chosen group: `run_shell_commands_with_checks(shell, task_group)` | not executed | `BuildSoftware.BuildSoftwareAsWritten` | `BuildSoftware.BuildSoftware` |
