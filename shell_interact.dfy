/** The retry-driven command executor (`run_shell_commands_with_checks`).
    The shell session is an oracle: the text `type_command` returns for a
    command, given every command typed on that session before it, or
    nothing when `type_command` raises. A check callback turns (command,
    output, fail_count) into a verdict string. */
module ShellInteract {
  import opened Wrappers
  import Text

  const Success := "success"
  const Retry := "retry"

  /** The default `max_retries` of the executor. */
  const DefaultMaxRetries := 3

  /** A check callback: the command, the output it produced, and the number of
      "retry" verdicts already given for this task; it returns a verdict. */
  type Check = (string, string, int) -> string

  datatype CommandTask = CommandTask(command: string, check: Check)

  /** The output of typing a command, given every command typed before it on
      the same session; `None` when `type_command` raises instead (the
      prompt did not appear within `prompt_timeout`, or the pty is closed). */
  type Shell = (seq<string>, string) -> Option<string>

  /** One typing of a command and the verdict the check gave on its output. */
  datatype Attempt = Attempt(command: string, output: string, failCount: int, verdict: string)

  /** How a task, or a whole run, ends: normally, with one of the executor's
      two RuntimeErrors, or with the exception `type_command` raised while
      typing `command`, which leaves the executor unhandled. */
  datatype Outcome =
    | Completed
    | RetriesExhausted(command: string, output: string)
    | PermanentFailure(command: string, output: string)
    | SessionFailed(command: string)

  /** The attempts made for one task and how the task ended. */
  datatype TaskRun = TaskRun(attempts: seq<Attempt>, outcome: Outcome)

  /** The attempts made for each task that was started, in list order, and how the run ended. */
  datatype Trace = Trace(runs: seq<seq<Attempt>>, outcome: Outcome)

  function Commands(attempts: seq<Attempt>): (r: seq<string>)
    ensures |r| == |attempts|
    ensures forall k :: 0 <= k < |attempts| ==> r[k] == attempts[k].command
  {
    seq(|attempts|, k requires 0 <= k < |attempts| => attempts[k].command)
  }

  /** Every command typed during the given runs, in order. */
  function Typed(runs: seq<seq<Attempt>>): seq<string>
    decreases |runs|
  {
    if runs == [] then [] else Typed(runs[..|runs| - 1]) + Commands(runs[|runs| - 1])
  }

  function Repeat(s: string, n: nat): (r: seq<string>)
    ensures |r| == n && forall k :: 0 <= k < n ==> r[k] == s
  {
    seq(n, _ => s)
  }

  function Last<T>(s: seq<T>): T
    requires s != []
  {
    s[|s| - 1]
  }

  /** The inner `while True` loop for one task, entered with `failCount`
      retries already spent and `history` typed on the session before. */
  function RunTask(shell: Shell, history: seq<string>, task: CommandTask, maxRetries: int, failCount: nat): TaskRun
    decreases if failCount <= maxRetries then maxRetries - failCount + 1 else 0
  {
    match shell(history, task.command)
    case None => TaskRun([], SessionFailed(task.command))
    case Some(output) =>
      var verdict := task.check(task.command, output, failCount);
      var attempt := Attempt(task.command, output, failCount, verdict);
      if verdict == Success then
        TaskRun([attempt], Completed)
      else if verdict == Retry then
        if failCount + 1 > maxRetries then
          TaskRun([attempt], RetriesExhausted(task.command, output))
        else
          var rest := RunTask(shell, history + [task.command], task, maxRetries, failCount + 1);
          TaskRun([attempt] + rest.attempts, rest.outcome)
      else
        TaskRun([attempt], PermanentFailure(task.command, output))
  }

  /** The outer `for task in tasks` loop: each task from a fresh `fail_count`,
      stopping at the first task that does not complete. */
  function Run(shell: Shell, history: seq<string>, tasks: seq<CommandTask>, maxRetries: int): Trace
    decreases |tasks|
  {
    if tasks == [] then
      Trace([], Completed)
    else
      var first := RunTask(shell, history, tasks[0], maxRetries, 0);
      if first.outcome.Completed? then
        var rest := Run(shell, history + Commands(first.attempts), tasks[1..], maxRetries);
        Trace([first.attempts] + rest.runs, rest.outcome)
      else
        Trace([first.attempts], first.outcome)
  }

  /** The text of the RuntimeError the executor raises. */
  function ErrorMessage(outcome: Outcome, maxRetries: int): (m: string)
    requires outcome.RetriesExhausted? || outcome.PermanentFailure?
    ensures Text.Occurs(outcome.command, m) && Text.Occurs(outcome.output, m)
  {
    match outcome
    case RetriesExhausted(command, output) =>
      var m := "Command failed after " + Text.IntToString(maxRetries) + " retries: " + command + "\nLast output:\n" + output;
      Mentions("Command failed after " + Text.IntToString(maxRetries) + " retries: ", command, "\nLast output:\n", output);
      m
    case PermanentFailure(command, output) =>
      var m := "Command permanently failed: " + command + "\nOutput:\n" + output;
      Mentions("Command permanently failed: ", command, "\nOutput:\n", output);
      m
  }

  /** A message built as head + command + middle + output mentions both the command and the output. */
  lemma Mentions(head: string, command: string, middle: string, output: string)
    ensures Text.Occurs(command, head + command + middle + output)
    ensures Text.Occurs(output, head + command + middle + output)
  {
    assert head + command + middle + output == head + command + (middle + output);
    Text.OccursInMiddle(head, command, middle + output);
    assert head + command + middle + output == (head + command + middle) + output + "";
    Text.OccursInMiddle(head + command + middle, output, "");
  }

  /** `run_shell_commands_with_checks(shell, tasks, max_retries)`: the attempts
      made for each started task and how the run ended; a RuntimeError is the
      outcome RetriesExhausted or PermanentFailure (see ErrorMessage), and
      SessionFailed is an exception of `type_command` passing through. */
  method RunShellCommandsWithChecks(shell: Shell, history: seq<string>, tasks: seq<CommandTask>, maxRetries: int)
    returns (runs: seq<seq<Attempt>>, outcome: Outcome)
    ensures Trace(runs, outcome) == Run(shell, history, tasks, maxRetries)
  {
    runs := [];
    var typed := history;
    for i := 0 to |tasks|
      invariant Run(shell, history, tasks, maxRetries) == Glue(runs, Run(shell, typed, tasks[i..], maxRetries))
    {
      assert tasks[i..][0] == tasks[i] && tasks[i..][1..] == tasks[i + 1..];
      var attempts;
      attempts, outcome := RunOneTask(shell, typed, tasks[i], maxRetries);
      runs := runs + [attempts];
      if !outcome.Completed? {
        return;
      }
      typed := typed + Commands(attempts);
    }
    outcome := Completed;
  }

  /** The body of the `for` loop for one task: `fail_count = 0` and the
      `while True` loop that types the command until a verdict ends it. */
  method RunOneTask(shell: Shell, typed: seq<string>, task: CommandTask, maxRetries: int)
    returns (attempts: seq<Attempt>, outcome: Outcome)
    ensures TaskRun(attempts, outcome) == RunTask(shell, typed, task, maxRetries, 0)
  {
    var failCount: nat := 0;
    attempts := [];
    assert typed + Commands(attempts) == typed;
    assert Prepend(attempts, RunTask(shell, typed, task, maxRetries, 0)) == RunTask(shell, typed, task, maxRetries, 0);
    while true
      invariant failCount == |attempts|
      invariant failCount == 0 || failCount <= maxRetries
      invariant RunTask(shell, typed, task, maxRetries, 0)
             == Prepend(attempts, RunTask(shell, typed + Commands(attempts), task, maxRetries, failCount))
      decreases if failCount <= maxRetries then maxRetries - failCount + 1 else 0
    {
      var before := typed + Commands(attempts);
      var typedOutput := shell(before, task.command);
      if typedOutput.None? {
        assert attempts + [] == attempts;
        outcome := SessionFailed(task.command);
        return;
      }
      var output := typedOutput.value;
      var result := task.check(task.command, output, failCount);
      ghost var done := attempts;
      var attempt := Attempt(task.command, output, failCount, result);
      attempts := attempts + [attempt];
      assert Commands(attempts) == Commands(done) + [task.command];
      if result == Success {
        outcome := Completed;
        return;
      } else if result == Retry {
        if failCount + 1 <= maxRetries {
          ghost var rest := RunTask(shell, before + [task.command], task, maxRetries, failCount + 1);
          assert RunTask(shell, before, task, maxRetries, failCount) == TaskRun([attempt] + rest.attempts, rest.outcome);
          Text.AppendAssoc(done, [attempt], rest.attempts);
          Text.AppendAssoc(typed, Commands(done), [task.command]);
        }
        failCount := failCount + 1;
        if failCount > maxRetries {
          outcome := RetriesExhausted(task.command, output);
          return;
        }
      } else {
        outcome := PermanentFailure(task.command, output);
        return;
      }
    }
  }

  /** Attempt k of a task types the same command on top of the history and k
      earlier copies of it, the check receives the number of "retry" verdicts
      already given for the task, and every attempt but the last was a retry. */
  lemma {:induction false} RunTaskAttempt(shell: Shell, history: seq<string>, task: CommandTask, maxRetries: int, failCount: nat, k: nat)
    requires k < |RunTask(shell, history, task, maxRetries, failCount).attempts|
    ensures var a := RunTask(shell, history, task, maxRetries, failCount).attempts;
      && a[k].command == task.command
      && shell(history + Repeat(task.command, k), task.command) == Some(a[k].output)
      && a[k].failCount == failCount + k
      && a[k].verdict == task.check(task.command, a[k].output, failCount + k)
      && (k < |a| - 1 ==> a[k].verdict == Retry)
    decreases k
  {
    if k == 0 {
      assert history + Repeat(task.command, 0) == history;
    } else {
      var h' := history + [task.command];
      RunTaskAttempt(shell, h', task, maxRetries, failCount + 1, k - 1);
      assert history + Repeat(task.command, k) == h' + Repeat(task.command, k - 1);
    }
  }

  /** A task ends after at most `max_retries + 1` attempts; it completes
      exactly when its last verdict is "success", exhausts its retries
      exactly when the last verdict is "retry" and the session did not fail
      (the retry that went over the budget), and the executor's errors carry
      the command and the last output. Only a failing session can end a task
      before any attempt. */
  lemma {:induction false} RunTaskEnd(shell: Shell, history: seq<string>, task: CommandTask, maxRetries: int, failCount: nat)
    ensures var r := RunTask(shell, history, task, maxRetries, failCount);
      && (r.attempts == [] ==> r.outcome.SessionFailed?)
      && (|r.attempts| <= 1 || failCount + |r.attempts| - 1 <= maxRetries)
      && (r.outcome.Completed? <==> r.attempts != [] && Last(r.attempts).verdict == Success)
      && (r.outcome.RetriesExhausted? <==> r.attempts != [] && !r.outcome.SessionFailed? && Last(r.attempts).verdict == Retry)
      && (r.outcome.RetriesExhausted? ==> failCount + |r.attempts| > maxRetries)
      && (r.outcome.RetriesExhausted? || r.outcome.PermanentFailure? ==>
            r.attempts != [] && r.outcome.command == task.command && r.outcome.output == Last(r.attempts).output)
    decreases if failCount <= maxRetries then maxRetries - failCount + 1 else 0
  {
    match shell(history, task.command)
    case None =>
    case Some(output) =>
      var verdict := task.check(task.command, output, failCount);
      if verdict == Retry && failCount + 1 <= maxRetries {
        RunTaskEnd(shell, history + [task.command], task, maxRetries, failCount + 1);
      }
  }

  /** A task that ends with the session's exception raised it while typing the
      command once more after all its recorded attempts, every one of which
      got "retry" within the budget, and the exception names that command. */
  lemma {:induction false} SessionAfterRetries(shell: Shell, history: seq<string>, task: CommandTask, maxRetries: int, failCount: nat)
    ensures var r := RunTask(shell, history, task, maxRetries, failCount);
      r.outcome.SessionFailed? ==>
        && r.outcome.command == task.command
        && shell(history + Repeat(task.command, |r.attempts|), task.command) == None
        && (r.attempts == [] || (failCount + |r.attempts| <= maxRetries && Last(r.attempts).verdict == Retry))
    decreases if failCount <= maxRetries then maxRetries - failCount + 1 else 0
  {
    var r := RunTask(shell, history, task, maxRetries, failCount);
    match shell(history, task.command)
    case None =>
      assert history + Repeat(task.command, 0) == history;
    case Some(output) =>
      var verdict := task.check(task.command, output, failCount);
      if verdict == Retry && failCount + 1 <= maxRetries {
        var h' := history + [task.command];
        var rest := RunTask(shell, h', task, maxRetries, failCount + 1);
        SessionAfterRetries(shell, h', task, maxRetries, failCount + 1);
        assert r.attempts == [Attempt(task.command, output, failCount, verdict)] + rest.attempts;
        assert history + Repeat(task.command, |r.attempts|) == h' + Repeat(task.command, |rest.attempts|);
      }
  }

  /** A check that answers "retry" to every output makes the executor type the
      command exactly `max_retries + 1` times (once when `max_retries` is
      negative) and then raise; there is never a further attempt. Only the
      session's own exception can end it sooner. */
  lemma {:induction false} AlwaysRetryAttempts(shell: Shell, history: seq<string>, task: CommandTask, maxRetries: int, failCount: nat)
    requires forall output, n :: task.check(task.command, output, n) == Retry
    ensures var r := RunTask(shell, history, task, maxRetries, failCount);
      var budget := if failCount <= maxRetries then maxRetries - failCount + 1 else 1;
      && (r.outcome.RetriesExhausted? || r.outcome.SessionFailed?)
      && (r.outcome.RetriesExhausted? ==>
            |r.attempts| == budget && r.outcome == RetriesExhausted(task.command, Last(r.attempts).output))
      && (r.outcome.SessionFailed? ==> |r.attempts| < budget)
    decreases if failCount <= maxRetries then maxRetries - failCount + 1 else 0
  {
    if shell(history, task.command).Some? && failCount + 1 <= maxRetries {
      AlwaysRetryAttempts(shell, history + [task.command], task, maxRetries, failCount + 1);
    }
  }

  /** The run of task j is that task's own loop, started from `fail_count = 0`
      after everything typed for tasks 0..j-1, and every task before the last
      one started completed. */
  lemma {:induction false} RunAt(shell: Shell, history: seq<string>, tasks: seq<CommandTask>, maxRetries: int, j: nat)
    requires j < |Run(shell, history, tasks, maxRetries).runs|
    ensures var t := Run(shell, history, tasks, maxRetries);
      && j < |tasks|
      && t.runs[j] == RunTask(shell, history + Typed(t.runs[..j]), tasks[j], maxRetries, 0).attempts
      && (j < |t.runs| - 1 ==> RunTask(shell, history + Typed(t.runs[..j]), tasks[j], maxRetries, 0).outcome.Completed?)
    decreases j
  {
    var t := Run(shell, history, tasks, maxRetries);
    var first := RunTask(shell, history, tasks[0], maxRetries, 0);
    if j == 0 {
      assert history + Typed(t.runs[..0]) == history;
    } else {
      var h' := history + Commands(first.attempts);
      var rest := Run(shell, h', tasks[1..], maxRetries);
      assert t == Trace([first.attempts] + rest.runs, rest.outcome);
      RunAt(shell, h', tasks[1..], maxRetries, j - 1);
      TypedPrefix(first.attempts, rest.runs, j - 1);
      Text.AppendAssoc(history, Commands(first.attempts), Typed(rest.runs[..j - 1]));
      assert tasks[j] == tasks[1..][j - 1];
      assert RunTask(shell, history + Typed(t.runs[..j]), tasks[j], maxRetries, 0)
          == RunTask(shell, h' + Typed(rest.runs[..j - 1]), tasks[1..][j - 1], maxRetries, 0);
    }
  }

  /** A run starts one task at least (when there is one) and no more than the
      list holds; it completes exactly when every task was started and the
      last one completed; otherwise its error is that of the last task started. */
  lemma {:induction false} RunLength(shell: Shell, history: seq<string>, tasks: seq<CommandTask>, maxRetries: int)
    ensures var t := Run(shell, history, tasks, maxRetries);
      && |t.runs| <= |tasks|
      && (tasks != [] <==> t.runs != [])
      && (t.outcome.Completed? ==> |t.runs| == |tasks|)
    decreases |tasks|
  {
    if tasks != [] {
      var first := RunTask(shell, history, tasks[0], maxRetries, 0);
      if first.outcome.Completed? {
        RunLength(shell, history + Commands(first.attempts), tasks[1..], maxRetries);
      }
    }
  }

  lemma {:induction false} RunEnd(shell: Shell, history: seq<string>, tasks: seq<CommandTask>, maxRetries: int)
    ensures var t := Run(shell, history, tasks, maxRetries);
      && |t.runs| <= |tasks|
      && (tasks != [] <==> t.runs != [])
      && (t.outcome.Completed? <==> |t.runs| == |tasks| && (t.runs != [] ==>
            RunTask(shell, history + Typed(t.runs[..|t.runs| - 1]), tasks[|t.runs| - 1], maxRetries, 0).outcome.Completed?))
      && (!t.outcome.Completed? ==>
            t.outcome == RunTask(shell, history + Typed(t.runs[..|t.runs| - 1]), tasks[|t.runs| - 1], maxRetries, 0).outcome)
    decreases |tasks|
  {
    if tasks != [] {
      var t := Run(shell, history, tasks, maxRetries);
      var first := RunTask(shell, history, tasks[0], maxRetries, 0);
      if !first.outcome.Completed? {
        assert t == Trace([first.attempts], first.outcome);
        assert t.runs[..0] == [];
        assert history + Typed([]) == history;
      } else {
        var h' := history + Commands(first.attempts);
        var rest := Run(shell, h', tasks[1..], maxRetries);
        assert t == Trace([first.attempts] + rest.runs, rest.outcome);
        RunLength(shell, h', tasks[1..], maxRetries);
        RunEnd(shell, h', tasks[1..], maxRetries);
        if rest.runs != [] {
          var n := |rest.runs| - 1;
          TypedPrefix(first.attempts, rest.runs, n);
          Text.AppendAssoc(history, Commands(first.attempts), Typed(rest.runs[..n]));
          assert tasks[n + 1] == tasks[1..][n];
          assert RunTask(shell, history + Typed(t.runs[..n + 1]), tasks[n + 1], maxRetries, 0)
              == RunTask(shell, h' + Typed(rest.runs[..n]), tasks[1..][n], maxRetries, 0);
        } else {
          assert t.runs[..0] == [];
          assert history + Typed([]) == history;
        }
      }
    }
  }

  /** Tasks run in list order; every task started before the last one ended
      with "success"; no task after a failing one is typed; a normal return
      means every task's last verdict was "success"; and an error is the one
      raised by the last task started, carrying its command and, for the
      executor's own errors, its last output. */
  lemma RunShape(shell: Shell, history: seq<string>, tasks: seq<CommandTask>, maxRetries: int)
    ensures var t := Run(shell, history, tasks, maxRetries);
      && |t.runs| <= |tasks|
      && (forall j, k :: 0 <= j < |t.runs| && 0 <= k < |t.runs[j]| ==> j < |tasks| && t.runs[j][k].command == tasks[j].command)
      && (forall j :: 0 <= j < |t.runs| - 1 ==> t.runs[j] != [] && Last(t.runs[j]).verdict == Success)
      && (t.outcome.Completed? <==>
            |t.runs| == |tasks| && forall j :: 0 <= j < |t.runs| ==> t.runs[j] != [] && Last(t.runs[j]).verdict == Success)
      && (!t.outcome.Completed? ==> t.runs != [] && t.outcome.command == tasks[|t.runs| - 1].command)
      && (t.outcome.RetriesExhausted? || t.outcome.PermanentFailure? ==>
            t.runs != [] && t.runs[|t.runs| - 1] != [] && t.outcome.output == Last(t.runs[|t.runs| - 1]).output)
  {
    var t := Run(shell, history, tasks, maxRetries);
    RunEnd(shell, history, tasks, maxRetries);
    forall j | 0 <= j < |t.runs|
      ensures j < |tasks|
      ensures forall k :: 0 <= k < |t.runs[j]| ==> t.runs[j][k].command == tasks[j].command
      ensures j < |t.runs| - 1 ==> t.runs[j] != [] && Last(t.runs[j]).verdict == Success
      ensures j == |t.runs| - 1 ==> (t.runs[j] != [] && Last(t.runs[j]).verdict == Success <==>
                RunTask(shell, history + Typed(t.runs[..j]), tasks[j], maxRetries, 0).outcome.Completed?)
      ensures j == |t.runs| - 1 && !t.outcome.Completed? ==> t.outcome.command == tasks[j].command
      ensures j == |t.runs| - 1 && (t.outcome.RetriesExhausted? || t.outcome.PermanentFailure?) ==>
                t.runs[j] != [] && t.outcome.output == Last(t.runs[j]).output
    {
      RunAt(shell, history, tasks, maxRetries, j);
      var h := history + Typed(t.runs[..j]);
      RunTaskEnd(shell, h, tasks[j], maxRetries, 0);
      SessionAfterRetries(shell, h, tasks[j], maxRetries, 0);
      forall k | 0 <= k < |t.runs[j]|
        ensures t.runs[j][k].command == tasks[j].command
      {
        RunTaskAttempt(shell, h, tasks[j], maxRetries, 0, k);
      }
    }
  }

  lemma {:induction false} TypedPrefix(first: seq<Attempt>, rest: seq<seq<Attempt>>, n: nat)
    requires n <= |rest|
    ensures Typed(([first] + rest)[..n + 1]) == Commands(first) + Typed(rest[..n])
    decreases n
  {
    if n == 0 {
      assert ([first] + rest)[..1] == [first];
      assert [first][..0] == [];
    } else {
      TypedPrefix(first, rest, n - 1);
      assert ([first] + rest)[..n + 1][..n] == ([first] + rest)[..n];
      assert rest[..n][..n - 1] == rest[..n - 1];
    }
  }

  /** A session that answers every command with "ok: <command>" and a prompt. */
  function OkShell(history: seq<string>, command: string): Option<string> {
    Some("ok: " + command + "\nprompt$ ")
  }

  /** A check that wants "ok:" in the output and otherwise asks for a retry. */
  function WantsOk(command: string, output: string, failCount: int): string {
    if Text.Contains(output, "ok:") then Success else Retry
  }

  /** The end-to-end scenario: with OkShell, the WantsOk check, `max_retries = 3`
      and two commands, each command is typed once and the run completes. */
  lemma TwoCommandsSucceedOnce()
    ensures var t := Run(OkShell, [], [CommandTask("ls", WantsOk), CommandTask("pwd", WantsOk)], DefaultMaxRetries);
      t.outcome == Completed && |t.runs| == 2 && |t.runs[0]| == 1 && |t.runs[1]| == 1
  {
    var ls, pwd := CommandTask("ls", WantsOk), CommandTask("pwd", WantsOk);
    assert Text.StartsWith(OkShell([], "ls").value, "ok:");
    assert Text.StartsWith(OkShell(["ls"], "pwd").value, "ok:");
    var first := RunTask(OkShell, [], ls, DefaultMaxRetries, 0);
    assert first == TaskRun([Attempt("ls", OkShell([], "ls").value, 0, Success)], Completed);
    assert [] + Commands(first.attempts) == ["ls"];
    assert [ls, pwd][1..] == [pwd];
    var second := RunTask(OkShell, ["ls"], pwd, DefaultMaxRetries, 0);
    assert second == TaskRun([Attempt("pwd", OkShell(["ls"], "pwd").value, 0, Success)], Completed);
    assert [pwd][1..] == [];
    assert Run(OkShell, ["ls"], [pwd], DefaultMaxRetries) == Trace([second.attempts], Completed);
  }

  function Glue(runs: seq<seq<Attempt>>, rest: Trace): Trace {
    Trace(runs + rest.runs, rest.outcome)
  }

  function Prepend(attempts: seq<Attempt>, rest: TaskRun): TaskRun {
    TaskRun(attempts + rest.attempts, rest.outcome)
  }
}
