/** The software-build workflow: its two check constructors, the `cmds`
    builder, the table of projects and the loop that runs one or two of them
    on one shell session. Regular-expression search is a parameter. */
module BuildSoftware {
  import opened ShellInteract
  import Text

  /** `re.search(pattern, output)` found a match. */
  type Search = (string, string) -> bool

  const Fail := "fail"

  /** The verdict shape of both checks of this file: "success", or otherwise
      "retry" while fewer than two retries were given and "fail" after that. */
  ghost predicate ThreeStrikes(check: Check) {
    forall command, output, n ::
      check(command, output, n) == Success || check(command, output, n) == (if n < 2 then Retry else Fail)
  }

  /** `basic_success(pattern)`: success exactly when the pattern is found in the output. */
  function BasicSuccess(search: Search, pattern: string): (c: Check)
    ensures ThreeStrikes(c)
    ensures forall command, output, n :: c(command, output, n) == Success <==> search(pattern, output)
  {
    (command: string, output: string, n: int) =>
      if search(pattern, output) then Success else if n < 2 then Retry else Fail
  }

  /** `tarball_check_contains(string)`: success exactly when the string occurs in the output. */
  function TarballCheckContains(needle: string): (c: Check)
    ensures ThreeStrikes(c)
    ensures forall command, output, n :: c(command, output, n) == Success <==> Text.Occurs(needle, output)
  {
    (command: string, output: string, n: int) =>
      if Text.Contains(output, needle) then Success else if n < 2 then Retry else Fail
  }

  /** The second element of a table entry: a pattern string or a check function. */
  datatype CheckSpec = Pattern(regex: string) | Given(check: Check)

  function GetCheck(search: Search, spec: CheckSpec): Check {
    match spec
    case Pattern(p) => BasicSuccess(search, p)
    case Given(c) => c
  }

  /** `cmds(blocks)`: the same groups, each of the same length, with the
      commands in the same order; a pattern string becomes a `basic_success`
      check and a check function is kept as it is. */
  function Cmds(search: Search, blocks: seq<seq<(string, CheckSpec)>>): (r: seq<seq<CommandTask>>)
    ensures |r| == |blocks|
    ensures forall i :: 0 <= i < |blocks| ==> |r[i]| == |blocks[i]|
    ensures forall i, j :: 0 <= i < |blocks| && 0 <= j < |blocks[i]| ==>
      && r[i][j].command == blocks[i][j].0
      && (blocks[i][j].1.Pattern? ==> r[i][j].check == BasicSuccess(search, blocks[i][j].1.regex))
      && (blocks[i][j].1.Given? ==> r[i][j].check == blocks[i][j].1.check)
  {
    seq(|blocks|, i requires 0 <= i < |blocks| =>
      seq(|blocks[i]|, j requires 0 <= j < |blocks[i]| =>
        CommandTask(blocks[i][j].0, GetCheck(search, blocks[i][j].1))))
  }

  const Htop: seq<(string, CheckSpec)> := [
    ("rm -rf htop*", Pattern(".*")),
    ("git clone https://github.com/htop-dev/htop.git", Pattern("Cloning into")),
    ("cd htop", Pattern(".*")),
    ("./autogen.sh", Pattern("configure")),
    ("./configure", Pattern("config.status")),
    ("make -j", Pattern("gcc .* -o htop ")),
    ("./htop --help", Pattern("-no-color"))
  ]

  const Jq: seq<(string, CheckSpec)> := [
    ("rm -rf jq*", Pattern(".*")),
    ("git clone https://github.com/jqlang/jq.git", Pattern("Cloning into")),
    ("cd jq", Pattern(".*")),
    ("git submodule update --init", Pattern("Submodule|Checking out files")),
    ("autoreconf -fi", Pattern("configure")),
    ("./configure", Pattern("config.status")),
    ("make -j", Pattern("GEN +src/version\\.h")),
    ("./jq --help", Pattern("jq - commandline JSON processor"))
  ]

  const Tmux: seq<(string, CheckSpec)> := [
    ("rm -rf tmux*", Pattern(".*")),
    ("git clone https://github.com/tmux/tmux.git", Pattern("Cloning into")),
    ("cd tmux", Pattern(".*")),
    ("sh autogen.sh", Pattern("configure")),
    ("./configure", Pattern("config.status")),
    ("make -j", Pattern("tmux")),
    ("./tmux -V", Pattern("tmux"))
  ]

  const Micro: seq<(string, CheckSpec)> := [
    ("rm -rf micro*", Pattern(".*")),
    ("git clone https://github.com/zyedidia/micro.git", Pattern("Cloning into")),
    ("cd micro", Pattern(".*")),
    ("make ", Pattern("go build")),
    ("./micro --help", Pattern("Usage: micro"))
  ]

  const Neovim: seq<(string, CheckSpec)> := [
    ("rm -rf neovim*", Pattern(".*")),
    ("git clone https://github.com/neovim/neovim.git", Pattern("Cloning into")),
    ("cd neovim", Pattern(".*")),
    ("make CMAKE_BUILD_TYPE=Release -j", Pattern("Generating doc/tags")),
    ("./build/bin/nvim --version", Pattern("NVIM"))
  ]

  const Wget: seq<(string, CheckSpec)> := [
    ("rm -rf wget*", Pattern(".*")),
    ("mkdir wget", Pattern(".*")),
    ("cd wget", Pattern(".*")),
    ("wget https://ftp.gnu.org/gnu/wget/wget-1.21.4.tar.gz", Pattern("Saving to")),
    ("tar xf wget-1.21.4.tar.gz", Pattern(".*")),
    ("cd wget-1.21.4", Pattern(".*")),
    ("./configure", Pattern("config.status")),
    ("make -j", Pattern("Built target|make\\[.*\\]")),
    ("src/wget --help", Given(TarballCheckContains("Usage: wget")))
  ]

  const ManDb: seq<(string, CheckSpec)> := [
    ("rm -rf man-db*", Pattern(".*")),
    ("wget https://download.savannah.gnu.org/releases/man-db/man-db-2.12.0.tar.xz", Pattern("Saving to")),
    ("tar xf man-db-2.12.0.tar.xz", Pattern(".*")),
    ("cd man-db-2.12.0", Pattern(".*")),
    ("./configure", Pattern("config.status")),
    ("make -j", Pattern("make\\[.*\\]|CC")),
    ("./src/man --help", Given(TarballCheckContains("Usage: man")))
  ]

  const Xz: seq<(string, CheckSpec)> := [
    ("rm -rf xz*", Pattern(".*")),
    ("curl -LO https://tukaani.org/xz/xz-5.4.5.tar.gz", Pattern("Average Speed   Time    Time     Time  Current")),
    ("tar xf xz-5.4.5.tar.gz", Pattern(".*")),
    ("cd xz-5.4.5", Pattern(".*")),
    ("./configure", Pattern("config.status")),
    ("make -j", Pattern("make\\[.*\\]|CC")),
    ("./src/xz/xz --help", Given(TarballCheckContains("XZ Utils home page")))
  ]

  const Ncurses: seq<(string, CheckSpec)> := [
    ("rm -rf ncurses*", Pattern(".*")),
    ("wget https://ftp.gnu.org/pub/gnu/ncurses/ncurses-6.4.tar.gz", Pattern("Saving to")),
    ("tar xf ncurses-6.4.tar.gz", Pattern(".*")),
    ("cd ncurses-6.4", Pattern(".*")),
    ("./configure", Pattern("config.status")),
    ("make -j$(nproc)", Pattern("make\\[.*\\]|CC")),
    ("./progs/tput --help", Given(TarballCheckContains("Usage")))
  ]

  const Sbase: seq<(string, CheckSpec)> := [
    ("rm -rf sbase*", Pattern(".*")),
    ("git clone git://git.suckless.org/sbase", Pattern("Cloning into")),
    ("cd sbase", Pattern(".*")),
    ("make -j", Pattern("c99")),
    ("./ls --help || true", Pattern("usage|Usage|invalid option"))
  ]

  const Zutils: seq<(string, CheckSpec)> := [
    ("rm -rf zutils*", Pattern(".*")),
    ("wget https://download.savannah.gnu.org/releases/zutils/zutils-1.11.tar.lz", Pattern("Saving to")),
    ("tar --lzip -xf zutils-1.11.tar.lz", Pattern(".*")),
    ("cd zutils-1.11", Pattern(".*")),
    ("./configure", Pattern("config.status")),
    ("make -j", Pattern("-o zcat")),
    ("./zcat --help", Given(TarballCheckContains("Usage: zcat")))
  ]

  const Bash: seq<(string, CheckSpec)> := [
    ("rm -rf bash*", Pattern(".*")),
    ("wget https://ftp.gnu.org/gnu/bash/bash-5.2.15.tar.gz", Pattern("Saving to")),
    ("tar xf bash-5.2.15.tar.gz", Pattern(".*")),
    ("cd bash-5.2.15", Pattern(".*")),
    ("./configure", Pattern("config.status")),
    ("make -j", Pattern("make\\[.*\\]|CC")),
    ("./bash --version", Given(TarballCheckContains("GNU bash")))
  ]

  const ProjectBlocks: seq<seq<(string, CheckSpec)>> :=
    [Htop, Jq, Tmux, Micro, Neovim, Wget, ManDb, Xz, Ncurses, Sbase, Zutils, Bash]

  /** `software_projects`: the table of twelve task groups. */
  function SoftwareProjects(search: Search): seq<seq<CommandTask>> {
    Cmds(search, ProjectBlocks)
  }

  ghost predicate AllThreeStrikes(tasks: seq<CommandTask>) {
    forall j :: 0 <= j < |tasks| ==> ThreeStrikes(tasks[j].check)
  }

  /** Under a ThreeStrikes check and a retry budget of at least two (the
      executor's default is three), a task is typed at most three times and
      never exhausts its retries; it fails only on its third typing, and
      only a failing session ends it before any attempt. */
  lemma {:induction false} ThreeStrikesAttempts(shell: Shell, history: seq<string>, task: CommandTask, maxRetries: int, failCount: nat)
    requires ThreeStrikes(task.check) && maxRetries >= 2 && failCount <= 2
    ensures var r := RunTask(shell, history, task, maxRetries, failCount);
      && !r.outcome.RetriesExhausted?
      && |r.attempts| <= 3 - failCount
      && (r.attempts == [] ==> r.outcome.SessionFailed?)
      && (r.outcome.PermanentFailure? ==> |r.attempts| == 3 - failCount)
    decreases 2 - failCount
  {
    match shell(history, task.command)
    case None =>
    case Some(output) =>
      var verdict := task.check(task.command, output, failCount);
      assert verdict == Success || verdict == (if failCount < 2 then Retry else Fail);
      if verdict == Retry {
        ThreeStrikesAttempts(shell, history + [task.command], task, maxRetries, failCount + 1);
      }
  }

  /** A ThreeStrikes check that never answers "success" makes the executor,
      with its default budget, type the command exactly three times and fail
      permanently, unless the session raises sooner. */
  lemma {:induction false} NeverSucceedingTypedThreeTimes(shell: Shell, history: seq<string>, task: CommandTask, failCount: nat)
    requires ThreeStrikes(task.check) && failCount <= 2
    requires forall output, n :: task.check(task.command, output, n) != Success
    ensures var r := RunTask(shell, history, task, DefaultMaxRetries, failCount);
      && (r.outcome.SessionFailed? || r.outcome.PermanentFailure?)
      && (r.outcome.PermanentFailure? ==>
            |r.attempts| == 3 - failCount && r.outcome == PermanentFailure(task.command, Last(r.attempts).output))
      && (r.outcome.SessionFailed? ==> |r.attempts| < 3 - failCount)
    decreases 2 - failCount
  {
    match shell(history, task.command)
    case None =>
    case Some(output) =>
      var verdict := task.check(task.command, output, failCount);
      assert verdict == (if failCount < 2 then Retry else Fail);
      if failCount < 2 {
        NeverSucceedingTypedThreeTimes(shell, history + [task.command], task, failCount + 1);
      }
  }

  /** A task whose pattern the search finds in every output, as `.*` is found
      in any text, succeeds on its first typing whatever the output. */
  lemma DotStarSucceedsAtOnce(search: Search, shell: Shell, history: seq<string>, command: string, maxRetries: int)
    requires forall output :: search(".*", output)
    ensures RunTask(shell, history, CommandTask(command, BasicSuccess(search, ".*")), maxRetries, 0)
         == match shell(history, command)
            case Some(output) => TaskRun([Attempt(command, output, 0, Success)], Completed)
            case None => TaskRun([], SessionFailed(command))
  {
  }

  /** Every check in the project table has the ThreeStrikes shape. */
  lemma ProjectChecksThreeStrikes(search: Search)
    ensures |SoftwareProjects(search)| == 12
    ensures forall i, j :: 0 <= i < 12 && 0 <= j < |SoftwareProjects(search)[i]| ==>
      ThreeStrikes(SoftwareProjects(search)[i][j].check)
  {
    var p: seq<seq<CommandTask>> := SoftwareProjects(search);
    forall i, j | 0 <= i < 12 && 0 <= j < |p[i]|
      ensures ThreeStrikes(p[i][j].check)
    {
      var spec := ProjectBlocks[i][j].1;
      if spec.Given? {
        GivenChecksAreTarball(i, j);
      }
    }
  }

  /** The check functions in the table are all `tarball_check_contains`
      checks, and so have the ThreeStrikes shape. */
  lemma GivenChecksAreTarball(i: nat, j: nat)
    requires i < |ProjectBlocks| && j < |ProjectBlocks[i]| && ProjectBlocks[i][j].1.Given?
    ensures exists s :: ProjectBlocks[i][j].1.check == TarballCheckContains(s)
    ensures ThreeStrikes(ProjectBlocks[i][j].1.check)
  {
    var spec := ProjectBlocks[i][j].1;
    if i == 5 {
      assert spec == Wget[j].1;
      assert j == 8 && spec.check == TarballCheckContains("Usage: wget");
    } else if i == 6 {
      assert j == 6 && spec.check == TarballCheckContains("Usage: man");
    } else if i == 7 {
      assert j == 6 && spec.check == TarballCheckContains("XZ Utils home page");
    } else if i == 8 {
      assert j == 6 && spec.check == TarballCheckContains("Usage");
    } else if i == 10 {
      assert j == 6 && spec.check == TarballCheckContains("Usage: zcat");
    } else if i == 11 {
      assert j == 6 && spec.check == TarballCheckContains("GNU bash");
    } else {
      assert false;
    }
  }

  /** With ThreeStrikes checks and the default budget, a run over a task
      list never raises the exhausted-retries error and types each started
      task at most three times; a task is typed not at all only when the
      session raised. */
  lemma GroupNeverExhausts(shell: Shell, history: seq<string>, tasks: seq<CommandTask>)
    requires AllThreeStrikes(tasks)
    ensures var t := Run(shell, history, tasks, DefaultMaxRetries);
      && !t.outcome.RetriesExhausted?
      && forall j :: 0 <= j < |t.runs| ==> |t.runs[j]| <= 3 && (t.runs[j] == [] ==> t.outcome.SessionFailed?)
  {
    var t := Run(shell, history, tasks, DefaultMaxRetries);
    RunEnd(shell, history, tasks, DefaultMaxRetries);
    forall j | 0 <= j < |t.runs|
      ensures |t.runs[j]| <= 3 && (t.runs[j] == [] ==> t.outcome.SessionFailed?)
      ensures !RunTask(shell, history + Typed(t.runs[..j]), tasks[j], DefaultMaxRetries, 0).outcome.RetriesExhausted?
    {
      RunAt(shell, history, tasks, DefaultMaxRetries, j);
      ThreeStrikesAttempts(shell, history + Typed(t.runs[..j]), tasks[j], DefaultMaxRetries, 0);
    }
  }

  /** The groups chosen by `random.sample`, in the order drawn. */
  function Chosen(search: Search, chosen: seq<nat>): (groups: seq<seq<CommandTask>>)
    requires forall k :: 0 <= k < |chosen| ==> chosen[k] < 12
    ensures |groups| == |chosen|
    ensures forall k :: 0 <= k < |chosen| ==> groups[k] == SoftwareProjects(search)[chosen[k]]
  {
    seq(|chosen|, k requires 0 <= k < |chosen| => SoftwareProjects(search)[chosen[k]])
  }

  /** Every check of every chosen group has the ThreeStrikes shape. */
  lemma ChosenThreeStrikes(search: Search, chosen: seq<nat>)
    requires forall k :: 0 <= k < |chosen| ==> chosen[k] < 12
    ensures forall k :: 0 <= k < |chosen| ==> AllThreeStrikes(Chosen(search, chosen)[k])
  {
    ProjectChecksThreeStrikes(search);
  }

  /** Running groups of tasks one after the other on one session, each with
      the default budget, stopping at the first group whose run raises. */
  function RunGroups(shell: Shell, history: seq<string>, groups: seq<seq<CommandTask>>): seq<Trace>
    decreases |groups|
  {
    if groups == [] then []
    else
      var t := Run(shell, history, groups[0], DefaultMaxRetries);
      if t.outcome.Completed? then [t] + RunGroups(shell, history + Typed(t.runs), groups[1..]) else [t]
  }

  /** How `build_software` ends. */
  datatype BuildOutcome =
    | Built
    | StartupFailed           // the RuntimeError of the session's startup prompt wait
    | RunFailed(error: Outcome)
    | TypeErrorRaised         // the call with an unexpected keyword argument

  /** `build_software` as written: the session starts (or raises before the
      `try`), and the first call `run_shell_commands_with_checks(shell,
      task_group, step_logger=self)` raises TypeError, because the function
      has no `step_logger` parameter; the `finally` closes the session. No
      command of any project is ever typed. */
  method BuildSoftwareAsWritten(started: bool, chosen: seq<nat>) returns (typed: seq<string>, outcome: BuildOutcome, closed: bool)
    requires 1 <= |chosen| <= 2
    ensures typed == []
    ensures outcome == (if started then TypeErrorRaised else StartupFailed)
    ensures closed == started
  {
    typed, closed := [], false;
    if !started {
      outcome := StartupFailed;
      return;
    }
    // `chosen` is never empty, so the loop body runs, and its call raises.
    outcome := TypeErrorRaised;
    closed := true;
  }

  /** `build_software` with the call the code evidently intends
      (`run_shell_commands_with_checks(shell, task_group)`): the chosen
      groups run in order on one session until one of them raises; the
      session is closed whenever it was opened; and no group ever raises the
      exhausted-retries error. */
  method BuildSoftware(search: Search, shell: Shell, started: bool, chosen: seq<nat>)
    returns (traces: seq<Trace>, outcome: BuildOutcome, closed: bool)
    requires 1 <= |chosen| <= 2
    requires forall k :: 0 <= k < |chosen| ==> chosen[k] < 12
    requires forall k, l :: 0 <= k < l < |chosen| ==> chosen[k] != chosen[l]
    ensures closed == started
    ensures !started ==> traces == [] && outcome == StartupFailed
    ensures started ==> traces == RunGroups(shell, [], Chosen(search, chosen))
    ensures started ==> outcome == (if Last(traces).outcome.Completed? then Built else RunFailed(Last(traces).outcome))
    ensures forall k :: 0 <= k < |traces| ==> !traces[k].outcome.RetriesExhausted?
  {
    traces, closed := [], false;
    if !started {
      outcome := StartupFailed;
      return;
    }
    var groups := Chosen(search, chosen);
    ChosenThreeStrikes(search, chosen);
    traces := RunGroupsInOrder(shell, groups);
    outcome := if Last(traces).outcome.Completed? then Built else RunFailed(Last(traces).outcome);
    closed := true;
  }

  /** The `for task_group in chosen_projects` loop: each group is run with the
      executor on the commands typed so far, until a run raises. */
  method RunGroupsInOrder(shell: Shell, groups: seq<seq<CommandTask>>) returns (traces: seq<Trace>)
    requires groups != []
    requires forall k :: 0 <= k < |groups| ==> AllThreeStrikes(groups[k])
    ensures traces == RunGroups(shell, [], groups)
    ensures traces != []
    ensures forall k :: 0 <= k < |traces| ==> !traces[k].outcome.RetriesExhausted?
  {
    traces := [];
    var typed: seq<string> := [];
    for g := 0 to |groups|
      invariant RunGroups(shell, [], groups) == traces + RunGroups(shell, typed, groups[g..])
      invariant forall k :: 0 <= k < |traces| ==> traces[k].outcome.Completed?
      invariant g > 0 ==> traces != []
    {
      assert groups[g..][0] == groups[g] && groups[g..][1..] == groups[g + 1..];
      var runs, result := RunShellCommandsWithChecks(shell, typed, groups[g], DefaultMaxRetries);
      GroupNeverExhausts(shell, typed, groups[g]);
      var t := Trace(runs, result);
      ghost var later := RunGroups(shell, typed + Typed(runs), groups[g + 1..]);
      assert RunGroups(shell, typed, groups[g..]) == if result.Completed? then [t] + later else [t];
      Text.AppendAssoc(traces, [t], later);
      traces := traces + [t];
      if !result.Completed? {
        assert RunGroups(shell, [], groups) == traces;
        return;
      }
      typed := typed + Typed(runs);
    }
  }
}
