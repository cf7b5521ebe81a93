/** Workflow bookkeeping (`BaseWorkflow`): the integrity flag that `_log`
    ANDs down, the status check, the JSON log entry with its conditional
    keys, the console line, the default messages and `display`. The clock,
    host name and process id are given to `_log` as a `Stamp`; the JSON
    text is kept as the entry's key/value map. */
module BaseWorkflow {
  import opened Wrappers
  import Text

  // ---------------------------------------------------------------- integrity

  /** Python's `a & b` on integers: two's complement, unbounded. Dafny's
      `/` and `%` by 2 are floor division and its remainder here. */
  function BitAnd(a: int, b: int): int
    decreases (if a < 0 then -a else a) + (if b < 0 then -b else b)
  {
    if a == 0 || b == 0 then 0
    else if a == -1 then b
    else if b == -1 then a
    else 2 * BitAnd(a / 2, b / 2) + (if a % 2 == 1 && b % 2 == 1 then 1 else 0)
  }

  /** `x & x == x`. */
  lemma {:induction false} BitAndSelf(a: int)
    ensures BitAnd(a, a) == a
    decreases if a < 0 then -a else a
  {
    if a != 0 && a != -1 {
      BitAndSelf(a / 2);
    }
  }

  /** ANDing a non-negative value never raises it nor makes it negative. */
  lemma {:induction false} BitAndBelow(a: int, b: int)
    requires a >= 0
    ensures 0 <= BitAnd(a, b) <= a
    decreases a + (if b < 0 then -b else b)
  {
    if a != 0 && b != 0 && b != -1 {
      BitAndBelow(a / 2, b / 2);
    }
  }

  /** On the flags 0 and 1, `&` is logical AND. */
  lemma BitAndFlags(a: int, b: int)
    requires a == 0 || a == 1
    requires b == 0 || b == 1
    ensures BitAnd(a, b) == (if a == 1 && b == 1 then 1 else 0)
  {
  }

  /** `if integrity is not None: self.integrity &= integrity`. */
  function UpdateIntegrity(current: int, integrity: Option<int>): int {
    match integrity
    case None => current
    case Some(v) => BitAnd(current, v)
  }

  /** The integrity after `_log` has been called with each argument in turn. */
  function IntegrityAfter(start: int, args: seq<Option<int>>): int
    decreases |args|
  {
    if args == [] then start else UpdateIntegrity(IntegrityAfter(start, args[..|args| - 1]), args[|args| - 1])
  }

  /** From a non-negative start, integrity can only go down and stays non-negative. */
  lemma {:induction false} IntegrityNeverRises(start: int, args: seq<Option<int>>)
    requires start >= 0
    ensures 0 <= IntegrityAfter(start, args) <= start
    decreases |args|
  {
    if args != [] {
      var before := IntegrityAfter(start, args[..|args| - 1]);
      IntegrityNeverRises(start, args[..|args| - 1]);
      if args[|args| - 1].Some? {
        BitAndBelow(before, args[|args| - 1].value);
      }
    }
  }

  /** Once integrity is 0, it stays 0 whatever is ANDed in. */
  lemma {:induction false} ZeroIsFinal(args: seq<Option<int>>)
    ensures IntegrityAfter(0, args) == 0
  {
    IntegrityNeverRises(0, args);
  }

  /** With 0/1 arguments, integrity starting at 1 ends at 0 exactly when
      some call passed 0. */
  lemma {:induction false} IntegrityIsConjunction(args: seq<Option<int>>)
    requires forall k :: 0 <= k < |args| && args[k].Some? ==> args[k].value == 0 || args[k].value == 1
    ensures IntegrityAfter(1, args) == (if exists k :: 0 <= k < |args| && args[k] == Some(0) then 0 else 1)
    decreases |args|
  {
    if args != [] {
      var n := |args| - 1;
      var front := args[..n];
      IntegrityIsConjunction(front);
      assert forall k :: 0 <= k < n ==> front[k] == args[k];
      if args[n].Some? {
        BitAndFlags(IntegrityAfter(1, front), args[n].value);
      }
    }
  }

  // ---------------------------------------------------------------- entries

  const ValidStatuses: set<string> := {"start", "success", "error"}

  /** A JSON value of a log entry. */
  datatype Json = JString(s: string) | JInt(i: int)

  /** What `datetime.utcnow().isoformat()`, `get_local_hostname()` and
      `os.getpid()` return for one call of `_log`. */
  datatype Stamp = Stamp(timestamp: string, hostname: string, pid: int)

  /** The keys every entry has. */
  const BaseKeys: set<string> := {"timestamp", "workflow_name", "status", "message", "hostname", "pid"}

  /** The dictionary `_log` serialises. */
  function Entry(name: string, message: string, stepName: Option<string>, status: string, integrity: Option<int>, stamp: Stamp): (e: map<string, Json>)
    ensures BaseKeys <= e.Keys
    ensures "integrity" in e <==> integrity.Some?
    ensures "step_name" in e <==> stepName.Some?
    ensures e.Keys <= BaseKeys + {"integrity", "step_name"}
    ensures e["workflow_name"] == JString(name) && e["status"] == JString(status) && e["message"] == JString(message)
    ensures integrity.Some? ==> e["integrity"] == JInt(integrity.value)
    ensures stepName.Some? ==> e["step_name"] == JString(stepName.value)
  {
    var base := map[
      "timestamp" := JString(stamp.timestamp),
      "workflow_name" := JString(name),
      "status" := JString(status),
      "message" := JString(message),
      "hostname" := JString(stamp.hostname),
      "pid" := JInt(stamp.pid)];
    var withIntegrity := if integrity.Some? then base["integrity" := JInt(integrity.value)] else base;
    if stepName.Some? then withIntegrity["step_name" := JString(stepName.value)] else withIntegrity
  }

  /** One record of the `logging` output. */
  datatype LogRecord = Blank | Record(fields: map<string, Json>)

  /** The line `_log` prints: the step form when `step_name` is truthy
      (present and non-empty), the workflow form otherwise. */
  function ConsoleLine(timestamp: string, stepName: Option<string>, message: string): string {
    if stepName.Some? && stepName.value != "" then "... " + timestamp + " " + stepName.value + ": " + message
    else timestamp + " " + message
  }

  /** An ISO timestamp never starts with '.', so the step form (and only it)
      starts with "... ": an empty step name gets the workflow form even
      though its entry has a `step_name` key. */
  lemma StepFormIff(timestamp: string, stepName: Option<string>, message: string)
    requires timestamp != [] && timestamp[0] != '.'
    ensures Text.StartsWith(ConsoleLine(timestamp, stepName, message), "... ") <==> stepName.Some? && stepName.value != ""
  {
    var line := ConsoleLine(timestamp, stepName, message);
    if !(stepName.Some? && stepName.value != "") {
      assert line[0] == timestamp[0];
    }
  }

  // ---------------------------------------------------------------- messages

  /** `if not message: message = default`. */
  function OrDefault(message: string, default: string): (m: string)
    ensures m != "" <== default != ""
    ensures message != "" ==> m == message
    ensures message == "" ==> m == default
  {
    if message == "" then default else message
  }

  function StepStartDefault(stepName: string): string { "Starting step " + stepName }
  function StepSuccessDefault(stepName: string): string { "Step " + stepName + " successful" }
  function StepErrorDefault(stepName: string): string { "Step " + stepName + " failed" }
  function WorkflowStartDefault(name: string, description: string): string { "Starting workflow " + name + ": " + description }
  function WorkflowSuccessDefault(name: string): string { "Workflow " + name + " was successful" }
  function WorkflowErrorDefault(name: string): string { "Workflow " + name + " had an error" }

  /** The default messages name the step or workflow they are about, and no
      two of the step defaults coincide. */
  lemma DefaultsNameTheirSubject(stepName: string, name: string, description: string)
    ensures Text.Occurs(stepName, StepStartDefault(stepName))
    ensures Text.Occurs(stepName, StepSuccessDefault(stepName))
    ensures Text.Occurs(stepName, StepErrorDefault(stepName))
    ensures Text.Occurs(name, WorkflowStartDefault(name, description)) && Text.Occurs(description, WorkflowStartDefault(name, description))
    ensures Text.Occurs(name, WorkflowSuccessDefault(name)) && Text.Occurs(name, WorkflowErrorDefault(name))
    ensures StepSuccessDefault(stepName) != StepErrorDefault(stepName)
  {
    Text.OccursInMiddle("Starting step ", stepName, "");
    assert "Starting step " + stepName + "" == StepStartDefault(stepName);
    Text.OccursInMiddle("Step ", stepName, " successful");
    Text.OccursInMiddle("Step ", stepName, " failed");
    var w := WorkflowStartDefault(name, description);
    Text.OccursInMiddle("Starting workflow ", name, ": " + description);
    assert "Starting workflow " + name + (": " + description) == w;
    Text.OccursInMiddle("Starting workflow " + name + ": ", description, "");
    assert "Starting workflow " + name + ": " + description + "" == w;
    Text.OccursInMiddle("Workflow ", name, " was successful");
    Text.OccursInMiddle("Workflow ", name, " had an error");
    var s := StepSuccessDefault(stepName);
    var e := StepErrorDefault(stepName);
    var n := 5 + |stepName|;
    assert s[n + 1] == 's' && e[n + 1] == 'f';
  }

  // ---------------------------------------------------------------- display

  const DisplayPrefix := "Running Task: "

  /** The `display` property. */
  function Display(description: string): (d: string)
    ensures Text.StartsWith(d, DisplayPrefix) && d[|DisplayPrefix|..] == description
  {
    DisplayPrefix + description
  }

  /** Different descriptions display differently. */
  lemma DisplayInjective(d1: string, d2: string)
    requires Display(d1) == Display(d2)
    ensures d1 == d2
  {
    assert Display(d1)[|DisplayPrefix|..] == d1;
  }

  // ---------------------------------------------------------------- the class

  datatype LogError = InvalidStatus(status: string)

  /** A workflow: its name and description, the integrity flag, whether it
      owns a driver, and what it has logged and printed. */
  class BaseWorkflow {
    const name: string
    const description: string
    const hasDriver: bool
    var integrity: int
    /** The records passed to `logging.info`, in order. */
    var log: seq<LogRecord>
    /** The lines printed to the console, in order. */
    var console: seq<string>
    /** How many times `driver.cleanup()` has been called. */
    var driverCleanups: nat

    constructor (name: string, description: string, hasDriver: bool)
      ensures this.name == name && this.description == description && this.hasDriver == hasDriver
      ensures integrity == 1 && log == [] && console == [] && driverCleanups == 0
    {
      this.name := name;
      this.description := description;
      this.hasDriver := hasDriver;
      integrity := 1;
      log := [];
      console := [];
      driverCleanups := 0;
    }

    /** `cleanup`: nothing without a driver, otherwise one `driver.cleanup()`. */
    method Cleanup()
      modifies this`driverCleanups
      ensures driverCleanups == old(driverCleanups) + (if hasDriver then 1 else 0)
    {
      if !hasDriver {
        return;
      }
      driverCleanups := driverCleanups + 1;
    }

    /** `_log`: AND the integrity in, then reject an invalid status, then
        log the entry and print the console line. */
    method Log(message: string, stepName: Option<string>, status: string, integrity: Option<int>, stamp: Stamp)
      returns (error: Option<LogError>)
      modifies this`integrity, this`log, this`console
      ensures this.integrity == UpdateIntegrity(old(this.integrity), integrity)
      ensures status !in ValidStatuses ==> error == Some(InvalidStatus(status)) && log == old(log) && console == old(console)
      ensures status in ValidStatuses ==> (error == None &&
        log == old(log) + [Record(Entry(name, message, stepName, status, integrity, stamp))] &&
        console == old(console) + [ConsoleLine(stamp.timestamp, stepName, message)])
    {
      this.integrity := UpdateIntegrity(this.integrity, integrity);
      if status !in ValidStatuses {
        return Some(InvalidStatus(status));
      }
      log := log + [Record(Entry(name, message, stepName, status, integrity, stamp))];
      console := console + [ConsoleLine(stamp.timestamp, stepName, message)];
      error := None;
    }

    method LogStepStart(stepName: string, message: string, stamp: Stamp)
      modifies this`integrity, this`log, this`console
      ensures integrity == old(integrity)
      ensures log == old(log) + [Record(Entry(name, OrDefault(message, StepStartDefault(stepName)), Some(stepName), "start", None, stamp))]
      ensures console == old(console) + [ConsoleLine(stamp.timestamp, Some(stepName), OrDefault(message, StepStartDefault(stepName)))]
    {
      var error := Log(OrDefault(message, StepStartDefault(stepName)), Some(stepName), "start", None, stamp);
    }

    method LogStepSuccess(stepName: string, message: string, integrity: Option<int>, stamp: Stamp)
      modifies this`integrity, this`log, this`console
      ensures this.integrity == UpdateIntegrity(old(this.integrity), integrity)
      ensures log == old(log) + [Record(Entry(name, OrDefault(message, StepSuccessDefault(stepName)), Some(stepName), "success", integrity, stamp))]
      ensures console == old(console) + [ConsoleLine(stamp.timestamp, Some(stepName), OrDefault(message, StepSuccessDefault(stepName)))]
    {
      var error := Log(OrDefault(message, StepSuccessDefault(stepName)), Some(stepName), "success", integrity, stamp);
    }

    method LogStepError(stepName: string, message: string, integrity: Option<int>, stamp: Stamp)
      modifies this`integrity, this`log, this`console
      ensures this.integrity == UpdateIntegrity(old(this.integrity), integrity)
      ensures log == old(log) + [Record(Entry(name, OrDefault(message, StepErrorDefault(stepName)), Some(stepName), "error", integrity, stamp))]
      ensures console == old(console) + [ConsoleLine(stamp.timestamp, Some(stepName), OrDefault(message, StepErrorDefault(stepName)))]
    {
      var error := Log(OrDefault(message, StepErrorDefault(stepName)), Some(stepName), "error", integrity, stamp);
    }

    method LogWorkflowStart(message: string, stamp: Stamp)
      modifies this`integrity, this`log, this`console
      ensures integrity == old(integrity)
      ensures log == old(log) + [Record(Entry(name, OrDefault(message, WorkflowStartDefault(name, description)), None, "start", None, stamp))]
      ensures console == old(console) + [ConsoleLine(stamp.timestamp, None, OrDefault(message, WorkflowStartDefault(name, description)))]
    {
      var error := Log(OrDefault(message, WorkflowStartDefault(name, description)), None, "start", None, stamp);
    }

    /** Passes the current integrity, which `&` leaves unchanged. */
    method LogWorkflowSuccess(message: string, stamp: Stamp)
      modifies this`integrity, this`log, this`console
      ensures integrity == old(integrity)
      ensures log == old(log) + [Record(Entry(name, OrDefault(message, WorkflowSuccessDefault(name)), None, "success", Some(old(integrity)), stamp))]
      ensures console == old(console) + [ConsoleLine(stamp.timestamp, None, OrDefault(message, WorkflowSuccessDefault(name)))]
    {
      BitAndSelf(integrity);
      var error := Log(OrDefault(message, WorkflowSuccessDefault(name)), None, "success", Some(integrity), stamp);
    }

    /** Passes the current integrity, which `&` leaves unchanged. */
    method LogWorkflowError(message: string, stamp: Stamp)
      modifies this`integrity, this`log, this`console
      ensures integrity == old(integrity)
      ensures log == old(log) + [Record(Entry(name, OrDefault(message, WorkflowErrorDefault(name)), None, "error", Some(old(integrity)), stamp))]
      ensures console == old(console) + [ConsoleLine(stamp.timestamp, None, OrDefault(message, WorkflowErrorDefault(name)))]
    {
      BitAndSelf(integrity);
      var error := Log(OrDefault(message, WorkflowErrorDefault(name)), None, "error", Some(integrity), stamp);
    }
  }
}
