/** The metric-reporting workflow (`MetricWorkflow`): the same integrity
    and entry bookkeeping as `BaseWorkflow`, logged after a blank record and
    without a console line, and the screen for compromised pages. */
module MetricWorkflow {
  import opened Wrappers
  import Text
  import opened BaseWorkflow

  /** `check_external_integrity`: 0 when the text mentions "pwned" or
      "pwnd" (case-sensitive), 1 otherwise. */
  function CheckExternalIntegrity(text: string): (r: int)
    ensures r == 0 || r == 1
    ensures r == 0 <==> Text.Occurs("pwned", text) || Text.Occurs("pwnd", text)
  {
    if Text.Contains(text, "pwned") || Text.Contains(text, "pwnd") then 0 else 1
  }

  /** `check_integrity`: the same screen over the lower-cased page source. */
  function CheckIntegrity(pageSource: string): (r: int)
    ensures r == 0 || r == 1
    ensures r == 0 <==> Text.Occurs("pwned", Text.Lower(pageSource)) || Text.Occurs("pwnd", Text.Lower(pageSource))
  {
    CheckExternalIntegrity(Text.Lower(pageSource))
  }

  /** The external screen is case-sensitive; only the page check lowercases
      first, so an upper-case "PWNED" passes one and fails the other. */
  lemma CaseMatters()
    ensures CheckExternalIntegrity("PWNED") == 1
    ensures CheckIntegrity("PWNED") == 0
  {
    var upper := "PWNED";
    forall i: nat
      ensures !Text.MatchesAt("pwned", upper, i) && !Text.MatchesAt("pwnd", upper, i)
    {
      if i + 4 <= |upper| {
        assert upper[i..i + 4][0] == upper[i] != 'p';
      }
      if i + 5 <= |upper| {
        assert upper[i..i + 5][0] == upper[i] != 'p';
      }
    }
    assert Text.Lower(upper) == "pwned";
    Text.OccursAt("pwned", "pwned", 0);
  }

  /** Any text with "pwnd" or "pwned" inside it is flagged, whatever surrounds it. */
  lemma FlaggedAnywhere(before: string, after: string)
    ensures CheckExternalIntegrity(before + "pwned" + after) == 0
    ensures CheckExternalIntegrity(before + "pwnd" + after) == 0
  {
    Text.OccursInMiddle(before, "pwned", after);
    Text.OccursInMiddle(before, "pwnd", after);
  }

  class MetricWorkflow {
    const name: string
    const description: string
    var integrity: int
    /** The records passed to `logging.info`, in order. */
    var log: seq<LogRecord>

    constructor (name: string, description: string)
      ensures this.name == name && this.description == description
      ensures integrity == 1 && log == []
    {
      this.name := name;
      this.description := description;
      integrity := 1;
      log := [];
    }

    /** `_log`: AND the integrity in, then reject an invalid status, then
        log a blank record followed by the entry. */
    method Log(message: string, stepName: Option<string>, status: string, integrity: Option<int>, stamp: Stamp)
      returns (error: Option<LogError>)
      modifies this`integrity, this`log
      ensures this.integrity == UpdateIntegrity(old(this.integrity), integrity)
      ensures status !in ValidStatuses ==> error == Some(InvalidStatus(status)) && log == old(log)
      ensures status in ValidStatuses ==> (error == None &&
        log == old(log) + [Blank, Record(Entry(name, message, stepName, status, integrity, stamp))])
    {
      this.integrity := UpdateIntegrity(this.integrity, integrity);
      if status !in ValidStatuses {
        return Some(InvalidStatus(status));
      }
      log := log + [Blank, Record(Entry(name, message, stepName, status, integrity, stamp))];
      error := None;
    }

    method LogStepStart(stepName: string, message: string, stamp: Stamp)
      modifies this`integrity, this`log
      ensures integrity == old(integrity)
      ensures log == old(log) + [Blank, Record(Entry(name, OrDefault(message, StepStartDefault(stepName)), Some(stepName), "start", None, stamp))]
    {
      var error := Log(OrDefault(message, StepStartDefault(stepName)), Some(stepName), "start", None, stamp);
    }

    method LogStepSuccess(stepName: string, message: string, integrity: Option<int>, stamp: Stamp)
      modifies this`integrity, this`log
      ensures this.integrity == UpdateIntegrity(old(this.integrity), integrity)
      ensures log == old(log) + [Blank, Record(Entry(name, OrDefault(message, StepSuccessDefault(stepName)), Some(stepName), "success", integrity, stamp))]
    {
      var error := Log(OrDefault(message, StepSuccessDefault(stepName)), Some(stepName), "success", integrity, stamp);
    }

    method LogStepError(stepName: string, message: string, integrity: Option<int>, stamp: Stamp)
      modifies this`integrity, this`log
      ensures this.integrity == UpdateIntegrity(old(this.integrity), integrity)
      ensures log == old(log) + [Blank, Record(Entry(name, OrDefault(message, StepErrorDefault(stepName)), Some(stepName), "error", integrity, stamp))]
    {
      var error := Log(OrDefault(message, StepErrorDefault(stepName)), Some(stepName), "error", integrity, stamp);
    }

    method LogWorkflowStart(message: string, stamp: Stamp)
      modifies this`integrity, this`log
      ensures integrity == old(integrity)
      ensures log == old(log) + [Blank, Record(Entry(name, OrDefault(message, WorkflowStartDefault(name, description)), None, "start", None, stamp))]
    {
      var error := Log(OrDefault(message, WorkflowStartDefault(name, description)), None, "start", None, stamp);
    }

    /** Passes the current integrity, which `&` leaves unchanged. */
    method LogWorkflowSuccess(message: string, stamp: Stamp)
      modifies this`integrity, this`log
      ensures integrity == old(integrity)
      ensures log == old(log) + [Blank, Record(Entry(name, OrDefault(message, WorkflowSuccessDefault(name)), None, "success", Some(old(integrity)), stamp))]
    {
      BitAndSelf(integrity);
      var error := Log(OrDefault(message, WorkflowSuccessDefault(name)), None, "success", Some(integrity), stamp);
    }

    /** Passes the current integrity, which `&` leaves unchanged. */
    method LogWorkflowError(message: string, stamp: Stamp)
      modifies this`integrity, this`log
      ensures integrity == old(integrity)
      ensures log == old(log) + [Blank, Record(Entry(name, OrDefault(message, WorkflowErrorDefault(name)), None, "error", Some(old(integrity)), stamp))]
    {
      BitAndSelf(integrity);
      var error := Log(OrDefault(message, WorkflowErrorDefault(name)), None, "error", Some(integrity), stamp);
    }
  }
}
