/** The `classify_error` node: replace the failures with one descriptor chosen by a substring
    test on the caller-supplied `ci_logs` (not on the output of the last test run). */
module ClassifyErrorNode {
  import opened Wrappers
  import opened AgentState
  import Substring

  const Marker := "AssertionError"
  const AssertionFailure := "AssertionError in tests"
  const UnknownFailure := "Unknown failure"

  /** `state.get("ci_logs", "")`: a missing key reads as the empty string, a key holding None
      reads as None. */
  function LogsOf(c: CiLogs): Option<string> {
    match c
    case Absent => Some("")
    case Null => None
    case Text(logs) => Some(logs)
  }

  ghost function Descriptors(logs: string): seq<string> {
    if Substring.Contains(logs, Marker) then [AssertionFailure] else [UnknownFailure]
  }

  /** The node's effect on the record. Logs that are None make the substring test raise and the
      record stays as it was; otherwise `failures` is overwritten with exactly one descriptor,
      whatever it held before, and nothing else changes. */
  ghost function ClassifyStep(s: Snapshot): (r: Result<Snapshot, Error>)
    ensures r.Err? <==> s.ciLogs.Null?
    ensures r.Err? ==> r.error == LogsNotString
    ensures r.Ok? ==> |r.value.failures| == 1
    ensures r.Ok? ==>
      (r.value.failures == [AssertionFailure] <==> s.ciLogs.Text? && Substring.Contains(s.ciLogs.logs, Marker))
    ensures r.Ok? ==>
      (r.value.failures == [UnknownFailure] <==> !(s.ciLogs.Text? && Substring.Contains(s.ciLogs.logs, Marker)))
    ensures r.Ok? ==> r.value == s.(failures := r.value.failures)
  {
    match LogsOf(s.ciLogs)
    case None => Err(LogsNotString)
    case Some(logs) =>
      assert s.ciLogs.Absent? ==> !Substring.Contains(logs, Marker);
      Ok(s.(failures := Descriptors(logs)))
  }

  method ClassifyError(state: State) returns (err: Option<Error>)
    modifies state
    ensures Effect(ClassifyStep(old(state.Snap())), old(state.Snap()), state.Snap(), err)
  {
    var logs := LogsOf(state.ciLogs);
    if logs.None? {
      return Some(LogsNotString);
    }
    var found := Substring.Find(logs.value, Marker);
    if found {
      state.failures := [AssertionFailure];
    } else {
      state.failures := [UnknownFailure];
    }
    return None;
  }
}
