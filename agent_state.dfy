/** The run's state record (`AgentState`): one mutable dictionary shared by every node of the graph. */
module AgentState {
  import opened Wrappers

  /** The `ci_logs` entry: missing from the dictionary, present but `None`, or a string. */
  datatype CiLogs = Absent | Null | Text(logs: string)

  /** The exception a node can raise; each one aborts the whole run. */
  datatype Error =
    | CloneError      // `Repo.clone_from` failed
    | TestSpawnError  // pytest could not be started, or its output could not be decoded
    | LogsNotString   // `"AssertionError" in logs` with `logs` being None
    | FixWriteError   // `generate_fix` could not write the replacement test file
    | CommitError     // the GitPython add/commit failed

  /** The value of the record at one moment. `branchName` is None while the key is absent. */
  datatype Snapshot = Snapshot(
    repoUrl: string,
    repoPath: string,
    teamName: string,
    leaderName: string,
    branchName: Option<string>,
    ciLogs: CiLogs,
    failures: seq<string>,
    iteration: int,
    maxIterations: int,
    passed: bool)

  /** The fields supplied by the caller are the same in both records. */
  predicate SameRequest(s: Snapshot, t: Snapshot) {
    s.repoUrl == t.repoUrl && s.teamName == t.teamName && s.leaderName == t.leaderName &&
    s.ciLogs == t.ciLogs && s.maxIterations == t.maxIterations
  }

  /** The fields written by the clone step are the same in both records. */
  predicate SameWorkspace(s: Snapshot, t: Snapshot) {
    s.repoPath == t.repoPath && s.branchName == t.branchName
  }

  /** How a node's in-place update relates to its step function: when the step succeeds the
      record becomes its result; when it raises, the record is left exactly as it was. */
  predicate Effect(step: Result<Snapshot, Error>, before: Snapshot, after: Snapshot, err: Option<Error>) {
    match step
    case Ok(t) => err == None && after == t
    case Err(e) => err == Some(e) && after == before
  }

  /** The record the HTTP endpoint hands to the graph: the names exactly as received,
      a retry budget of 3 and no test run yet. */
  function Initial(repoUrl: string, teamName: string, leaderName: string, ciLogs: Option<string>): (s: Snapshot)
    ensures s.iteration == 0 && s.maxIterations == 3 && s.failures == [] && !s.passed
    ensures s.repoPath == "" && s.branchName == None
    ensures s.repoUrl == repoUrl && s.teamName == teamName && s.leaderName == leaderName
    ensures s.ciLogs.Null? <==> ciLogs.None?
    ensures ciLogs.Some? ==> s.ciLogs == Text(ciLogs.value)
  {
    Snapshot(repoUrl, "", teamName, leaderName, None,
             match ciLogs case None => Null case Some(l) => Text(l),
             [], 0, 3, false)
  }

  /** The mutable record itself. */
  class State {
    var repoUrl: string
    var repoPath: string
    var teamName: string
    var leaderName: string
    var branchName: Option<string>
    var ciLogs: CiLogs
    var failures: seq<string>
    var iteration: int
    var maxIterations: int
    var passed: bool

    constructor (s: Snapshot)
      ensures Snap() == s
    {
      repoUrl, repoPath, teamName, leaderName := s.repoUrl, s.repoPath, s.teamName, s.leaderName;
      branchName, ciLogs, failures := s.branchName, s.ciLogs, s.failures;
      iteration, maxIterations, passed := s.iteration, s.maxIterations, s.passed;
    }

    /** The current value of the record. */
    function Snap(): Snapshot
      reads this
    {
      Snapshot(repoUrl, repoPath, teamName, leaderName, branchName, ciLogs,
               failures, iteration, maxIterations, passed)
    }
  }
}
