/** The `clone_repo` node: clone into a fresh directory, derive the fix branch name and
    reset the iteration counter. */
module CloneRepoNode {
  import opened Wrappers
  import opened AgentState
  import opened Environment

  const BranchSuffix := "_AI_Fix"

  /** The fix branch name: the team name, an underscore, the leader name and `_AI_Fix`,
      with both names taken verbatim. */
  function BranchName(teamName: string, leaderName: string): (b: string)
    ensures |b| == |teamName| + 1 + |leaderName| + |BranchSuffix|
    ensures b[..|teamName|] == teamName && b[|teamName|] == '_'
    ensures b[|teamName| + 1..|teamName| + 1 + |leaderName|] == leaderName
    ensures b[|b| - |BranchSuffix|..] == BranchSuffix
  {
    teamName + "_" + leaderName + BranchSuffix
  }

  /** The node's effect on the record. The clone precedes every assignment, so a failed
      clone leaves the record as it was. */
  function CloneStep(s: Snapshot, clone: CloneOutcome): (r: Result<Snapshot, Error>)
    ensures r.Err? <==> clone.CloneFailed?
    ensures r.Err? ==> r.error == CloneError
    ensures r.Ok? ==> r.value.repoPath == clone.dir && r.value.iteration == 0
    ensures r.Ok? ==> r.value.branchName == Some(BranchName(s.teamName, s.leaderName))
    ensures r.Ok? ==> SameRequest(s, r.value) && r.value.failures == s.failures && r.value.passed == s.passed
  {
    match clone
    case CloneFailed => Err(CloneError)
    case Cloned(dir) =>
      Ok(s.(repoPath := dir, branchName := Some(BranchName(s.teamName, s.leaderName)), iteration := 0))
  }

  method CloneRepo(state: State, clone: CloneOutcome) returns (err: Option<Error>)
    modifies state
    ensures Effect(CloneStep(old(state.Snap()), clone), old(state.Snap()), state.Snap(), err)
  {
    match clone {
      case CloneFailed =>
        return Some(CloneError);
      case Cloned(tmpDir) =>
        var branch := BranchName(state.teamName, state.leaderName);
        state.repoPath := tmpDir;
        state.branchName := Some(branch);
        state.iteration := 0;
        return None;
    }
  }
}
