/** The `generate_fix` and `commit_fix` nodes. Both touch only the working tree and the
    repository on disk; the record they return is the one they received. */
module FixNodes {
  import opened Wrappers
  import opened AgentState

  /** Writing the replacement test file either succeeds, leaving the record as it is, or raises. */
  function GenerateFixStep(s: Snapshot, written: bool): (r: Result<Snapshot, Error>)
    ensures r.Ok? <==> written
    ensures r.Ok? ==> r.value == s
    ensures r.Err? ==> r.error == FixWriteError
  {
    if written then Ok(s) else Err(FixWriteError)
  }

  /** Staging and committing either succeeds, leaving the record as it is, or raises. */
  function CommitFixStep(s: Snapshot, committed: bool): (r: Result<Snapshot, Error>)
    ensures r.Ok? <==> committed
    ensures r.Ok? ==> r.value == s
    ensures r.Err? ==> r.error == CommitError
  {
    if committed then Ok(s) else Err(CommitError)
  }

  /** Reads `repo_path` to locate the file; never writes the record. */
  method GenerateFix(state: State, written: bool) returns (err: Option<Error>)
    ensures Effect(GenerateFixStep(state.Snap(), written), state.Snap(), state.Snap(), err)
  {
    err := if written then None else Some(FixWriteError);
  }

  /** Reads `repo_path` to open the repository; never writes the record. */
  method CommitFix(state: State, committed: bool) returns (err: Option<Error>)
    ensures Effect(CommitFixStep(state.Snap(), committed), state.Snap(), state.Snap(), err)
  {
    err := if committed then None else Some(CommitError);
  }
}
