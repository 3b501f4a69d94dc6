/** The `run_tests` node: run pytest in the working copy and record the verdict. */
module RunTestsNode {
  import opened Wrappers
  import opened AgentState
  import opened Environment

  /** The captured output: standard output followed by standard error. */
  function Output(stdout: string, stderr: string): string {
    stdout + stderr
  }

  /** The node's effect on the record. Only the exit code decides the verdict; the output is
      stored, not read. If the process cannot be started the record is left as it was. */
  function RunTestsStep(s: Snapshot, result: TestOutcome): (r: Result<Snapshot, Error>)
    ensures r.Err? <==> result.SpawnFailed?
    ensures r.Err? ==> r.error == TestSpawnError
    ensures r.Ok? ==> r.value.iteration == s.iteration + 1
    ensures r.Ok? ==> (r.value.passed <==> result.returncode == 0)
    ensures r.Ok? && r.value.passed ==> r.value.failures == []
    ensures r.Ok? && !r.value.passed ==> r.value.failures == [Output(result.stdout, result.stderr)]
    ensures r.Ok? ==> SameRequest(s, r.value) && SameWorkspace(s, r.value)
  {
    match result
    case SpawnFailed => Err(TestSpawnError)
    case Exited(returncode, stdout, stderr) =>
      var verdict := s.(passed := returncode == 0,
                        failures := if returncode == 0 then [] else [Output(stdout, stderr)]);
      Ok(verdict.(iteration := s.iteration + 1))
  }

  method RunTests(state: State, result: TestOutcome) returns (err: Option<Error>)
    modifies state
    ensures Effect(RunTestsStep(old(state.Snap()), result), old(state.Snap()), state.Snap(), err)
  {
    match result {
      case SpawnFailed =>
        return Some(TestSpawnError);
      case Exited(returncode, stdout, stderr) =>
        var output := Output(stdout, stderr);
        if returncode == 0 {
          state.passed := true;
          state.failures := [];
        } else {
          state.passed := false;
          state.failures := [output];
        }
        state.iteration := state.iteration + 1;
        return None;
    }
  }
}
