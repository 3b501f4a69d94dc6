/** What the outside world answers during a run: the clone, the test process and the two
    file-system/VCS steps of a fix. The answers are inputs of the model, not computed. */
module Environment {

  /** `tempfile.mkdtemp()` followed by `Repo.clone_from`: the fresh directory, or a failure. */
  datatype CloneOutcome = Cloned(dir: string) | CloneFailed

  /** One `subprocess.run` of pytest: it exited with a code and captured output, or it raised
      before any field was written (pytest could not be started, or its output could not be
      decoded). */
  datatype TestOutcome = Exited(returncode: int, stdout: string, stderr: string) | SpawnFailed

  /** The answers for one run. `test(k)`, `fixOk(k)` and `commitOk(k)` answer the call made
      after `k` test executions have completed. */
  datatype Env = Env(
    clone: CloneOutcome,
    test: nat -> TestOutcome,
    fixOk: nat -> bool,
    commitOk: nat -> bool)

  /** The test suite ran and reported success. */
  predicate Passes(r: TestOutcome) {
    r.Exited? && r.returncode == 0
  }

  /** No external step ever fails: the clone works, pytest always starts, and every fix
      is written and committed. */
  ghost predicate NoFaults(env: Env) {
    env.clone.Cloned? &&
    (forall k: nat :: env.test(k).Exited?) &&
    (forall k: nat :: env.fixOk(k)) &&
    (forall k: nat :: env.commitOk(k))
  }
}
