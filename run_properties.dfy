/** Properties of whole runs of the graph. */
module RunProperties {
  import opened Wrappers
  import opened AgentState
  import opened Environment
  import opened Graph
  import CloneRepoNode
  import RunTestsNode
  import ClassifyErrorNode

  /** Reference count of test executions, read off the test answers alone: starting at
      execution `k`, keep running until one passes or `budget` executions have been made. */
  ghost function RunsNeeded(test: nat -> TestOutcome, k: nat, budget: nat): (n: nat)
    requires k < budget
    ensures k < n <= budget
    ensures Passes(test(n - 1)) || n == budget
    decreases budget - k
  {
    if Passes(test(k)) || k + 1 >= budget then k + 1 else RunsNeeded(test, k + 1, budget)
  }

  /** The reference count is the index of the first passing execution, plus one, capped at the budget. */
  lemma {:induction false} RunsNeededIsFirstPassCapped(test: nat -> TestOutcome, k: nat, budget: nat, first: nat)
    requires k < budget && k <= first
    requires forall i: nat :: k <= i < first ==> !Passes(test(i))
    requires Passes(test(first))
    ensures RunsNeeded(test, k, budget) == if first + 1 < budget then first + 1 else budget
    decreases budget - k
  {
    if k < first && k + 1 < budget {
      RunsNeededIsFirstPassCapped(test, k + 1, budget, first);
    }
  }

  /** With no passing execution within the budget, the reference count is the budget. */
  lemma RunsNeededWhenNonePass(test: nat -> TestOutcome, k: nat, budget: nat)
    requires k < budget
    requires forall i: nat :: k <= i < budget ==> !Passes(test(i))
    ensures RunsNeeded(test, k, budget) == budget
  {
    // Follows from `RunsNeeded`'s postcondition: the count ends on a pass or at the budget.
  }

  /** Every run is a path through the wiring: consecutive completed nodes are joined by an
      edge, a run that reaches END does so right after `run_tests`, and a node that raises
      was reached by an edge from the last completed node. */
  lemma {:induction false} RunFromFollowsEdges(r: Route, s: Snapshot, runs: nat, env: Env)
    requires Inv(r, s, runs)
    ensures var o := RunFrom(r, s, runs, env);
      (forall i :: 0 <= i < |o.trace| - 1 ==> Edge(o.trace[i], o.trace[i + 1])) &&
      (r.To? && o.trace != [] ==> o.trace[0] == r.node) &&
      (r.To? && o.trace == [] ==> o.verdict.Failed? && o.verdict.node == r.node) &&
      (o.verdict.Done? && o.trace != [] ==> o.trace[|o.trace| - 1] == RunTests) &&
      (o.verdict.Failed? && o.trace != [] ==> Edge(o.trace[|o.trace| - 1], o.verdict.node))
    decreases Measure(r, s, runs)
  {
    match r
    case End =>
    case To(n) =>
      match Exec(n, s, runs, env)
      case Err(e) =>
      case Ok(t) =>
        var rest := RunFrom(Next(n, t), t, Advance(n, runs), env);
        RunFromFollowsEdges(Next(n, t), t, Advance(n, runs), env);
        assert RunFrom(r, s, runs, env).trace == [n] + rest.trace;
        if rest.trace == [] && Next(n, t).To? {
          assert rest.verdict.Failed? && rest.verdict.node == Next(n, t).node;
        }
  }

  lemma RunFollowsEdges(init: Snapshot, env: Env)
    ensures var o := Run(init, env);
      (o.trace != [] ==> o.trace[0] == CloneRepo) &&
      (forall i :: 0 <= i < |o.trace| - 1 ==> Edge(o.trace[i], o.trace[i + 1])) &&
      (o.verdict.Done? ==> |o.trace| >= 2 && o.trace[|o.trace| - 1] == RunTests) &&
      (o.verdict.Failed? && o.trace == [] ==> o.verdict.node == CloneRepo) &&
      (o.verdict.Failed? && o.trace != [] ==> Edge(o.trace[|o.trace| - 1], o.verdict.node))
  {
    RunFromFollowsEdges(To(Entry), init, 0, env);
  }

  /** After the clone, `iteration` is the number of completed test executions. */
  lemma {:induction false} RunFromCountsTests(r: Route, s: Snapshot, runs: nat, env: Env)
    requires Inv(r, s, runs) && r != To(CloneRepo)
    ensures var o := RunFrom(r, s, runs, env);
      o.verdict.state.iteration == runs + multiset(o.trace)[RunTests]
    decreases Measure(r, s, runs)
  {
    match r
    case End =>
    case To(n) =>
      match Exec(n, s, runs, env)
      case Err(e) =>
      case Ok(t) =>
        RunFromCountsTests(Next(n, t), t, Advance(n, runs), env);
        var rest := RunFrom(Next(n, t), t, Advance(n, runs), env);
        assert multiset([n] + rest.trace) == multiset([n]) + multiset(rest.trace);
  }

  lemma IterationCountsTests(init: Snapshot, env: Env)
    ensures var o := Run(init, env);
      o.trace != [] ==> o.verdict.state.iteration == multiset(o.trace)[RunTests]
  {
    if env.clone.Cloned? {
      var cloned := CloneRepoNode.CloneStep(init, env.clone).value;
      RunFromCountsTests(To(RunTests), cloned, 0, env);
      RunAfterClone(init, env);
      assert multiset([CloneRepo] + RunFrom(To(RunTests), cloned, 0, env).trace)
          == multiset([CloneRepo]) + multiset(RunFrom(To(RunTests), cloned, 0, env).trace);
    }
  }

  /** The verdict and failures a fault-free run ends with, when the last test execution
      answered `last`. */
  ghost predicate EndsAfter(t: Snapshot, last: TestOutcome) {
    last.Exited? && t.passed == Passes(last) &&
    t.failures == (if t.passed then [] else [RunTestsNode.Output(last.stdout, last.stderr)])
  }

  /** The record after `run_tests` answered by execution `k`, and after `classify_error` on it. */
  ghost function Tested(s: Snapshot, k: nat, env: Env): Snapshot
    requires env.test(k).Exited?
  {
    RunTestsNode.RunTestsStep(s, env.test(k)).value
  }

  ghost function Classified(s: Snapshot, k: nat, env: Env): Snapshot
    requires env.test(k).Exited? && !s.ciLogs.Null?
  {
    ClassifyErrorNode.ClassifyStep(Tested(s, k, env)).value
  }

  /** A fault-free `run_tests` whose router says END. */
  lemma StopAfterTests(s: Snapshot, k: nat, env: Env)
    requires Inv(To(RunTests), s, k) && env.test(k).Exited?
    requires Next(RunTests, Tested(s, k, env)) == End
    ensures RunFrom(To(RunTests), s, k, env) == Outcome([RunTests], Done(Tested(s, k, env)))
  {
    assert RunFrom(To(RunTests), s, k, env) == Extend([RunTests], RunFrom(End, Tested(s, k, env), k + 1, env));
  }

  /** A fault-free `run_tests` whose router continues: one full cycle back to `run_tests`. */
  lemma ContinueAfterTests(s: Snapshot, k: nat, env: Env)
    requires Inv(To(RunTests), s, k) && !s.ciLogs.Null?
    requires env.test(k).Exited? && env.fixOk(k + 1) && env.commitOk(k + 1)
    requires Next(RunTests, Tested(s, k, env)) != End
    ensures Inv(To(RunTests), Classified(s, k, env), k + 1)
    ensures SameRequest(s, Classified(s, k, env)) && SameWorkspace(s, Classified(s, k, env))
    ensures RunFrom(To(RunTests), s, k, env)
         == Extend([RunTests, ClassifyError, GenerateFix, CommitFix],
                   RunFrom(To(RunTests), Classified(s, k, env), k + 1, env))
  {
    var tested := Tested(s, k, env);
    var classified := Classified(s, k, env);
    var rest := RunFrom(To(RunTests), classified, k + 1, env);
    assert RunFrom(To(CommitFix), classified, k + 1, env) == Extend([CommitFix], rest);
    assert RunFrom(To(GenerateFix), classified, k + 1, env) == Extend([GenerateFix, CommitFix], rest);
    assert RunFrom(To(ClassifyError), tested, k + 1, env)
        == Extend([ClassifyError, GenerateFix, CommitFix], rest);
    assert RunFrom(To(RunTests), s, k, env)
        == Extend([RunTests], RunFrom(To(ClassifyError), tested, k + 1, env));
    assert [RunTests] + ([ClassifyError, GenerateFix, CommitFix] + rest.trace)
        == [RunTests, ClassifyError, GenerateFix, CommitFix] + rest.trace;
  }

  /** How a fault-free run entering `run_tests` after `k` executions ends: at END right after
      a `run_tests`, after the reference number of executions in all, with the verdict and
      failures of the last execution, and with the request and workspace fields intact. */
  ghost predicate FaultFreeEnding(s: Snapshot, k: nat, env: Env, o: Outcome)
    requires k < Budget(s)
  {
    var n := RunsNeeded(env.test, k, Budget(s));
    o.verdict.Done? && multiset(o.trace)[RunTests] == n - k &&
    o.trace != [] && o.trace[|o.trace| - 1] == RunTests &&
    o.verdict.state.iteration == n && EndsAfter(o.verdict.state, env.test(n - 1)) &&
    SameRequest(s, o.verdict.state) && SameWorkspace(s, o.verdict.state)
  }

  lemma StopCase(s: Snapshot, k: nat, env: Env)
    requires Inv(To(RunTests), s, k) && env.test(k).Exited?
    requires Next(RunTests, Tested(s, k, env)) == End
    ensures FaultFreeEnding(s, k, env, RunFrom(To(RunTests), s, k, env))
  {
    StopAfterTests(s, k, env);
    assert RunsNeeded(env.test, k, Budget(s)) == k + 1;
  }

  /** One failed execution followed by classify, fix and commit, in front of a fault-free ending. */
  lemma ExtendByCycle(s: Snapshot, t: Snapshot, k: nat, env: Env, rest: Outcome)
    requires k + 1 < Budget(s) && !Passes(env.test(k))
    requires SameRequest(s, t) && SameWorkspace(s, t)
    requires FaultFreeEnding(t, k + 1, env, rest)
    ensures FaultFreeEnding(s, k, env, Extend([RunTests, ClassifyError, GenerateFix, CommitFix], rest))
  {
    assert Budget(t) == Budget(s);
    assert RunsNeeded(env.test, k, Budget(s)) == RunsNeeded(env.test, k + 1, Budget(s));
    assert multiset([RunTests, ClassifyError, GenerateFix, CommitFix] + rest.trace)
        == multiset([RunTests, ClassifyError, GenerateFix, CommitFix]) + multiset(rest.trace);
  }

  lemma ContinueCase(s: Snapshot, k: nat, env: Env)
    requires Inv(To(RunTests), s, k) && NoFaults(env) && !s.ciLogs.Null?
    requires Next(RunTests, Tested(s, k, env)) != End
    requires Inv(To(RunTests), Classified(s, k, env), k + 1)
    requires FaultFreeEnding(Classified(s, k, env), k + 1, env,
                             RunFrom(To(RunTests), Classified(s, k, env), k + 1, env))
    ensures FaultFreeEnding(s, k, env, RunFrom(To(RunTests), s, k, env))
  {
    assert env.test(k).Exited? && env.fixOk(k + 1) && env.commitOk(k + 1);
    ContinueAfterTests(s, k, env);
    assert !Passes(env.test(k)) && k + 1 < Budget(s);
    ExtendByCycle(s, Classified(s, k, env), k, env,
                  RunFrom(To(RunTests), Classified(s, k, env), k + 1, env));
  }

  /** Without faults, a run entering `run_tests` after `k` executions reaches END after exactly
      the reference number of executions; it ends right after the last one, so the final
      failures are that execution's output and no classify, fix or commit follows it. */
  lemma {:induction false} FaultFreeFromTests(s: Snapshot, k: nat, env: Env, o: Outcome)
    requires Inv(To(RunTests), s, k) && NoFaults(env) && !s.ciLogs.Null?
    requires o == RunFrom(To(RunTests), s, k, env)
    ensures FaultFreeEnding(s, k, env, o)
    decreases Budget(s) - k
  {
    assert env.test(k).Exited?;
    if Next(RunTests, Tested(s, k, env)) == End {
      StopCase(s, k, env);
    } else {
      assert env.fixOk(k + 1) && env.commitOk(k + 1);
      ContinueAfterTests(s, k, env);
      var t := Classified(s, k, env);
      FaultFreeFromTests(t, k + 1, env, RunFrom(To(RunTests), t, k + 1, env));
      ContinueCase(s, k, env);
    }
  }

  /** A fault-free run makes exactly the reference number of test executions and ends at END
      with the workspace from the clone and a record that reflects the last execution. */
  lemma FaultFreeRun(init: Snapshot, env: Env)
    requires NoFaults(env) && !init.ciLogs.Null?
    ensures var o := Run(init, env);
      var n := RunsNeeded(env.test, 0, Budget(init));
      o.verdict.Done? && multiset(o.trace)[RunTests] == n && o.trace[|o.trace| - 1] == RunTests &&
      o.verdict.state.iteration == n && EndsAfter(o.verdict.state, env.test(n - 1)) &&
      SameRequest(init, o.verdict.state) && o.verdict.state.repoPath == env.clone.dir &&
      o.verdict.state.branchName == Some(CloneRepoNode.BranchName(init.teamName, init.leaderName))
  {
    RunAfterClone(init, env);
    var cloned := CloneRepoNode.CloneStep(init, env.clone).value;
    var rest := RunFrom(To(RunTests), cloned, 0, env);
    FaultFreeFromTests(cloned, 0, env, rest);
    CloneThenEnding(init, env, rest, Run(init, env));
  }

  /** A run whose clone completes is that clone followed by the run entering `run_tests`. */
  lemma RunAfterClone(init: Snapshot, env: Env)
    requires env.clone.Cloned?
    ensures Inv(To(RunTests), CloneRepoNode.CloneStep(init, env.clone).value, 0)
    ensures Run(init, env)
         == Extend([CloneRepo], RunFrom(To(RunTests), CloneRepoNode.CloneStep(init, env.clone).value, 0, env))
  {
  }

  /** A completed clone in front of a fault-free ending from `run_tests`. */
  lemma CloneThenEnding(init: Snapshot, env: Env, rest: Outcome, o: Outcome)
    requires env.clone.Cloned?
    requires FaultFreeEnding(CloneRepoNode.CloneStep(init, env.clone).value, 0, env, rest)
    requires o == Extend([CloneRepo], rest)
    ensures var n := RunsNeeded(env.test, 0, Budget(init));
      o.verdict.Done? && multiset(o.trace)[RunTests] == n && o.trace[|o.trace| - 1] == RunTests &&
      o.verdict.state.iteration == n && EndsAfter(o.verdict.state, env.test(n - 1)) &&
      SameRequest(init, o.verdict.state) && o.verdict.state.repoPath == env.clone.dir &&
      o.verdict.state.branchName == Some(CloneRepoNode.BranchName(init.teamName, init.leaderName))
  {
    assert multiset([CloneRepo] + rest.trace) == multiset([CloneRepo]) + multiset(rest.trace);
  }

  /** The number of test executions of a fault-free run is the index of the first passing
      execution plus one, capped at the budget `max(1, max_iterations)`. */
  lemma TestRunsAreFirstPassCapped(init: Snapshot, env: Env, first: nat)
    requires NoFaults(env) && !init.ciLogs.Null?
    requires forall i: nat :: i < first ==> !Passes(env.test(i))
    requires Passes(env.test(first))
    ensures var o := Run(init, env);
      o.verdict.Done? &&
      multiset(o.trace)[RunTests] == (if first + 1 < Budget(init) then first + 1 else Budget(init)) &&
      (o.verdict.state.passed <==> first < Budget(init))
  {
    FaultFreeRun(init, env);
    RunsNeededIsFirstPassCapped(env.test, 0, Budget(init), first);
  }

  /** When the tests never pass and the budget is at least one, the run ends exhausted after
      exactly `max_iterations` executions, with the last execution's output as the only failure
      and nothing after the last `run_tests`. */
  lemma NeverPassingRunExhausts(init: Snapshot, env: Env)
    requires NoFaults(env) && !init.ciLogs.Null? && init.maxIterations >= 1
    requires forall i: nat :: i < init.maxIterations ==> !Passes(env.test(i))
    ensures var o := Run(init, env);
      var last := env.test(init.maxIterations - 1);
      o.verdict.Done? && o.trace[|o.trace| - 1] == RunTests &&
      multiset(o.trace)[RunTests] == init.maxIterations &&
      o.verdict.state.iteration == init.maxIterations && !o.verdict.state.passed &&
      o.verdict.state.failures == [RunTestsNode.Output(last.stdout, last.stderr)]
  {
    FaultFreeRun(init, env);
    RunsNeededWhenNonePass(env.test, 0, Budget(init));
  }

  /** When the first execution passes, the run ends right after it with one iteration and no
      failures; nothing else about the world matters. */
  lemma FirstRunPasses(init: Snapshot, env: Env)
    requires env.clone.Cloned? && Passes(env.test(0))
    ensures var o := Run(init, env);
      o.trace == [CloneRepo, RunTests] && o.verdict.Done? &&
      o.verdict.state.iteration == 1 && o.verdict.state.passed && o.verdict.state.failures == []
  {
    var cloned := CloneRepoNode.CloneStep(init, env.clone).value;
    var tested := RunTestsNode.RunTestsStep(cloned, env.test(0)).value;
    RunAfterClone(init, env);
    assert RunFrom(To(RunTests), cloned, 0, env) == Extend([RunTests], RunFrom(End, tested, 1, env));
  }

  /** A request that leaves out `ci_logs` reaches the graph with the key holding None, so the
      first failing test execution within the budget makes `classify_error` raise. */
  lemma RequestWithoutLogsFailsAtClassify(repoUrl: string, teamName: string, leaderName: string, env: Env)
    requires env.clone.Cloned? && env.test(0).Exited? && env.test(0).returncode != 0
    ensures var o := Run(Initial(repoUrl, teamName, leaderName, None), env);
      o.trace == [CloneRepo, RunTests] && o.verdict.Failed? &&
      o.verdict.node == ClassifyError && o.verdict.error == LogsNotString &&
      o.verdict.state.iteration == 1
  {
    var init := Initial(repoUrl, teamName, leaderName, None);
    var cloned := CloneRepoNode.CloneStep(init, env.clone).value;
    var tested := RunTestsNode.RunTestsStep(cloned, env.test(0)).value;
    RunAfterClone(init, env);
    assert RunFrom(To(RunTests), cloned, 0, env)
        == Extend([RunTests], RunFrom(To(ClassifyError), tested, 1, env));
  }
}
