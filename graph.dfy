/** The compiled graph: entry at `clone_repo`, then `run_tests`, the `after_tests` router, and the
    cycle `classify_error -> generate_fix -> commit_fix -> run_tests`. */
module Graph {
  import opened Wrappers
  import opened AgentState
  import opened Environment
  import CloneRepoNode
  import RunTestsNode
  import ClassifyErrorNode
  import FixNodes

  datatype NodeName = CloneRepo | RunTests | ClassifyError | GenerateFix | CommitFix

  /** Where control goes after a node: another node, or END. */
  datatype Route = To(node: NodeName) | End

  const Entry: NodeName := CloneRepo

  /** The wiring as a set of directed edges, independent of the routing functions below. */
  predicate Edge(a: NodeName, b: NodeName) {
    (a, b) in {(CloneRepo, RunTests), (RunTests, ClassifyError), (ClassifyError, GenerateFix),
                (GenerateFix, CommitFix), (CommitFix, RunTests)}
  }

  /** The conditional edge out of `run_tests`: stop when the tests passed, or when the budget
      is used up, and classify the failure otherwise. */
  function AfterTests(s: Snapshot): (r: Route)
    ensures r == End <==> s.passed || s.iteration >= s.maxIterations
    ensures r != End ==> r == To(ClassifyError)
  {
    if s.passed then End
    else if s.iteration >= s.maxIterations then End
    else To(ClassifyError)
  }

  /** The successor of a node that has just completed. Only `run_tests` can end the run, and
      every other move follows an edge of the wiring. */
  function Next(n: NodeName, s: Snapshot): (r: Route)
    ensures r == End ==> n == RunTests
    ensures r.To? ==> Edge(n, r.node)
    ensures n == RunTests ==> r == AfterTests(s)
  {
    match n
    case CloneRepo => To(RunTests)
    case RunTests => AfterTests(s)
    case ClassifyError => To(GenerateFix)
    case GenerateFix => To(CommitFix)
    case CommitFix => To(RunTests)
  }

  /** The most test executions a run can make: the budget, but at least one, since the first
      `run_tests` comes before any check of the budget. */
  function Budget(s: Snapshot): nat {
    if s.maxIterations < 1 then 1 else s.maxIterations
  }

  /** The number of completed test executions after node `n` completes. */
  function Advance(n: NodeName, runs: nat): nat {
    if n == RunTests then runs + 1 else runs
  }

  /** What holds of the record whenever control is about to enter a node, `runs` being the
      number of test executions completed so far. */
  ghost predicate Inv(r: Route, s: Snapshot, runs: nat) {
    match r
    case End => s.iteration == runs
    case To(CloneRepo) => runs == 0
    case To(RunTests) => s.iteration == runs && runs < Budget(s)
    case To(_) => s.iteration == runs && 1 <= runs < s.maxIterations
  }

  /** A bound on the number of nodes still to run. */
  function Measure(r: Route, s: Snapshot, runs: nat): nat {
    var left := if runs < Budget(s) then Budget(s) - runs else 0;
    match r
    case End => 0
    case To(CloneRepo) => 4 * Budget(s) + 1
    case To(RunTests) => 4 * left
    case To(ClassifyError) => 4 * left + 3
    case To(GenerateFix) => 4 * left + 2
    case To(CommitFix) => 4 * left + 1
  }

  /** One node's effect on the record, with the world's answers taken from `env`. A node that
      completes keeps the invariant and brings the run strictly closer to END. */
  ghost function Exec(n: NodeName, s: Snapshot, runs: nat, env: Env): (r: Result<Snapshot, Error>)
    ensures Inv(To(n), s, runs) && r.Ok? ==>
      Inv(Next(n, r.value), r.value, Advance(n, runs)) &&
      Measure(Next(n, r.value), r.value, Advance(n, runs)) < Measure(To(n), s, runs)
  {
    match n
    case CloneRepo => CloneRepoNode.CloneStep(s, env.clone)
    case RunTests => RunTestsNode.RunTestsStep(s, env.test(runs))
    case ClassifyError => ClassifyErrorNode.ClassifyStep(s)
    case GenerateFix => FixNodes.GenerateFixStep(s, env.fixOk(runs))
    case CommitFix => FixNodes.CommitFixStep(s, env.commitOk(runs))
  }

  /** How a run ended: at END with the final record, or with an exception raised by `node`,
      the record being as that node found it. */
  datatype Verdict = Done(state: Snapshot) | Failed(node: NodeName, error: Error, state: Snapshot)

  /** The nodes that completed, in order, and how the run ended. */
  datatype Outcome = Outcome(trace: seq<NodeName>, verdict: Verdict)

  function Extend(prefix: seq<NodeName>, o: Outcome): Outcome {
    Outcome(prefix + o.trace, o.verdict)
  }

  /** The rest of a run from route `r`. */
  ghost function RunFrom(r: Route, s: Snapshot, runs: nat, env: Env): Outcome
    requires Inv(r, s, runs)
    decreases Measure(r, s, runs)
  {
    match r
    case End => Outcome([], Done(s))
    case To(n) =>
      match Exec(n, s, runs, env)
      case Err(e) => Outcome([], Failed(n, e, s))
      case Ok(t) => Extend([n], RunFrom(Next(n, t), t, Advance(n, runs), env))
  }

  /** A whole run from the entry node. It starts with `clone_repo`; a failed clone ends it at
      once with the record untouched; otherwise `run_tests` comes next, and when its process
      cannot be started it raises and ends the run right after the clone. */
  ghost function Run(init: Snapshot, env: Env): (o: Outcome)
    ensures env.clone.CloneFailed? ==> o == Outcome([], Failed(CloneRepo, CloneError, init))
    ensures env.clone.Cloned? ==> |o.trace| >= 1 && o.trace[0] == CloneRepo
    ensures env.clone.Cloned? && env.test(0).Exited? ==> |o.trace| >= 2 && o.trace[1] == RunTests
    ensures env.clone.Cloned? && env.test(0).SpawnFailed? ==>
      o == Outcome([CloneRepo], Failed(RunTests, TestSpawnError, CloneRepoNode.CloneStep(init, env.clone).value))
  {
    assert env.clone.Cloned? ==>
      RunFrom(To(Entry), init, 0, env)
        == Extend([CloneRepo], RunFrom(To(RunTests), CloneRepoNode.CloneStep(init, env.clone).value, 0, env));
    RunFrom(To(Entry), init, 0, env)
  }

  /** One node invocation on the shared record. */
  method Step(state: State, n: NodeName, runs: nat, env: Env) returns (err: Option<Error>)
    modifies state
    ensures Effect(Exec(n, old(state.Snap()), runs, env), old(state.Snap()), state.Snap(), err)
  {
    match n {
      case CloneRepo => err := CloneRepoNode.CloneRepo(state, env.clone);
      case RunTests => err := RunTestsNode.RunTests(state, env.test(runs));
      case ClassifyError => err := ClassifyErrorNode.ClassifyError(state);
      case GenerateFix => err := FixNodes.GenerateFix(state, env.fixOk(runs));
      case CommitFix => err := FixNodes.CommitFix(state, env.commitOk(runs));
    }
  }

  /** Extending a run by the rest of the run is associative in the trace. */
  lemma ExtendTwice(prefix: seq<NodeName>, n: NodeName, o: Outcome)
    ensures Extend(prefix, Extend([n], o)) == Extend(prefix + [n], o)
  {
    assert prefix + ([n] + o.trace) == (prefix + [n]) + o.trace;
  }

  /** `run_agent_graph.invoke`: one shared record, mutated in place by each node in turn, until
      the router says END or a node raises. */
  method Invoke(init: Snapshot, env: Env) returns (o: Outcome)
    ensures o == Run(init, env)
  {
    var state := new State(init);
    var route := To(Entry);
    var runs: nat := 0;
    var trace: seq<NodeName> := [];
    while route != End
      invariant Inv(route, state.Snap(), runs)
      invariant Extend(trace, RunFrom(route, state.Snap(), runs, env)) == Run(init, env)
      decreases Measure(route, state.Snap(), runs)
    {
      var n := route.node;
      var err := Step(state, n, runs, env);
      if err.Some? {
        return Outcome(trace, Failed(n, err.value, state.Snap()));
      }
      ExtendTwice(trace, n, RunFrom(Next(n, state.Snap()), state.Snap(), Advance(n, runs), env));
      trace := trace + [n];
      runs := Advance(n, runs);
      route := Next(n, state.Snap());
    }
    assert trace + [] == trace;
    o := Outcome(trace, Done(state.Snap()));
  }
}
