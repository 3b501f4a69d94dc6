# AutoHeal CI repair loop, modelled in Dafny

AutoHeal CI receives a repository URL, a team name, a leader name and optional CI logs. It clones
the repository and runs its tests. When the tests fail it classifies the failure, writes a fix,
commits it and runs the tests again, until they pass or the retry budget is used up. This project
models that loop: the shared state record, the five graph nodes, the `after_tests` router, the
fixed wiring of the graph, and the run of the compiled graph over one record.

Layout (one module per file):

- `wrappers.dfy` (`Wrappers`): `Option` and `Result`.
- `agent_state.dfy` (`AgentState`): the record. `Snapshot` is its value. `State` is the mutable
  object the nodes update in place, with `Snap()` giving its value. The module also has the
  exceptions a node can raise (`Error`) and the predicate `Effect`. `Effect` says that a node
  either updates the record to its step function's result, or raises and leaves the record as it
  was. `Initial` is the record the HTTP endpoint builds (`backend/app/api/run_agent.py:15-25`):
  names verbatim, `iteration = 0`, `max_iterations = 3`, `failures = []`, `passed = False`.
- `environment.dfy` (`Environment`): the outside world as inputs. These are the outcome of the
  clone, the answer of the k-th pytest process (exit code, stdout and stderr, or the note that
  pytest could not be started, or its output could not be decoded), and whether the k-th fix write and commit succeed.
- `substring.dfy` (`Substring`): Python's `needle in haystack`, as a predicate and a search loop.
- `clone_repo.dfy`, `run_tests.dfy`, `classify_error.dfy`, `fix_nodes.dfy`: one module per node.
  Each has a pure step function on `Snapshot` and a method that updates a `State` in place. The
  method is proved to have exactly the step function's `Effect`.
- `graph.dfy` (`Graph`): the node names, the wiring as an edge set (`Edge`), the router, the
  successor function, the run as a recursive function (`Run`), and the driver `Invoke`. `Invoke`
  is a `while` loop over one fresh `State` and is proved equal to `Run`. Its termination measure
  is bounded by `4 * max(1, max_iterations) + 1`.
- `run_properties.dfy` (`RunProperties`): properties of whole runs. These cover the path through
  the wiring, `iteration` as the number of test runs, and the exact number of test runs. They
  also cover how a run ends when the first run passes, when no run passes, and when no logs were
  sent.

`ci_logs` has three states (`Absent`, `Null`, `Text`). `state.get("ci_logs", "")` returns `""`
only when the key is missing. The endpoint always sets the key, to `None` when the request has no
logs. Then `"AssertionError" in None` raises a `TypeError`, modelled as the error `LogsNotString`.
`branch_name` is `None` until `clone_repo` writes it.

Three behaviours of the code that are easy to misread:

- Team and leader names are used verbatim in the branch name (`backend/app/agent/nodes/clone_repo.py:9`,
  `backend/app/api/run_agent.py:18-19`). Upper-casing them and replacing spaces with underscores
  happens only in commented-out code (`backend/app/agent/graph.py:43-44`).
- `classify_error` reads the caller-supplied `ci_logs` (`backend/app/agent/nodes/classify_error.py:10`),
  not the output of the last test run. Its descriptors are overwritten by the next `run_tests`.
  So a run that uses up its budget ends with the raw test output as its only failure, not with a
  classified descriptor.
- `run_tests` sets no timeout (`backend/app/agent/nodes/run_tests.py:6-11`). Its only error is a
  `subprocess.run` that raises: pytest could not be started, or its output could not be decoded.
  Either way the exception comes before any field is written.

## Model

| member | source | states |
|---|---|---|
| `Substring.Find` | backend/app/agent/nodes/classify_error.py:12 | the search answers true exactly when the needle occurs at some index of the haystack |
| `ClassifyErrorNode.ClassifyStep` | backend/app/agent/nodes/classify_error.py:9-17 | logs holding None raise; otherwise `failures` is replaced by exactly one descriptor, whatever it held before: "AssertionError in tests" iff the logs are a string containing "AssertionError", else "Unknown failure" (also for a missing key or empty logs); nothing else changes |
| `ClassifyErrorNode.ClassifyError` | backend/app/agent/nodes/classify_error.py:9-17 | the in-place update has exactly the effect of `ClassifyStep`, and leaves the record unchanged when it raises |
| `CloneRepoNode.BranchName` | backend/app/agent/nodes/clone_repo.py:9 | the branch name is the team name verbatim, `_`, the leader name verbatim, then `_AI_Fix`: it starts with the team name and ends with `_AI_Fix` |
| `CloneRepoNode.CloneStep` | backend/app/agent/nodes/clone_repo.py:5-15 | a failed clone raises and changes nothing; a successful one sets `repo_path` to the fresh directory, `branch_name` to `BranchName(team, leader)` and `iteration` to 0, and keeps the caller's fields, `failures` and `passed` |
| `CloneRepoNode.CloneRepo` | backend/app/agent/nodes/clone_repo.py:5-15 | the in-place update has exactly the effect of `CloneStep` |
| `RunTestsNode.RunTestsStep` | backend/app/agent/nodes/run_tests.py:3-25 | a process that cannot start raises and changes nothing; otherwise `iteration` goes up by exactly one whatever the outcome, `passed` holds iff the exit code is 0, `failures` is empty on a pass and the single string stdout + stderr on a failure, and the caller's and workspace fields are unchanged |
| `RunTestsNode.RunTests` | backend/app/agent/nodes/run_tests.py:3-25 | the in-place update has exactly the effect of `RunTestsStep` |
| `FixNodes.GenerateFixStep` | backend/app/agent/nodes/generate_fix.py:1-12 | writing the fix either succeeds and returns the record unchanged, or raises |
| `FixNodes.GenerateFix` | backend/app/agent/nodes/generate_fix.py:1-12 | never writes the record, and fails exactly when the file write fails |
| `FixNodes.CommitFixStep` | backend/app/agent/nodes/commit_fix.py:7-14 | committing either succeeds and returns the record unchanged, or raises |
| `FixNodes.CommitFix` | backend/app/agent/nodes/commit_fix.py:7-14 | never writes the record, and fails exactly when the add/commit fails |
| `AgentState.Initial` | backend/app/api/run_agent.py:15-25 | the endpoint's starting record: URL and names verbatim, empty `repo_path`, no `branch_name`, `iteration` 0, `max_iterations` 3, no failures, not passed, and `ci_logs` None exactly when the request sent no logs |
| `AgentState.State.constructor` | backend/app/agent/state.py:3-14 | a fresh record holds exactly the given field values |
| `Graph.AfterTests` | backend/app/agent/graph.py:106-111 | routes to END exactly when `passed` is true (whatever `iteration` is) or `iteration >= max_iterations`, and to `classify_error` otherwise |
| `Graph.Next` | backend/app/agent/graph.py:122-136 | only `run_tests` can lead to END, through the router; every other move follows an edge of the wiring: clone → tests, tests → classify, classify → fix, fix → commit, commit → tests |
| `Graph.Exec` | backend/app/agent/graph.py:114-136 | every node that completes keeps the run invariant (`iteration` equals the number of test runs and stays within the budget) and strictly lowers the termination measure |
| `Graph.Run` | backend/app/agent/graph.py:122-124 | a run starts with `clone_repo`; a failed clone ends it at once with no node completed and the record untouched; otherwise `run_tests` is the next node: it completes when its process starts, and when the process cannot be started it raises `TestSpawnError`, ending the run with the trace [`clone_repo`] and the cloned record |
| `Graph.Step` | backend/app/agent/graph.py:116-120 | invoking a node on the shared record has exactly that node's effect |
| `Graph.Invoke` | backend/app/agent/graph.py:114-138 | the loop over one mutable record terminates and returns exactly the trace and ending of `Run` |
| `RunProperties.RunsNeeded` | backend/app/agent/graph.py:106-111 | the reference count of test runs from the answers alone: more than the runs already made, at most the budget `max(1, max_iterations)`, and either the last run passed or the budget is reached |
| `RunProperties.RunsNeededIsFirstPassCapped` | backend/app/agent/graph.py:106-111 | the reference count is the index of the first passing run plus one, capped at the budget |
| `RunProperties.RunsNeededWhenNonePass` | backend/app/agent/graph.py:109-110 | with no passing run within the budget, the reference count is the budget |
| `RunProperties.RunFromFollowsEdges` | backend/app/agent/graph.py:124-136 | from any point, consecutive completed nodes are joined by an edge, a run reaches END right after `run_tests`, and a node that raises was reached by an edge |
| `RunProperties.RunFollowsEdges` | backend/app/agent/graph.py:122-136 | a whole run starts with `clone_repo`, follows the wiring, and when it reaches END its last node is `run_tests`; so no fix is made without a classification first, and a commit always follows its fix |
| `RunProperties.RunAfterClone` | backend/app/agent/graph.py:122-124 | when the clone completes, the run is `clone_repo` followed by the run entering `run_tests` with no test run yet, on the cloned record |
| `RunProperties.RunFromCountsTests` | backend/app/agent/nodes/run_tests.py:23 | after the clone, `iteration` at the end equals the test runs made so far plus the `run_tests` nodes in the rest of the trace |
| `RunProperties.IterationCountsTests` | backend/app/agent/nodes/clone_repo.py:13 | once the clone has completed, the final `iteration` is the number of completed `run_tests` nodes, however the run ends |
| `RunProperties.StopAfterTests` | backend/app/agent/graph.py:129-132 | when the router says END after a test run, the run ends right there with that run's record |
| `RunProperties.ContinueAfterTests` | backend/app/agent/graph.py:134-136 | when `ci_logs` is not None and the test run, the fix write and the commit all succeed, and the router continues, `classify_error`, `generate_fix` and `commit_fix` run in that order and control is back at `run_tests` with one more test run counted |
| `RunProperties.FaultFreeFromTests` | backend/app/agent/graph.py:106-136 | with no faults and `ci_logs` not None, the rest `o` of a run entering `run_tests` ends at END after exactly the reference count of test runs, right after the last one, with that run's verdict and output as the final record |
| `RunProperties.FaultFreeRun` | backend/app/agent/graph.py:106-136 | with no faults and `ci_logs` not None, a run terminates at END with `iteration` equal to the number of test runs, which is the reference count; `passed` and `failures` come from the last test run, and `repo_path` and `branch_name` from the clone |
| `RunProperties.TestRunsAreFirstPassCapped` | backend/app/agent/graph.py:106-111 | the number of test runs of a fault-free run is the index of the first pass plus one, capped at `max(1, max_iterations)`, and the run ends passed iff that pass falls within the budget |
| `RunProperties.NeverPassingRunExhausts` | backend/app/agent/nodes/run_tests.py:19-21 | if the tests never pass and `max_iterations >= 1`, the run ends with exactly `max_iterations` test runs, `passed` false, `failures` = [last stdout + last stderr], and nothing after the last `run_tests` |
| `RunProperties.FirstRunPasses` | backend/app/agent/graph.py:107-108 | if the first test run passes, the run is clone then tests and ends with `iteration` 1, `passed` true and no failures |
| `RunProperties.RequestWithoutLogsFailsAtClassify` | backend/app/api/run_agent.py:20 | for the endpoint's initial record with no logs, a first failing test run makes `classify_error` raise, after exactly one test run |

## Left out

- Cloning, `tempfile.mkdtemp`, the pytest subprocess, the file write of `generate_fix` and the
  GitPython add/commit are external effects: their outcomes are inputs (`Environment.Env`). The
  working tree, the content of the replacement test file and the commit message are not modelled.
- A failed clone leaves its temporary directory behind; file-system state is not modelled.
- `backend/app/services/docker_service.py` is not wired into the graph and is not part of this model.
- The HTTP layer (`backend/app/main.py`, the endpoint in `backend/app/api/run_agent.py`) and the
  `HttpUrl` validation and string conversion of `backend/app/schemas/request.py` are not part of
  this model. Only the endpoint's initial record is used (`AgentState.Initial`).
- LangGraph behaviour beyond the fixed wiring is not modelled: how returned dictionaries are merged
  into the state, whether the undeclared `branch_name` key survives, and the framework's step
  limit. The default limit of 25 steps is never reached with `max_iterations = 3`.
- Commented-out code is not modelled, including the upper-casing of names and the appending
  classifier.
- Python exception types are collapsed into the five kinds of `AgentState.Error`. The model does
  not say how the exception reaches the HTTP caller.
- Concurrent runs share nothing, so the model covers one run.
- `RunProperties.FaultFreeRun`, `RunProperties.FaultFreeFromTests`, `RunProperties.ContinueAfterTests`,
  `RunProperties.TestRunsAreFirstPassCapped` and `RunProperties.NeverPassingRunExhausts` assume
  that the external steps they use do not fail and that `ci_logs` is not None; with `ci_logs` None,
  the endpoint's default, `RequestWithoutLogsFailsAtClassify` describes the run instead. With faults, `RunFollowsEdges` and `IterationCountsTests` still describe the run.
