# SynaFlow: a verified model

SynaFlow compiles a pipeline of step functions into a graph and runs it with bounded, lockstep
streaming. This project models the parts where concurrency, rewriting and shared state make the
behaviour hard to see from one function, and proves what holds over every run and every input.
`dafny verify dfyconfig.toml` checks all of it.

| file | models |
|---|---|
| `Fanout.dfy` | the bounded fan-out of the sync engine: pump thread, branch queues, consumers, any number of aborters, as a step relation |
| `FanoutStopping.dfy` | what the stop flag does to the pump, the aborters and the source |
| `FanoutEndings.dfy` | what consumers of a branch are told at the end, and what they may miss |
| `FanoutReaders.dfy` | one thread that reads all branches of a fan-out, in lockstep or one after the other |
| `Expansion.dfy` | flattening of included sub-pipelines, against a nested evaluator |
| `Evaluation.dfy` | what the evaluators of flattened and nested pipelines compute |
| `IncludeChain.dfy` | termination of expansion and its cycle check over mutually including definitions |
| `LockstepValidation.dfy` | the memoised barrier search that predicts lockstep deadlocks |
| `AsymmetricFanout.dfy` | the smallest rejected topology together with its run |
| `Topology.dfy`, `ScopeStamping.dfy` | the two cycle detectors, execution levels, scope indices |
| `Scheduler.dfy` | readiness-driven submission with re-entrant completion callbacks |
| `EachLoop.dfy` | the EACH loop of both engines and the error threshold |
| `BoundedIterator.dfy` | `LifecycleStream` and the prefetching `BoundedIterator` over it |
| `AsyncHandoff.dfy` | the branch and the pump of the async fan-out |
| `StepFunctions.dfy` | what inspection finds out about a step function, and what calling it gives |
| `ExecutionPlan.dfy` | the compiled publish plan and what each engine accepts |
| `Registry.dfy` | the pipeline registry |
| `DagModel.dfy`, `Wrappers.dfy` | shared graph and result types |

Threads are interleavings of small steps. A timed wait that expires is a step that changes nothing,
so a run is any finite sequence of steps and every safety result holds for all of them. The
liveness results come with a measure that every step of the protocol uses up. Loops and objects of
the source are loops and classes here, each proved against a specification function or predicate;
the lemmas are about those.

Three invariants, of the scheduler, the registry search and the bounded iterator, are written as a
quantifier over a dummy number (`Wrappers.Opened`) so that proofs which only hand them on do not unfold
them; `OpenSound`, `OpenConsistent` and `OpenAccounted` show that this says the same as the plain
conjunction.

## What turned out differently

* **Draining branches one after the other.** The note in `tests/execution/test_corpus_runtime.py:38-44`
  says that sequential consumption of two lazy branches deadlocks. Precisely, it finishes if and only
  if there is at most one branch, or the source has fewer than `max_in_flight` items, or exactly that
  many and either the source fails or the branches are read in the order in which the pump ends them
  (`FanoutReaders.SequentialFinishesExactly`).
* **An abort's exception.** The pump, once it sees the stop flag, ends every branch with EOF and may drop an
  entry of a full queue for it (`synaflow/execution/sync_handoff.py:161-162`, `:190-199`), the exception of
  `abort` included. So a consumer of an aborted run can be told an ordinary end
  (`FanoutEndings.AbortExceptionCanBeLost`); if nobody started the pump, it never is
  (`FanoutEndings.LoneAbortTells`).
* **The stop flag is seen late.** A pump that is handing out an item when the flag is set goes on to take
  one more from the source before it looks (`synaflow/execution/sync_handoff.py:152-156`). One more item is
  taken at most, and one can be taken if and only if the pump is handing out or waiting for one and the
  source has another (`FanoutStopping.StopEndsPulling`).
* **An inner step that reads its pipeline's exported step.** Such a sub-pipeline compiles on its own but
  not when included: the exported step loses its prefixed name while the reference gains the prefix
  (`synaflow/core/dag_expansion.py:178-181`, `:299`). `Expansion.ExportReadBreaks` is the smallest
  case, `Expansion.ExpansionResolvesExactly` the exact condition.
* **Submission after a failure.** A future that is already done runs its callback inside the loop that
  is submitting. If that callback reports the first failure, the loop still submits whatever is ready
  (`synaflow/execution/sync_engine/executor.py:213-219`). `Scheduler.FailureDoesNotStopSubmission` is a
  case where this happens in every run; `Scheduler.SubmittedAfterFailure` says which steps these are and
  that there are none after any failure reported outside a submission loop.
* **Steps that store nothing.** A step whose name starts with an underscore publishes nothing, nor does
  a step without a function, nor one that swallows its own error under CONTINUE, the default
  (`synaflow/execution/sync_engine/step_runner.py:203-210`). Their consumers never become ready: the run
  ends without them and without an error. Every step runs if and only if no step depends on a silent one
  (`Scheduler.EveryStepRunsExactly`, and `Scheduler.SilentProducerStarves` as a case).
* **Pipeline names with dots.** The include chain is passed on as a dotted string and split again
  (`synaflow/core/dag_expansion.py:87`, `:96`). A dotted name is therefore never found in it, so a
  pipeline "a.b" that includes itself expands for ever, and its pieces are found, so "b" cannot be
  included from it. Empty names are skipped by the chain and are not found either. Expansion ends and
  detects exactly the repeated names for all families over given names if and only if none of them is
  empty or dotted (`IncludeChain.ExpansionWorksExactly`); `IncludeChain.CheckVerdict` is the check's
  verdict for all names.
* **Termination of an async branch with a suspended pull.** `terminate(e)` closes the branch, but a pull
  that was already suspended still takes an entry, and if that is another failure, it replaces e. So the
  last `terminate` decides if and only if no pull was suspended
  (`AsyncHandoff.TerminationDecidesExactly`); `AsyncHandoff.SuspendedPullKeepsFailure` reaches the other
  case.
* **Plain pipelines in the async engine.** The async entry point refuses only pipelines that need the
  sync runner (`synaflow/execution/async_engine/executor.py:592`). It admits pipelines that need neither
  runner, whose functions all look plain (`synaflow/core/dag_builder.py:332-336`, `:367`) and which it
  then awaits (`synaflow/execution/async_engine/step_runner.py:224`). In a pipeline without includes not
  one step with a function runs there (`ExecutionPlan.EngineFitsExactly`).
* **Functions whose looks deceive.** An object whose `__call__` is an async generator, or a partial of it,
  counts as async (`synaflow/core/adapters.py:14-27`) but not as an async generator
  (`synaflow/core/dag_builder.py:598-604`), so the async engine awaits what cannot be awaited. And the
  wrapper that an include puts around a step is a coroutine function only around a coroutine function
  (`synaflow/core/dag_expansion.py:365-390`): an included async generator is refused, and an included
  object with a coroutine `__call__` is accepted for the sync engine, where nobody awaits it.
  `StepFunctions.LooksDecideExactly` and `StepFunctions.WrappingKeepsExactly` are the exact conditions,
  `ExecutionPlan.AsyncGeneratorObject`, `IncludedAsyncGenerator` and `IncludedCoroutineObject` the cases.
* **Resources of nested includes.** They are merged for the pipeline that is built
  (`synaflow/core/dag_builder.py:251-277`), but a pipeline in between that does not declare them renames
  the references (`synaflow/core/dag_expansion.py:295-299`): it compiles on its own and not when included
  (`Expansion.UndeclaredResourceBreaks`).
* **The lockstep validator.** Its message says that an asymmetric topology guarantees a deadlock
  (`synaflow/core/lockstep_validation.py:68`). For the smallest one the run ends if and only if the source
  has at most `max_in_flight` items (`AsymmetricFanout.RejectionIsNeededExactly`).

## Model

| member | source | states |
|---|---|---|
| Fanout.LosslessTee | synaflow/execution/sync_handoff.py:150-173 | in every interleaving without abort or source failure, what an open branch has received and queued is a prefix of the source lacking at most the item being handed over; an exhausted branch received the whole source; one closed early received a prefix of it; no branch ends with an exception |
| Fanout.AlwaysInOrder | synaflow/execution/sync_handoff.py:164-200 | under any aborts, closings and failures, received followed by queued items are distinct source items in source order, all pulled already |
| Fanout.TerminationNeverLost | synaflow/execution/sync_handoff.py:175-200 | once the pump and all aborters have finished their terminal writes, every open branch holds a terminal marker, and at most `max_in_flight` reads close it other than by an early close |
| Fanout.FailureReachesEveryBranch | synaflow/execution/sync_handoff.py:150-162 | after a source failure without abort, every branch not closed early ends by raising that very exception, having received everything pulled before it minus at most one item; one closed early received a beginning of that |
| Fanout.BoundedLookAhead | synaflow/execution/sync_handoff.py:150-173 | without abort the pump is at most `max_in_flight` + 1 items ahead of any open branch, so open branches never differ by more |
| Fanout.StepGood | synaflow/execution/sync_handoff.py:115-200 | every step of pump, consumers, closers and aborters keeps the invariant: queues within bounds, order, a stop flag set by exactly its three causes, no lost marker, nothing lost while undisturbed |
| Fanout.ReachableGood | synaflow/execution/sync_handoff.py:76-200 | the invariant holds in every reachable state |
| Fanout.DrainReachesMarker | synaflow/execution/sync_handoff.py:42-63 | a reader of an open branch whose queue holds a marker stops within as many reads as the queue has entries |
| Fanout.DrainToLast | synaflow/execution/sync_handoff.py:42-63 | reading a queue of items behind which a marker stands delivers all of them, then ends as the marker says |
| FanoutStopping.StopHasACause | synaflow/execution/sync_handoff.py:115-122 | in every reachable state the stop flag is set if and only if somebody aborted, all of at least one branch have left, or the source failed |
| FanoutStopping.StopEndsPulling | synaflow/execution/sync_handoff.py:150-156 | once the flag is set, no run takes more than one further item from the source, and some run takes one if and only if the pump is between two items and the source has another |
| FanoutStopping.StopEndsThreads | synaflow/execution/sync_handoff.py:150-200 | once the flag is set, pump and aborters together take a number of steps bounded by the numbers of branches and aborters alone, whatever readers do, unless somebody aborts again; a thread that is not at its end can always take a step |
| FanoutStopping.BudgetIsSpent | synaflow/execution/sync_handoff.py:175-200 | each step of the pump or an aborter lowers one budget, dropping from full queues included, and no reader's step raises it |
| FanoutStopping.EveryThreadEndsAlone | synaflow/execution/sync_handoff.py:184-199 | with the flag set, the pump by itself and every aborter by itself get to the end of their terminal writes, over full queues and without any reader |
| FanoutStopping.PumpIsHeldExactly | synaflow/execution/sync_handoff.py:164-188 | by itself a started pump gets to its end if and only if it does not get to an open branch with a full queue first, which holds it for ever; a closed branch never does, and with the flag set nothing does |
| FanoutEndings.EndIsFinal | synaflow/execution/sync_handoff.py:42-63 | the read that takes a terminal marker decides every later answer of the branch: the end, or that exception again |
| FanoutEndings.EarlyCloseIsLoud | synaflow/execution/sync_handoff.py:48-53 | after an early close every read fails loudly and none looks like the end of the stream |
| FanoutEndings.ReadersKeepContents | synaflow/execution/sync_handoff.py:42-70 | reading, closing and leaving take away nothing that a branch was given, and move neither the pump nor an aborter |
| FanoutEndings.EndingsAreTrue | synaflow/execution/sync_handoff.py:121-162 | in every run a branch that raises raises the source's own exception, after all items, or one given to abort; a branch that ends ordinarily does so after all items, by an abort without exception, or with the stop flag set |
| FanoutEndings.AbortersKeepTheirMarkers | synaflow/execution/sync_handoff.py:121-125 | the writers of a run are exactly its aborts, each with the marker of its argument |
| FanoutEndings.LoneAbortTells | synaflow/execution/sync_handoff.py:121-125 | if nobody started the pump, one abort tells every branch exactly its exception, or the end if it was given none |
| FanoutEndings.AbortExceptionCanBeLost | synaflow/execution/sync_handoff.py:190-199 | a reachable state of a run aborted with an exception in which the consumer was told an ordinary end |
| FanoutEndings.OldestGoesFirst | synaflow/execution/sync_handoff.py:183-188 | without abort, what an open branch can still read are the newest items it was offered, without a gap; so a failure costs it at most the oldest one unread |
| FanoutReaders.LockstepAlwaysFinishes | synaflow/execution/sync_handoff.py:150-188 | taking the branches in turn never deadlocks: from every reachable state the run can go on until all branches have ended, for every source, bound, number and order of branches |
| FanoutReaders.SequentialFinishesExactly | tests/execution/test_corpus_runtime.py:38-44 | reading branch after branch can finish if and only if there is room for all of the source, in the exact sense given above; otherwise no continuation ends |
| FanoutReaders.WorkIsSpent | synaflow/execution/sync_handoff.py:164-188 | every step that moves an item, a marker or a branch lowers a fixed budget, all others move nothing, so there is no run of endless useful steps |
| FanoutReaders.Advance | synaflow/execution/sync_handoff.py:164-188 | unless the reader waits on an empty queue while the pump waits on a full one, some allowed step brings the end nearer |
| Expansion.ExpansionPreservesMeaning | synaflow/core/dag_expansion.py:196-282 | for any nesting depth, if no inner step reads its pipeline's exported step and every resource read below an include is declared by the including pipeline, evaluating the flattened steps gives every renamed step, adapters included, the value it has in the nested evaluation, in the same order |
| Expansion.ExpansionResolvesExactly | synaflow/core/dag_expansion.py:285-317 | every reference of the flattened pipeline resolves if and only if every reference resolves within its own pipeline, no inner step reads its pipeline's exported step, and every resource read below an include is declared by the including pipeline |
| Expansion.UndeclaredResourceBreaks | synaflow/core/dag_expansion.py:295-299 | a pipeline that includes one with a resource without declaring it resolves on its own, and not once it is included |
| Expansion.ExportReadBreaks | synaflow/core/dag_expansion.py:178-181 | a pipeline whose inner step reads the exported step resolves before expansion and does not resolve after it |
| Expansion.WrappedEval | synaflow/core/dag_expansion.py:348-398 | the wrapped steps of one include, run in the outer namespace, produce exactly the renamed log of the inner steps in their own namespace |
| Expansion.WrappedCall | synaflow/core/dag_expansion.py:303-317 | calling one wrapped step on the outer arguments equals calling the inner step on its own |
| Expansion.StepsFlatten | synaflow/core/dag_expansion.py:15-55 | the same preservation for any list of steps in any outer namespace that agrees with the inner one on visible names |
| Expansion.WrappedResolves | synaflow/core/dag_expansion.py:320-345 | which references of wrapped steps resolve, in both directions |
| Expansion.ExpandMacros | synaflow/core/dag_expansion.py:15-55 | the nested loops compute the flattening function |
| Expansion.BuildWrapperSignature | synaflow/core/dag_expansion.py:320-345 | the wrapper's parameters are the sources of the inner parameters in order of first use, none twice |
| Evaluation.RemapIsExact | synaflow/core/dag_expansion.py:285-317 | a wrapped step gets for a field that field of the adapter's object, for a resource the resource, for any other argument the value under the prefixed name, and is called if and only if all of them exist |
| Evaluation.SubEnvIsExact | synaflow/core/dag_expansion.py:165-175 | a sub-pipeline sees exactly the fields of the object it was given and its own resources |
| Evaluation.FlatRun | synaflow/execution/state.py:56-65 | for every step of a flattened run: it is called with the latest value under each of its arguments' names, and not at all if one has none |
| Evaluation.NestedRun | synaflow/core/dag_expansion.py:215-252 | the same for every step of every pipeline of a nested run; an include counts by the latest value of the exported step of its pipeline |
| IncludeChain.ExpandIncludes | synaflow/core/dag_expansion.py:15-55 | the recursion over the dotted chain, wherever it ends, has exactly the outcome of the depth-bounded specification, its first error included |
| IncludeChain.ExpandRoot | synaflow/core/dag_expansion.py:255-282 | if no cycle of includes consists of empty or dotted names only, the recursion ends for every finite family, and it is rejected if and only if some chain of includes offends, with the error of the first one in include order |
| IncludeChain.CheckVerdict | synaflow/core/dag_expansion.py:68-97 | for all names: the check fires if and only if the name has no dot and is a piece of an earlier, non-empty name of the chain |
| IncludeChain.VerdictIsRight | synaflow/core/dag_expansion.py:90-102 | at any depth, acceptance means that no chain of includes offends, and a rejection comes with the first one that does, as a repeated name before a missing export |
| IncludeChain.RankedEnds | synaflow/core/dag_expansion.py:196-212 | the recursion ends: each include uses up a proper name or, for an improper one, goes down in rank |
| IncludeChain.ProperNamesWork | synaflow/core/dag_expansion.py:68-97 | with non-empty names without dots, expansion ends for every finite family, mutually including ones too, and if all export it is rejected if and only if some chain of includes repeats a name |
| IncludeChain.ExpansionWorksExactly | synaflow/core/dag_expansion.py:79-97 | expansion works in this sense for all families over a set of names if and only if none of them is empty or has a dot |
| IncludeChain.ImproperNameNeverEnds | synaflow/core/dag_expansion.py:83-97 | a definition with an empty or dotted name that includes itself is never refused and expansion never ends |
| IncludeChain.DottedNameBlocksItsPieces | synaflow/core/dag_expansion.py:95-97 | including a piece of a dotted name from it is refused although no name repeats |
| IncludeChain.ChainSplitsExactly | synaflow/core/dag_expansion.py:79-97 | joining a chain with dots and splitting it again gives the names back if and only if none of them is empty or has a dot |
| LockstepValidation.BarriersFrom | synaflow/core/lockstep_validation.py:33-57 | after the memoised search, the statuses recorded for a step are exactly the barrier statuses over all walks from the fan-out, on cyclic graphs too, within two body executions per step |
| LockstepValidation.Search.Dfs | synaflow/core/lockstep_validation.py:42-55 | a call finishes its key, keeps everything recorded before, records only statuses of real walks, and leaves only the keys still in progress unexpanded |
| LockstepValidation.WalksAreSeen | synaflow/core/lockstep_validation.py:35-40 | skipping memoised keys loses no walk: a closed memo holds the status of every walk of any length |
| LockstepValidation.BuildChildren | synaflow/core/lockstep_validation.py:12-17 | the adjacency lists hold exactly the edges, each once |
| LockstepValidation.ValidateLockstepSymmetry | synaflow/core/lockstep_validation.py:11-71 | rejects if and only if some lazy fan-out reaches a join by one walk with an inner barrier and by another without; the pair reported is such a one |
| AsymmetricFanout.RejectionIsNeededExactly | synaflow/core/lockstep_validation.py:63-71 | the smallest rejected topology: from every reachable state its run can end if and only if the source has at most `max_in_flight` items |
| Topology.CheckCircularDependencies | synaflow/core/dag_topology.py:7-31 | the stack-based search raises if and only if the steps contain a dependency cycle, and names a step from which dependencies lead into one |
| Topology.CycleSearch.Dfs | synaflow/core/dag_topology.py:11-25 | a search that finds nothing restores the stack and extends a topological order of what it visited; one that finds something has found a cycle |
| Topology.GetExecutionLevels | synaflow/core/dag.py:358-390 | levelling raises if and only if the steps contain a cycle, hence agrees with the search; otherwise the levels partition the steps, respect dependencies, and list their steps in declaration order |
| Topology.LevelIsLongestChain | synaflow/core/dag.py:365-388 | a step's level is the length of its longest dependency chain |
| Topology.LevelledIsAcyclic | synaflow/core/dag.py:365-388 | steps that can be levelled contain no cycle |
| Topology.BackwardsForever | synaflow/core/dag.py:374-381 | if every remaining step waits for a remaining step, they contain a cycle |
| ScopeStamping.StampScopes | synaflow/core/dag_builder.py:735-772 | per scope the indices are a bijection onto 0 to total - 1, the totals add up to the number of steps, a dependency within a scope has the smaller index, and steps are counted by their longest dependency chains, then as declared |
| ScopeStamping.GroupByScope | synaflow/core/dag_builder.py:756-763 | grouping keeps, per scope, exactly its steps in flat order, and loses none |
| ScopeStamping.WithinKeepsOrder | synaflow/core/dag_builder.py:756-759 | what comes earlier in the flattened levels comes earlier within its scope |
| Scheduler.RunGraph.Run | synaflow/execution/sync_engine/executor.py:184-257 | for every pop order, every timing of outputs and every choice of instant completions: the run raises if and only if some step of the least fixpoint of readiness fails; if it does not, the finished steps are exactly that fixpoint; nothing outside it is ever submitted |
| Scheduler.RunGraph.CheckNewReadySteps | synaflow/execution/sync_engine/executor.py:203-219 | the submission loop, re-entered by callbacks, keeps the invariant, ends with nothing ready, and unless a failure was reported leaves no step behind that could start |
| Scheduler.RunGraph.StepDone | synaflow/execution/sync_engine/executor.py:221-236 | a failing or late callback changes only the books and keeps the first failure; a clean one takes up everything that became ready |
| Scheduler.RunGraph.InputsAvailable | synaflow/execution/state.py:56-65 | true if and only if every dependency is a resource or stored under its own or its consumer's key |
| Scheduler.Confluent | synaflow/execution/sync_engine/executor.py:203-236 | any order of submissions in which each step could start, and after which nothing more can, submits exactly the least fixpoint of readiness |
| Scheduler.FixpointIsLeast | synaflow/execution/state.py:56-65 | the iterated readiness set lies inside every set closed under readiness |
| Scheduler.FixpointIsSettled | synaflow/execution/state.py:56-65 | the iterated readiness set is closed under readiness |
| Scheduler.EveryStepRuns | synaflow/execution/sync_engine/executor.py:203-219 | if every dependency is a parameter, a resource or an earlier step that stores the key its consumer reads, every step runs |
| Scheduler.EveryStepRunsExactly | synaflow/execution/sync_engine/step_runner.py:203-210 | let the silent steps be those that store nothing and all others store what they publish; with layered dependencies and no other step storing a key under which a silent one is read, every step runs if and only if no step depends on a silent one |
| Scheduler.EveryStepRunsUnlessHidden | synaflow/core/dag.py:325-334 | if only hidden steps are silent, the assumption on keys is not needed: every step runs if and only if no step depends on a hidden one |
| Scheduler.StepRunsExactly | synaflow/execution/sync_engine/executor.py:286-290 | if no key of one step is read for another, a step runs if and only if it does not depend on a silent step, directly or through others |
| Scheduler.SilentProducerStarves | synaflow/execution/sync_engine/step_runner.py:203-210 | a plan without failures in which a producer that stores nothing, hidden or visible, runs and its consumer never does |
| Scheduler.OutputKeyIsExact | synaflow/core/dag.py:320-334 | a consumer reads a producer under a key of its own if and only if some two steps depend on that producer |
| Scheduler.EveryConsumerHasItsKey | synaflow/execution/sync_engine/executor.py:304-346 | what a step publishes is there for each of its consumers; a fanned-out or materialised output under keys that no two of them share |
| Scheduler.UnservedStepNeverRuns | synaflow/execution/state.py:56-65 | whatever steps store, a step with a dependency that no parameter and no step provides never runs |
| Scheduler.SubmissionsAreSafe | synaflow/execution/sync_engine/executor.py:196-219 | every submission is the first of its step and comes after its inputs were stored by steps submitted earlier; never more steps are outstanding than the pool has workers |
| Scheduler.SubmittedAfterFailure | synaflow/execution/sync_engine/executor.py:213-236 | the steps submitted after the first failure are exactly those ready when it was reported, none if that was outside a submission loop; the error raised is the first one |
| Scheduler.NothingAfterFailure | synaflow/execution/sync_engine/executor.py:213-236 | if no failing step is done before its callback is attached, nothing is submitted after the first failure |
| Scheduler.FailureDoesNotStopSubmission | synaflow/execution/sync_engine/executor.py:213-219 | two independent steps that fail at once: in every run the second is submitted after the first failure |
| EachLoop.GenerateSync | synaflow/execution/sync_engine/step_runner.py:246-317 | the loop over iterators has exactly the specified trace of calls, yields, error reports, counts and ending |
| EachLoop.GenerateAsync | synaflow/execution/async_engine/step_runner.py:252-334 | the loop over queues with its set of completed inputs has exactly the same trace |
| EachLoop.Preload | synaflow/execution/async_engine/step_runner.py:229-250 | loading a list never waits for room and queues its items and the end marker |
| EachLoop.EachIsExact | synaflow/execution/sync_engine/step_runner.py:253-314 | for every job: call k gets the padded row k, the yields are the successful results in order, the counts are right, and the run ends exactly when the inputs are exhausted, an input fails, a call halts the pipeline, or a call fails under STOP |
| EachLoop.ZipsLongest | synaflow/execution/sync_engine/step_runner.py:237-291 | under CONTINUE the loop is a zip-longest with None padding, successes and errors add up to the longest input, and the threshold raises if and only if the final counts exceed it |
| EachLoop.VerdictIsExact | synaflow/execution/threshold.py:27-59 | under CONTINUE, with n rows and f failing calls, the run ends with the threshold error if and only if f has reached the absolute threshold, or the rate times n for n above 0; otherwise it simply ends |
| EachLoop.ReportsAreExact | synaflow/execution/sync_engine/step_runner.py:277-287 | the i-th error is reported with the i-th failing call, together with the number of calls that succeeded before it and i + 1 errors |
| EachLoop.EndsExactly | synaflow/execution/sync_engine/step_runner.py:253-291 | a run ends by the first input, in order, that fails in the round after the last call, by what the last call did, or when no input has anything left and none fails |
| EachLoop.VerdictByCounts | synaflow/execution/threshold.py:27-59 | where failures fall does not matter: jobs with the same thresholds, rows and number of failing calls end alike, and more failing calls never turn a raise into a pass |
| BoundedIterators.LifecycleStream.Next | synaflow/execution/sync_engine/lifecycle_stream.py:31-62 | whatever its source does later, the stream delivers the items up to the first end or exception, that outcome once, and then only the end |
| BoundedIterators.CallIsScripted | synaflow/execution/sync_engine/lifecycle_stream.py:31-62 | call n gives what the n-th event of the source's script says, item, end or exception, if all before it were items, and the end otherwise |
| BoundedIterators.BoundedIterator.Next | synaflow/execution/bounded_iterator.py:35-60 | each call delivers exactly what the stream below would, items first, then its exception, then the end |
| BoundedIterators.BoundedIterator.Drain | synaflow/execution/bounded_iterator.py:35-47 | consuming it to the end gives the items and the ending of the stream below for every bound |
| BoundedIterators.BoundedIterator.LookAheadIsExact | synaflow/execution/bounded_iterator.py:49-60 | after d deliveries, d at least 1, from n items with bound m, exactly min(n, m * ceil(d / m)) have been pulled |
| AsyncHandoff.PumpLosesNothing | synaflow/execution/async_engine/executor.py:49-70 | in every interleaving an open branch has received and queued exactly what it was offered; when the pump is done that is every item, the failure, the end; an exhausted branch received everything; a failed one that was not terminated received every item and the source's own failure |
| AsyncHandoff.LateConsumerGetsTheRest | synaflow/execution/async_engine/iterator_utils.py:18-40 | pulling an open branch after the pump is done delivers the remaining items and then the failure or the end |
| AsyncHandoff.ClosedAnswers | synaflow/execution/async_engine/iterator_utils.py:18-31 | in every run, a closed branch answers for ever as it was closed: the end exactly if it took the end and received everything, a loud error after an early close, an exception after a failure |
| AsyncHandoff.EarlyCloseIsReported | synaflow/execution/async_engine/iterator_utils.py:21-31 | whatever is done to a branch after its early close, every pull reports that, never the end |
| AsyncHandoff.EndIsFinal | synaflow/execution/async_engine/iterator_utils.py:37-39 | the pull that takes the end marker and every later one end the iteration |
| AsyncHandoff.FailureIsFinal | synaflow/execution/async_engine/iterator_utils.py:33-36 | the pull that takes a failure and every later one raise it, unless another is told |
| AsyncHandoff.WaitingGetsTheNext | synaflow/execution/async_engine/iterator_utils.py:32-40 | a pull on an empty open branch waits and then gets exactly what it would have got had it come later |
| AsyncHandoff.TerminateDropsTheOldest | synaflow/execution/async_engine/iterator_utils.py:71-82 | terminate puts its exception behind what is unread and drops only the oldest entry of a full queue |
| AsyncHandoff.ClosedTakesNothing | synaflow/execution/async_engine/iterator_utils.py:42-53 | a branch closed before the pump came to it is given nothing more |
| AsyncHandoff.PumpIsHeldExactly | synaflow/execution/async_engine/iterator_utils.py:42-53 | in every reachable state the pump can get further by steps of its own if and only if it is not done and does not stand before a branch that is open and full; in particular a closed branch never holds it, not even inside a put on a full queue |
| AsyncHandoff.PumpAdvances | synaflow/execution/async_engine/iterator_utils.py:46-53 | unless it is held, one or two steps of its own bring the pump further |
| AsyncHandoff.PumpCanFinish | synaflow/execution/async_engine/executor.py:49-70 | from every reachable state the pump gets to its end by its own steps and pulls from the open, full branches that hold it |
| AsyncHandoff.TerminationIsNeverLost | synaflow/execution/async_engine/iterator_utils.py:64-82 | after terminate on an open branch, full or not, with any number of suspended pulls and whatever is done to it then, every pull raises the failure told last: that of the last terminate, or one that a suspended pull took afterwards |
| AsyncHandoff.TerminationDecidesExactly | synaflow/execution/async_engine/iterator_utils.py:64-82 | the last terminate decides what all later pulls raise, for all uses of the branch, if and only if no pull was suspended at the first one |
| AsyncHandoff.TerminationAmongConsumers | synaflow/execution/async_engine/iterator_utils.py:32-36 | with nothing put any more, all later pulls raise the given exception if and only if no pull is suspended or the entries that terminate keeps hold no other failure |
| AsyncHandoff.SuspendedPullKeepsFailure | synaflow/execution/async_engine/iterator_utils.py:32-36 | a reachable state in which terminate with e is followed by a suspended pull, and every later one, raising the failure of the source |
| AsyncHandoff.ClosedStaysClosed | synaflow/execution/async_engine/iterator_utils.py:58-62 | terminate changes nothing for a branch that ended or was closed early |
| AsyncHandoff.StepGood | synaflow/execution/async_engine/executor.py:49-70 | every step of the pump and every use of a branch keeps the accounting of every branch |
| AsyncHandoff.AsyncQueueBranch.Next | synaflow/execution/async_engine/iterator_utils.py:18-40 | the pull on the object is the pull of the specification, outcome and new state |
| AsyncHandoff.AsyncQueueBranch.Terminate | synaflow/execution/async_engine/iterator_utils.py:64-82 | the new state of the object, a full queue included |
| ExecutionPlan.PlansFitTheirEngine | synaflow/core/dag_builder.py:607-677 | for every accepted pipeline and every step with a function, the chosen engine's errors for unsupported strategies and wrong kinds are unreachable, and fan-outs and single streams go to the right numbers of consumers |
| ExecutionPlan.PlanIsRight | synaflow/core/dag_builder.py:607-677 | for every step of every Dag: kind, drain, strategy and handoff of the plan, each if and only if; in particular a stream handed to consumers becomes a collection exactly if it, or a consumer with a function, is forced or a consumer takes a collection, and stays lazy otherwise |
| ExecutionPlan.PublishedIsRight | synaflow/execution/sync_engine/executor.py:304-346 | what the chosen engine makes of the output of every step with a function: the value, a collection, a fan-out or one stream, each if and only if |
| ExecutionPlan.UsesExactly | synaflow/core/dag_steps.py:136-170 | a step needs the sync runner if and only if it has a function and a sync stream occurs in its output or arguments, unions included; the async one if its function is async or an async stream occurs there |
| ExecutionPlan.PlainPipelineInAsyncEngine | synaflow/execution/async_engine/executor.py:441-448 | in the dispatch alone: the async publish meets no wrong kind in a pipeline that needs neither runner if and only if every EACH step is drained |
| ExecutionPlan.LazyStreamsHaveReaders | synaflow/core/dag_builder.py:628-654 | a stream that is published lazily has, by the materialisation fixpoint, no consumer whose function needs a collection or is forced, and is not forced itself; undrained, it has a consumer that is not barrier-only |
| ExecutionPlan.ValidateSyncAsync | synaflow/core/dag_steps.py:136-170 | rejects if and only if some step uses a sync stream and some step an async feature; the flags say which occur |
| ExecutionPlan.PlanMaterialization | synaflow/core/dag_builder.py:492-538 | the fixpoint loop ends and marks exactly the producers that are forced or have a consumer that needs a collection |
| ExecutionPlan.Compile | synaflow/core/dag_builder.py:607-677 | the builder's steps together: refused if and only if sync and async features mix or a step function looks wrong for the runner; otherwise every output can be published in the chosen engine, exactly the steps whose function's looks do not deceive run there, every plan is the one of `PlanIsRight`, and a lazily published stream has a reader and no consumer that needs a collection |
| ExecutionPlan.StepsRunExactly | synaflow/execution/async_engine/step_runner.py:220-224 | in a pipeline that the builder accepts and an entry point admits, a step runs in the chosen engine if and only if its function's looks do not deceive, and in the other engine if and only if it hides an awaitable and that engine's publish has a branch for it |
| ExecutionPlan.EngineFitsExactly | synaflow/execution/async_engine/executor.py:587-596 | for such a pipeline without includes: all steps run if and only if the engine is the chosen one and no step function is an object, or a partial of one, whose call is an async generator, or there is no function to call |
| ExecutionPlan.AsyncGeneratorObject | synaflow/core/dag_builder.py:598-604 | such an object, or a partial of it: accepted and admitted for the async engine, and its call fails there |
| ExecutionPlan.IncludedAsyncGenerator | synaflow/core/dag_expansion.py:365-390 | a step with an async generator function is accepted in its own pipeline and refused when included |
| ExecutionPlan.IncludedCoroutineObject | synaflow/core/dag_expansion.py:365-390 | an object whose call is a coroutine runs in its own pipeline; included, it is accepted for the sync engine and does not run |
| StepFunctions.LooksDecideExactly | synaflow/core/adapters.py:10-31 | the call of a function works in the engine it looks made for if and only if it is neither an object whose call is an async generator nor a wrapper around something async that is no coroutine function; a plain-looking one works in the async engine if and only if it hides an awaitable |
| StepFunctions.KindTells | synaflow/core/dag_builder.py:587-604 | for a function itself or a partial of it the compiled kind tells exactly what a call gives |
| StepFunctions.WrappingKeepsExactly | synaflow/core/dag_expansion.py:348-398 | the wrapper of an include keeps a function's looks and where its call works if and only if the function is not async or is a coroutine function |
| ExecutionPlan.PlainStepInAsyncEngine | synaflow/execution/async_engine/executor.py:587-596 | one plain function: accepted and admitted, publishing would work, the call does not |
| ExecutionPlan.LazyEachInAsyncEngine | synaflow/execution/async_engine/executor.py:441-448 | an undrained EACH step of a plain pipeline, whose stream has the wrong kind for the async publish |
| Registry.PipelineRegistry.Add | synaflow/core/pipeline_registry.py:40-58 | succeeds if and only if no include cycle, no two instances of a name, no clash with a registered instance and no failing build is reachable; then the whole tree is registered; otherwise nothing changes and the error is the first that applies, with its evidence; registered entries are never replaced; names, Dags and include closure stay consistent |
| Registry.CollectPipelineTree | synaflow/core/pipeline_registry.py:78-106 | the result is exactly the reachable definitions by name, refused if and only if an include cycle or two instances of a name are reachable |
| Registry.Collector.Visit | synaflow/core/pipeline_registry.py:83-103 | one visit restores the set being visited and finishes everything below, or has found the evidence for its error |
| Registry.FinishedTree | synaflow/core/pipeline_registry.py:97-103 | definitions finished in post-order form a tree without include cycle that is closed under includes |
| Registry.RegistryIsClosed | synaflow/core/pipeline_registry.py:11-25 | everything reachable by includes from a registered definition is registered under its own identity |
| Registry.CommitKeeps | synaflow/core/pipeline_registry.py:48-58 | committing a whole tree keeps the registry closed under includes |

## Left out

- Fanout.LosslessTee: items are identified with their positions in the source, since the pump never looks at them; `Values` turns positions back into items. An item that is itself a terminal marker is not modelled.
- `SyncFanout` and `SyncQueueIterator` are modelled on values, as the state of a step relation, not as objects: what matters is the interleaving between lock releases.
- Threads, asyncio tasks, timeouts, polling, joins and logging: a timeout is a step that changes nothing.
- FanoutReaders.LockstepAlwaysFinishes: liveness is stated as "can always go on to the end" together with a budget that all useful steps use up, not as a fairness property of infinite runs.
- Expansion.ExpansionPreservesMeaning: references are exact names, without the fallback to plural dataset names; adapters that return an iterable of params are not modelled. The names of steps, fields and resources of a sub-pipeline must keep apart before and after prefixing (`WellNamed`). The root's resources are the merged ones.
- Observers, materialisers, types and descriptions that expansion copies along, the return annotation check of include steps, and the scope paths it attaches.
- IncludeChain.ExpandRoot: families in which a cycle of includes consists of empty or dotted names only are left to the depth-bounded specification; that one of them can fail to end is `ImproperNameNeverEnds`. Python's own recursion limit is not modelled.
- Scheduler.RunGraph.Run: covers the run up to the end of the wait; steps still running after a failure are covered by the contract of `StepDone`, the pool shutdown and `abort` on fan-outs are not. Callbacks of cancelled futures are not modelled.
- What a step stores is a parameter of the scheduler model; that hidden steps store nothing is an instance of it.
- The async `_run_graph`, which has the same structure but no re-entrant callbacks.
- EachLoop.GenerateAsync: queues deliver what their producer put, waiting is not visible; dict and bare-scalar inputs and items that are exceptions are left out, because the two engines treat these differently. The generator is drained to its end; closing it early is not modelled.
- EachLoop.CheckThreshold: the error rate is a real number, without floating-point rounding.
- Lifecycle callbacks, observer events and the wrapping of manually raised threshold exceptions.
- BoundedIterators.BoundedIterator.Next: the source is a `LifecycleStream`; over a raw iterator that resumes after raising, items can overtake the exception.
- BoundedIterators.BoundedIterator.constructor: a bound below 1, which the source refuses with an error, is a precondition here.
- BoundedIterators.LifecycleStream.Next: callbacks that raise themselves are not modelled.
- AsyncHandoff.PumpLosesNothing: no cancellation of the pump task. The failure is the cause that the pump delivers, whatever wraps it.
- ExecutionPlan.StepsRunExactly: a plain function that returns an awaitable is not modelled, nor a partial that Python keeps nested because it carries attributes, nor what a step's `on_error` makes of the failing call. Whether what a call gives fits the declared output is checked at run time.
- ExecutionPlan.PlansFitTheirEngine: annotations are reduced to the classes the builder tells apart; whether a step function returns what its annotation says is checked at run time and not modelled.
- Registry.PipelineRegistry.Add: `build_dag` is a function of the definition; loading a registry from a module is not part of this model.
- `type_compatibility.is_type_compatible`, signature resolution in `dag_dependencies` and `resolve_step_mode`: they would add case analyses without behaviour over runs.
- Command line, serializers, storage, resource context managers and documentation scripts.
