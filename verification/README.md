# dagnats: a verified model

dagnats runs workflow graphs over NATS JetStream. This project models the parts
of it whose correctness depends on reasoning across functions, states or
interleavings, and proves what they promise.

- **Graphs, Dag, Kahn** - workflow definitions, their dependency graphs, and the
  two queue-based algorithms over them: cycle detection and the longest chain.
- **Scheduler** - ready and skipped steps, completion, and every run that
  dispatches, completes, skips, fails, triggers or recovers steps.
- **Fragments** - planner fragments: validation, renaming, grafting into a
  running workflow.
- **Compensation** - the saga chain and the order in which the engine walks it.
- **Diagnostics, StringOrder, JobsGuard, JobsSpec, JobsParse, JobsCycles,
  JobsCompile, SmallestSpec** - the `jobs:` compiler, from the document screen to a
  definition the scheduler finishes.
- **LogIngest, AckMaps, WorkerConns, ClaimProtocol** - the HTTP bridge: log
  ingestion, the in-flight map with its index, sweep and caps, the connection
  registry, and the claim protocol as a transition system over every
  interleaving of polls, resolves, disconnects, sweeps and redeliveries.
- **AgentJournal** - the fenced agent journal with many writers, lost
  acknowledgements, looks at the tail, withdrawals and crashes, and the events
  published from its commits.
- **DefKeys** - version keys of stored definitions.
- **SchedulerCases, FragmentCases, CompensationCases, ClaimCases, JournalCases** -
  the definitions and runs at which a promise fails.

Imperative code is modelled by methods with loops and by classes; each method is
proved against a specification function or relation, and the properties are
proved of those. Protocols are transition systems: one action is one atomic step
of the code, and the theorems quantify over every finite sequence of actions, so
a crash is a run that stops.

What enters as a parameter: clocks, JSON encoding and encoded sizes, the `on:`
parser, the namespace check, the outcome of `dag.Validate`, the truth of SkipIf
conditions, and whether a publish, Ack or Nak succeeds.

## Where the code and its promises part

Each entry names the lemma at a concrete input or run, and then the one that
gives the exact condition.

- Recovering a failed step skips its pending dependents at once, so a step can be
  dispatched while something it depends on is still in flight
  (`SchedulerCases.RecoveryRunsAhead`, `Scheduler.RunClosedIff`); a handler shared
  by two steps is queued again and leaves the completed set
  (`SchedulerCases.HandlerLeavesCompleted`).
- A validated definition in which a normal step waits on a failure handler without
  a skip condition cannot complete unless a step fails
  (`SchedulerCases.ValidationAdmitsADeadEnd`,
  `SchedulerCases.FailureLiftsTheDeadEnd`, `Scheduler.CompletesIffNoAuxDeps`).
- The engine dispatches the rest of a compensation chain forwards, so it follows
  the promised reverse order only up to two compensations
  (`CompensationCases.ThreeCompensationsDiverge`, `Compensation.EngineFollowsChainIff`).
- `ResolveCompensateChain` reverses the definition order, which is the caller's
  insertion order and not, as its comment says, a topological one
  (`CompensationCases.InsertionOrderCanUndoDependencyFirst`, `Compensation.DependentsFirstIff`).
- OnFailure and Compensate names of a fragment are not renamed, so they can turn a
  static step into an auxiliary one; the run then cannot complete unless a step
  fails (`FragmentCases.UnrenamedTargetBlocksRun`, `Fragments.GraftContinuesRun`).
- The engine validates a fragment after renaming it, so an empty ID passes
  (`Fragments.EmptyIdSlipsThrough`, `Fragments.ValidatingAfterNamespacing`).
- A second planner's graft is applied to a definition that already holds the first
  one's steps, together with the whole list again, and a step of the first that is
  still to be dispatched is resolved twice (`FragmentCases.SecondGraftListsTwice`,
  `Fragments.ReappliedIdsUniqueIff`).
- Resolves that do not end a claim take no claim mutex, yet ack it when the run was
  cancelled or the journal stopped, so they can settle a delivery a release also
  settles (`ClaimCases.LockFreeAckCanDoubleSettle`); there is one such settlement
  for each of them and at most one besides
  (`ClaimProtocol.SettledOnceButForLockFreeAcks`).
- A poll can hand out a claim the closing scan has already released
  (`ClaimCases.ReleasedTaskCanBeHandedOut`, `ClaimProtocol.RunHandsOutReleasedIff`).
- A journal record's message id names its index and not its content. After a lost
  acknowledgement a different record tried at the same index is taken for written:
  the event then contradicts the journal, or the attempt commits twice
  (`JournalCases.OtherRetryAnnouncesOther`, `JournalCases.OtherRetryCommitsTwice`,
  `AgentJournal.RetryKeepsJournalIff`).
- Reading the journal moves a holder's tail past a commit of its own whose
  acknowledgement was lost, but not its next index. Retrying that very commit is
  then accepted at the tail once the server has forgotten the message id, which it
  does after two minutes (internal/natsutil/agent_journal.go:23) while a claim lasts
  five (internal/consumername/consumername.go:24): the attempt holds two commits, and
  is answered under two sequence numbers (`JournalCases.SameRetryCommitsTwice`,
  `AgentJournal.RetryKeepsJournalIff`).
- A claimed delivery of a cancelled run is acknowledged without an event, its commit
  notwithstanding (`JournalCases.WithdrawnWithoutEvent`,
  `AgentJournal.AckMeansAnnouncedStaleOrWithdrawn`).
- The comment on a commit's wait says a republished continue carries it; the code
  does not send it (`JournalCases.RepublicationDropsTheWait`,
  `AgentJournal.EventsTellTheCommit`).

## Model

| member | source | states |
|---|---|---|
| Kahn.BuildInDegrees | dag/validate.go:494-505 | in-degrees count each step's dependency entries and the dependents relation is the exact inverse of DependsOn, duplicates included |
| Kahn.DetectCycle | dag/validate.go:493-530 | accepts any step list exactly when its IDs are unique and its dependency relation is closed and acyclic, whatever order the roots come in |
| Kahn.DrainedMeansSound | dag/validate.go:523-528 | if the queue drains having dequeued as many nodes as the graph has, the dequeue order is topological and the graph is closed and acyclic |
| Kahn.MaxChainDepth | dag/dynamic.go:190-235 | on a closed acyclic graph with unique IDs, the result is the length of the longest dependency path and every step is dequeued once, dependencies first |
| Kahn.DepthsAreLongest | dag/dynamic.go:214-234 | depths raised along released edges are lengths of real paths and bound every path |
| Scheduler.ResolveReady | dag/resolve.go:8-29 | returns, in definition order, exactly the non-auxiliary steps that are neither completed nor queued and whose dependencies are all completed |
| Scheduler.ResolveSkipped | dag/resolve.go:35-56 | returns, in definition order, exactly the steps that have a skip condition which holds, are neither completed nor queued and whose dependencies are all completed; every non-auxiliary one of them is also ready |
| Scheduler.CollectAuxSteps | dag/builder.go:399-413 | the auxiliary set is exactly the non-empty OnFailure and Compensate targets |
| Scheduler.NeverStuck | dag/resolve.go:8-29 | in an acyclic closed definition, some step is ready whenever a normal step is unfinished, nothing unfinished is queued and the auxiliary steps it waits on are done |
| Scheduler.RecoverIfOnFailure | internal/engine/recovery_manager.go:809-843 | the in-place loops change nothing without a failed step of the completed handler; otherwise the first one is recovered, exactly its pending dependents are skipped, and every other status stays |
| Scheduler.EnabledIff | internal/engine/orchestrator.go:2465-2520 | in terms of statuses alone: a step is dispatched, or skipped while its condition holds, exactly when it has not started and everything it waits on has finished, and started, completed or failed exactly while in flight |
| Scheduler.StatusAfter | internal/engine/recovery_manager.go:809-843 | for every action and every step: each status is reached by its own action, a completed handler recovers the first failed step that names it and skips what waits on it, and nothing else moves |
| Scheduler.TriggerNeedsFailure | internal/engine/recovery_manager.go:313-356 | an auxiliary step is triggered exactly when a failed step names it, or a step has failed and it compensates a finished one |
| Scheduler.SkippedOnlyIfHolds | dag/resolve.go:35-56 | while nothing fails and no skipped step has a condition that holds, no run makes a step skipped |
| Scheduler.RunKeepsDependencies | internal/engine/orchestrator.go:2465-2520 | over every legal run, failures, recoveries and re-queued handlers included, completed normal steps stay completed and every dispatched step that waits on normal steps has all its dependencies completed |
| Scheduler.ClosedAfterIff | internal/engine/recovery_manager.go:826-840 | one action keeps every started step's dependencies completed exactly when whatever a recovery skips has its other dependencies done or skipped too, and no re-queued handler was one a started step waits on |
| Scheduler.RunClosedIff | internal/engine/recovery_manager.go:809-843 | so every state of a run has that exactly when every action of the run is of that kind |
| SchedulerCases.RecoveryRunsAhead | internal/engine/recovery_manager.go:826-840 | a validated definition and a run that dispatches a step while one of its transitive dependencies is in flight |
| SchedulerCases.HandlerLeavesCompleted | internal/engine/recovery_manager.go:336-339 | a run in which a completed handler is queued again and leaves the completed set |
| Scheduler.DispatchedAtMostOnce | internal/engine/orchestrator.go:2465-2520 | no run dispatches a step twice through ready resolution |
| Scheduler.CanFinish | dag/resolve.go:84-97 | from every state without failures in which no normal step is stuck, the run can be driven to completion |
| Scheduler.StaysStuck | dag/resolve.go:8-56 | while nothing fails, no step of a chain of pending steps that ends in an auxiliary step without a skip condition ever starts |
| Scheduler.CompletesFromIff | dag/resolve.go:84-107 | from every state without failures, a run can complete with no further failure exactly when no normal step waits, through pending steps, on a pending auxiliary step that cannot be skipped |
| Scheduler.CompletesIffNoAuxDeps | dag/resolve.go:84-107 | a well-formed definition whose auxiliary steps have no skip condition can complete without a failure exactly when no normal step waits on an auxiliary one |
| Scheduler.RoundsFollowDepth | dag/resolve.go:8-29 | after k rounds of resolving and completing, exactly the normal steps of depth at most k are complete |
| Scheduler.FinishesInLongestChainRounds | dag/resolve.go:84-97 | a definition finishes in as many rounds as its longest chain has steps |
| Scheduler.FinishesInStepCountRounds | dag/resolve.go:84-97 | a closed acyclic definition without auxiliary steps finishes within as many rounds as it has steps |
| SchedulerCases.ValidationAdmitsADeadEnd | dag/validate.go:535-577 | a definition that passes validation and cannot complete unless a step fails |
| SchedulerCases.FailureLiftsTheDeadEnd | internal/engine/recovery_manager.go:313-356 | the run in which a failure completes it |
| Fragments.NamespaceFragment | dag/dynamic.go:240-263 | prefixes every ID and every dependency with the planner's ID and a dot, forces the step type to Normal and keeps every other field |
| Fragments.QualifyInjective | dag/dynamic.go:248-258 | distinct names stay distinct under one planner's prefix |
| Fragments.NamespacedGraph | dag/dynamic.go:240-263 | the renamed fragment's dependency graph is the original one with its nodes renamed |
| Fragments.NamespacingPreservesStructure | dag/dynamic.go:240-263 | unique IDs, closure, acyclicity and the longest chain hold of a fragment exactly when they hold of its renaming |
| Fragments.ValidateFragmentIds | dag/dynamic.go:95-127 | accepts exactly the fragments with non-empty, unique IDs that clash with no existing step |
| Fragments.ValidateFragmentTasks | dag/dynamic.go:132-162 | accepts exactly the fragments whose every task is named, dispatchable and, if a list is given, on it |
| Fragments.ValidateFragmentDeps | dag/dynamic.go:165-183 | accepts any fragment, repeated IDs included, exactly when every dependency names a step of it |
| Fragments.ValidateFragment | dag/dynamic.go:46-92 | accepts exactly the fragments within the step and depth limits with allowed tasks, sound IDs, closed dependencies and no cycle; the depth check panics exactly on a fragment sound in all else with more than 10000 steps |
| Fragments.ValidatingAfterNamespacing | internal/engine/planner.go:30-88 | what validating the renamed fragment really checks: the structure of the original, and freshness of the renamed IDs |
| Fragments.EmptyIdSlipsThrough | internal/engine/planner.go:30-88 | a fragment with an empty ID is refused as it is and accepted once renamed |
| Fragments.WireEntries | internal/engine/planner.go:139-153 | in place, steps without dependencies come to depend on the planner alone, and nothing else changes |
| Fragments.GraftedStep | internal/engine/planner.go:139-188 | a grafted step is the fragment's under its qualified ID and as a normal step, with every other field kept; an entry step waits on the planner, any other on its qualified dependencies |
| Fragments.GraftSplits | internal/engine/planner.go:139-188 | the grafted graph is the static graph unchanged beside the renamed fragment, whose entry steps depend on the planner |
| Fragments.GraftWellFormed | dag/dynamic.go:24-40 | grafting a sound fragment with fresh IDs leaves a definition with unique IDs, closed and acyclic |
| Fragments.GraftAux | dag/dynamic.go:24-40 | the auxiliary set grows by exactly the fragment's raw OnFailure and Compensate names |
| Fragments.GraftKeepsFlowIff | dag/dynamic.go:24-40 | the grafted definition has no normal step waiting on an auxiliary one exactly when no static step waits on an auxiliary step or a name the fragment targets, and no fragment step waits on its target or on an auxiliary planner |
| Fragments.GraftContinuesRun | internal/engine/planner.go:157-188 | a graft in the middle of any untroubled run changes no recorded status and keeps the dependency invariant, and the augmented run can complete without a failure exactly when no normal step of the definition or fragment waits, through pending steps and from a fragment's entry steps through the planner, on a pending step without a skip condition that is, or becomes, auxiliary; where no auxiliary step has a skip condition this is when none waits on one directly |
| FragmentCases.UnrenamedTargetBlocksRun | dag/dynamic.go:240-263 | a reachable run in which the planner has completed and which can complete; a fragment that passes validation names the pending static step a in OnFailure, and the augmented run cannot complete unless a step fails |
| Fragments.ReappliedIdsUniqueIff | internal/engine/planner.go:157-188 | applying the whole dynamic list to an already effective definition keeps IDs unique exactly when no earlier fragment was grafted |
| Fragments.ReappliedReadyTwice | internal/engine/planner.go:157-188 | after that, an earlier dynamic step that is ready is listed as ready twice |
| FragmentCases.SecondGraftListsTwice | internal/engine/planner.go:157-188 | a run of two planners after which the first one's recorded step is ready when the second grafts, and is resolved twice |
| Compensation.ResolveCompensateChain | dag/resolve.go:113-154 | the chain built by collecting, reversing in place and linking equals its specification |
| Compensation.ReverseInPlace | dag/resolve.go:139-142 | swapping from both ends leaves exactly the reversed sequence |
| Compensation.ChainListsTargetsReversed | dag/resolve.go:113-154 | with defined, distinct targets the chain lists each completed compensable step's target exactly once, in reverse definition order |
| Compensation.ChainSteps | dag/resolve.go:113-154 | each link is the step of the definition that its ID names, with every field kept but its dependencies: the previous link alone, and none for the first |
| Compensation.ChainCanFinish | dag/resolve.go:113-154 | the chain can be driven to completion, from its start and from any point of its run without a failure |
| Compensation.ChainRunsOneAtATime | dag/resolve.go:144-153 | in every run of the chain at most one compensation is ready or in flight |
| Compensation.DependentsFirstIff | dag/resolve.go:113-154 | every step is compensated before its transitive dependencies exactly when the definition lists dependencies first |
| Compensation.TopologicalOrderSuffices | dag/resolve.go:113-154 | a topological definition order compensates dependents first |
| CompensationCases.InsertionOrderCanUndoDependencyFirst | dag/builder.go:371-393 | a validated definition and a run ending in a failure whose chain undoes a dependency before its dependent |
| Compensation.NextCompensation | internal/engine/recovery_manager.go:412-470 | on a completion the engine picks the first queued compensation in definition order, and none exactly when none is queued |
| Compensation.EngineOrderIs | internal/engine/recovery_manager.go:362-470 | the engine's whole order is the last compensation first and then the others forwards |
| Compensation.EngineFollowsChainIff | internal/engine/recovery_manager.go:362-470 | the engine follows the promised chain exactly when at most two steps are compensated |
| CompensationCases.ThreeCompensationsDiverge | internal/engine/recovery_manager.go:362-470 | a definition and a run ending in a failure with three compensations, which the engine takes in another order than the chain |
| Compensation.EngineDependentsFirstIff | internal/engine/recovery_manager.go:362-470 | the engine undoes dependents first exactly when every compensated step that depends on another is the last listed, or is listed before it while the other is not the last |
| Diagnostics.CapKeepsFirstProblems | ci/diagnostics.go:25-43 | any list of raised problems comes out as itself, or as its first hundred and one sentinel |
| Diagnostics.LengthTellsBelowCap | ci/diagnostics.go:25-43 | the list's length tells whether anything was raised exactly while it is below the cap |
| JobsGuard.DuplicateKeyDiagnostics | ci/jobs_guard.go:58-75 | silent exactly when no scalar key of the mapping repeats an earlier key |
| JobsGuard.JobsDocumentDiagnostics | ci/jobs_guard.go:27-55 | silent exactly when the whole tree holds no alias and no repeated key and fits the node budget |
| JobsGuard.CleanIff | ci/jobs_guard.go:27-75 | a tree passes exactly when no node in it is an alias and no mapping in it has two keys alike |
| StringOrder.SortStrings | ci/jobs.go:355-355 | a sorted permutation of the strings |
| StringOrder.LessEqIff | ci/jobs.go:355-355 | the order is by characters: a string comes first exactly when it is a prefix, or smaller where the two first differ |
| StringOrder.SortedUnique | ci/jobs_compile.go:337-351 | a sorted order is the only one, so the result does not depend on the order of a map's keys |
| JobsSpec.ContainsExpressionIff | ci/jobs.go:190-205 | a text has an expression exactly when the opening marker occurs in it |
| JobsSpec.SecretRefIff | ci/jobs.go:35-37 | a value names a secret exactly when it is the two markers around optional spaces, the prefix and a name of the allowed form |
| JobsSpec.EntryOkIff | ci/jobs.go:233-276 | an env entry is accepted exactly when its key names a variable and its value is a text without expression or the secret of that name |
| JobsSpec.EnvPlainIff | ci/jobs.go:233-276 | a variable has a plain value exactly when an accepted entry gives it one, and then the last such entry's |
| JobsSpec.EnvSecretIff | ci/jobs.go:233-276 | a variable is a secret exactly when an accepted entry binds it to the secret of its own name |
| JobsParse.ParseJobsEnv | ci/jobs.go:208-230 | silent exactly on null or a mapping of accepted entries; in a block without repeated keys no variable is both plain and secret |
| JobsParse.ParseNeeds | ci/jobs.go:451-479 | silent exactly on a job ID or a list of scalars; the needs are exactly the scalar entries, each kept where it first occurs |
| JobsParse.ParseTimeoutMinutes | ci/jobs.go:482-501 | the stated minutes, or the previous value and a problem exactly when they are not an integer in range |
| JobsParse.ParseRetries | ci/jobs.go:504-523 | the stated retries, or zero and a problem exactly when they are not an integer in range |
| JobsSpec.JobTextsFromKeys | ci/jobs.go:423-449 | name, environment and working directory of a job are each read from the key that names them |
| JobsSpec.JobNeedsFromKeys | ci/jobs.go:423-449 | so are its needs and retries |
| JobsSpec.JobEnvFromKey | ci/jobs.go:423-449 | so is its env |
| JobsSpec.StepFromKeys | ci/jobs.go:546-578 | so is every field of a step |
| JobsSpec.JobTimeoutFromKey | ci/jobs.go:423-449 | the timeout is the default without its key and the stated minutes with an acceptable one |
| JobsSpec.JobStepsFromKey | ci/jobs.go:526-544 | a steps key that occurs once gives all the job's steps, in order |
| JobsSpec.StepsInOrder | ci/jobs.go:526-544 | a list of steps gives one step for each entry, in order |
| JobsSpec.JobsFromPairs | ci/jobs.go:359-390 | a job ID is declared exactly by a pair whose key is that ID and a valid one, and its job is that of the last such pair |
| JobsSpec.SoundStepLosesNothing | ci/jobs.go:546-578 | of a step that raises no problem every text is read as it stands, there is a command, and no env entry is lost |
| JobsSpec.SoundJobLosesNothing | ci/jobs.go:394-449 | of a job that raises no problem the texts, needs, timeout and retries are what the document says, and no env entry is lost |
| JobsSpec.SoundJobKeepsSteps | ci/jobs.go:394-449 | and its steps are one for each entry of its list, which is not empty, with everything in each of them kept |
| JobsParse.ParseStep | ci/jobs.go:546-578 | silent exactly on a mapping of known keys, each with a value of its kind, with a non-empty command |
| JobsParse.ParseSteps | ci/jobs.go:526-544 | silent exactly on a non-empty list of sound steps |
| JobsParse.ParseJob | ci/jobs.go:394-421 | the job is what its mapping says; silent exactly on a sound mapping with steps, and then every step has a command; below the cap ok says whether it was silent |
| JobsParse.KeyOnce | ci/jobs.go:359-390 | in a screened document a job ID occurs once, so the duplicate-ID panic is unreachable |
| JobsParse.ParseJobsMap | ci/jobs.go:359-390 | the jobs are those the mapping says; silent exactly on a non-empty mapping of valid IDs to sound jobs; each job's own problems are none exactly when its node is sound, and every ok flag says so below the cap |
| JobsParse.ParseJobsSpec | ci/jobs.go:333-357 | env, jobs and sorted job IDs are what the document says; silent exactly when every key is known and every value sound; every job's problems are among those raised |
| JobsCycles.NeedsDiagnostics | ci/jobs_compile.go:145-166 | reports every need that is not a job at the needs key of its job and nothing else, so it is silent exactly when the needs are closed |
| JobsCycles.CycleDiagnostic | ci/jobs_compile.go:228-250 | names the stack from the gray job up, closed by that job, at the needs key of the job that closes it |
| JobsCycles.BackEdgeClosesCycle | ci/jobs_compile.go:216-218 | an edge to a gray job closes a real cycle that repeats no other job |
| JobsCycles.SearchFrom | ci/jobs_compile.go:195-221 | one root's traversal keeps the search invariant and never exceeds the step bound, so its panic is unreachable |
| JobsCycles.StepBound | ci/jobs_compile.go:190-199 | steps taken never exceed jobs plus needs |
| JobsCycles.CycleDiagnostics | ci/jobs_compile.go:177-225 | reports something exactly when the needs have a cycle; every reported path is a real simple cycle, and no closing edge is reported twice |
| JobsCompile.SortedKeys | ci/jobs_compile.go:337-351 | every key of the map exactly once, in order |
| JobsCompile.JobConflicts | ci/jobs_compile.go:306-331 | reports every entry that is plain at its level and secret at any level, and something exactly when there is one |
| JobsCompile.SecretConflictDiagnostics | ci/jobs_compile.go:298-334 | a job stays ok exactly when no variable reaching it is both secret and plain, even past the diagnostic cap |
| JobsCompile.UnconflictedIffSeparate | ci/jobs_compile.go:353-399 | a job has no conflict exactly when its payload holds no name both ways at job level, step level or across them |
| JobsCompile.BuildJobPayload | ci/jobs_compile.go:357-399 | the payload's env has the keys of both levels, with the job's value where the job has one and the workflow's elsewhere; its secrets are those of both; name, directories, environment and every step's fields are the job's; and the secret-overlap panic is unreachable |
| JobsCompile.CarriesIff | ci/jobs_compile.go:357-399 | no other payload carries that |
| JobsCompile.SizesAdd | ci/jobs_compile.go:253-290 | the sizes of jobs add up, and one job counts the bytes its payload encodes to |
| JobsCompile.JobPayloads | ci/jobs_compile.go:253-290 | below the cap, silent exactly when every ok job encodes within its bound and all of them within the definition's, and then none is missing; at the cap nothing is encoded |
| JobsCompile.BuildJobSteps | ci/jobs_compile.go:415-435 | one step per job carrying its needs, limits and payload |
| JobsCompile.StepsKeepNeeds | ci/jobs_compile.go:415-435 | the compiled steps' dependency graph is the needs relation |
| JobsCompile.JobsWorkflowTimeout | ci/jobs_compile.go:440-463 | the exact sum of the jobs' times, but at least 45 minutes and at most a year; no product or sum leaves the 64-bit range |
| JobsCompile.TimesAdd | ci/jobs_compile.go:440-463 | the times of jobs in sequence add up, and one job counts its timeout once and once more for each retry |
| JobsCompile.ChainFits | ci/jobs_compile.go:437-463 | every chain of needs, each job using all its attempts, fits in the sequential time |
| JobsCompile.RunPasses | ci/jobs_compile.go:89-94 | the passes together raise nothing exactly on a clean document, and every job that is encoded is sound in the document, however many problems the others raised |
| JobsCompile.CompileJobs | ci/jobs_compile.go:68-115 | compiles exactly when the document has no checks key, alias or repeated key and fits the node budget, every key is known and every value sound, needs are declared and acyclic, no variable reaching a job is both secret and plain, payloads fit their bounds, and the described definition is valid and small enough; the result is that definition, it finishes within as many rounds as it has jobs, and it outlasts every chain short of the one-year ceiling |
| SmallestSpec.SmallSpecSays | ci/jobs.go:333-449 | a document of one job with one step is read as that job, with that command, the default limits and nothing else |
| SmallestSpec.SmallSpecPassesIff | ci/jobs_compile.go:89-94 | whatever its job is called and runs, the passes raise nothing exactly when the payload encodes within its bound |
| SmallestSpec.SmallSpecCompilesIff | ci/jobs_compile.go:68-115 | it compiles exactly when its payload encodes within its bound and the definition of that one step, with the default limits, is valid and small enough |
| LogIngest.PlanLogIngest | bridge/logs.go:278-321 | the loop computes the specified plan |
| LogIngest.PlanSplits | bridge/logs.go:278-321 | planning two requests in turn equals planning them as one |
| LogIngest.PlanDelivers | bridge/logs.go:278-321 | a plan publishes the admitted prefix of the tagged bytes in order, in non-empty pieces within the chunk bound, and marks the cut once, last |
| LogIngest.HistoryDelivers | bridge/logs.go:157-182 | over any history of requests and end markers, the planned messages are numbered without gap or repetition, carry exactly the first bytes up to the budget, and mark the cut once exactly when the budget was reached |
| LogIngest.HistoryMarksEndings | bridge/logs.go:334-366 | every attempt-ending marker is published, under its own text and in order |
| LogIngest.HistoryHeldIff | bridge/logs.go:366-413 | whatever publishes fail, the stream holds the other messages under their own numbers, and all admitted bytes exactly when no failed message carried any |
| LogIngest.SpentMeansCut | bridge/logs.go:297-302 | a spent budget is always already cut, so the planner's first budget branch is never the one that cuts |
| AckMaps.IndexIsScan | bridge/ackmap.go:280-302 | an index without empty sets that agrees with the entries is the full scan |
| AckMaps.AckMap.DeleteLocked | bridge/ackmap.go:289-302 | removes one entry and keeps the index equal to the scan |
| AckMaps.AckMap.SweepLocked | bridge/ackmap.go:523-540 | when a sweep is due, keeps exactly the entries younger than the reap window, and otherwise all; none is altered |
| AckMaps.AckMap.EvictOldestLocked | bridge/ackmap.go:546-566 | drops one entry that no other is older than |
| AckMaps.AckMap.StoreForConn | bridge/ackmap.go:182-205 | sweep, at most one eviction, then the new entry, with index and caps kept |
| AckMaps.AckMap.ConnClaims | bridge/ackmap.go:216-231 | the index yields every claim of the connection exactly once |
| AckMaps.AckMap.ConnClaim | bridge/ackmap.go:234-245 | finds a claim exactly when it was polled under that connection |
| AckMaps.AckMap.TakeUnresolved | bridge/ackmap.go:251-263 | takes the entry exactly when it is the same unfenced delivery |
| AckMaps.AckMap.Touch | bridge/ackmap.go:418-434 | restarts the entry's window and creates nothing |
| AckMaps.AckMap.Delete | bridge/ackmap.go:437-446 | removes the task's entry, if there is one, and nothing else |
| AckMaps.AckMap.WithLogState | bridge/ackmap.go:346-372 | the log counters change as one step and nothing else does |
| AckMaps.AckMap.SetJournalStop | bridge/ackmap.go:655-671 | fences the entry and changes nothing else |
| AckMaps.AckMap.MarkResolved | bridge/ackmap.go:458-478 | evicts a marker of minimal time at the cap, then records this one |
| AckMaps.AckMap.WasResolvedBy | bridge/ackmap.go:490-508 | true exactly for a marker within its lifetime and an admin or the resolving token; an expired marker is removed |
| AckMaps.RunStaysBounded | bridge/ackmap.go:24-52 | in every run both maps stay within their caps |
| AckMaps.StoreLeavesOnlyYoung | bridge/ackmap.go:182-205 | on a clock that does not run backwards, right after any store no entry is older than the reap window plus one sweep interval |
| AckMaps.StoreDropsOnly | bridge/ackmap.go:182-205 | a store leaves another entry as it is, or drops it: past the reap window when a sweep is due, and then always, or as the oldest of a full map |
| AckMaps.StoreRecords | bridge/ackmap.go:182-205 | a store records this delivery, claimed now, with fresh counters and no fence |
| AckMaps.LiveClaimStays | bridge/ackmap.go:15-36 | on a clock that does not run backwards, a claim made or touched is still there, the same delivery, after anything within a reap window of that, unless removed, claimed anew or evicted from a full map; the window exceeds the ack wait |
| AckMaps.ResolvedRemembered | bridge/ackmap.go:458-508 | a resolved task is remembered with the token that resolved it for the whole lifetime of its marker, unless marked anew or evicted at the cap |
| WorkerConns.Registry.Open | bridge/workerconn.go:43-52 | the new connection becomes the current one of its id |
| WorkerConns.Registry.Close | bridge/workerconn.go:56-67 | sets both flags and forgets the connection only if it is still current |
| WorkerConns.Registry.Current | bridge/workerconn.go:70-74 | the newest connection opened for the id, unless it has closed |
| WorkerConns.CurrentIff | bridge/workerconn.go:43-74 | over any history of opens and closes, a connection is current exactly when it was the last opened for the id and was not closed since |
| WorkerConns.LateCloseKeepsSuccessor | bridge/workerconn.go:56-67 | whatever replaced connections close later, and whatever opens for other ids, the successor stays current |
| WorkerConns.ReleaseWorkerClaims | bridge/workerconn.go:137-171 | run alone, releases exactly the unfenced claims of the connection and touches nothing else; a failing Nak leaves its claim released |
| ClaimProtocol.SettledAtMostOnce | bridge/resolve.go:108-127 | over every interleaving, no delivery is settled twice by ending resolves, withdrawals under the mutex and releases together |
| ClaimProtocol.SettledOnceButForLockFreeAcks | bridge/resolve.go:206-235 | over every interleaving, all settlements of a delivery are at most one under the mutex and one for each resolve that acked without it; each of those had loaded the delivery while it was its task's claim, and acked once |
| ClaimProtocol.PassedHoldsItsClaim | bridge/resolve.go:108-127 | a resolve past the reload check holds the mutex of the very claim it loaded, and no other handler may settle that delivery |
| ClaimProtocol.ReloaderHolds | bridge/resolve.go:112-123 | if the reloaded delivery is the loaded one, the mutex taken is its mutex and it is unsettled |
| ClaimProtocol.AckFollowsPublish | bridge/resolve.go:372-415 | complete, fail and continue ack only after their own successful publish |
| ClaimProtocol.ReleasesStayInConnection | bridge/workerconn.go:137-171 | a release Naks only claims polled under its own connection, and only for a close that releases claims |
| ClaimProtocol.EffectsComeFromChecks | bridge/workerconn.go:153-171 | in every run a release follows a Take of that release in a state where the delivery was its task's entry and not fenced; a resolve publishes or settles a delivery only after it loaded it, found no fence, and found it again under the mutex, and one without the mutex acks it only after the first two |
| ClaimProtocol.TakeLeavesIff | bridge/ackmap.go:251-263 | a Take leaves the map alone exactly when the claim is gone, is another delivery, or is fenced |
| ClaimProtocol.EntriesChangeOnlyBy | bridge/ackmap.go:182-302 | what every step does to every entry: exactly which steps drop, replace or fence it |
| ClaimProtocol.ResolveGoesThrough | bridge/resolve.go:53-188 | from every state, a claim nobody else is at can be completed, paused or withdrawn: its effects are logged, it leaves the map, its mutex is free again and all else is as before |
| ClaimProtocol.NoOrphans | bridge/workerconn.go:129-186 | once a releasing close and all polls of the connection are finished, in any order of their steps, no unfenced claim of it remains |
| ClaimProtocol.NoneEverLost | bridge/poll.go:748-763 | in every reachable state each claim to be released still has a handler that will look at it |
| ClaimProtocol.HandsOutReleasedIff | bridge/workerconn.go:177-186 | a step hands a released task out exactly when its poll, with both flags set, finds no claim of its connection at that task, or ends a release that took nothing |
| ClaimProtocol.RunHandsOutReleasedIff | bridge/workerconn.go:177-186 | a run hands a task out after its Nak exactly when some later step of it is of that kind |
| ClaimProtocol.HandedOnlyWhen | bridge/workerconn.go:177-186 | in every run a poll hands its task out only without a connection, or if it found the connection open, or closed without a release, or no claim of its under the connection, or if its own release left the claim it found |
| ClaimProtocol.PollHandsOut | bridge/poll.go:627-700 | a poll without a connection, or under one that has not closed, or closed without a release, hands its task out |
| ClaimCases.ReleasedTaskCanBeHandedOut | bridge/workerconn.go:177-186 | a run in which a poll hands out a claim the close has already Nak'd |
| ClaimCases.LockFreeAckCanDoubleSettle | bridge/resolve.go:206-235 | a run in which a resolve that takes no mutex loads and acks a delivery, and before it forgets the claim a release Naks it |
| ClaimProtocol.StoreIsPoll | bridge/ackmap.go:182-205 | every store of the ack map, with its sweep and eviction, is a poll step of the protocol |
| ClaimProtocol.OtherEventsAreEnvironment | bridge/ackmap.go:346-434 | removals, touches, counter updates and fences are environment steps of the protocol |
| AgentJournal.FindCommitFinds | journal/journal.go:721-766 | the rebuild finds a commit of this attempt exactly when the journal holds one |
| AgentJournal.TailClears | journal/journal.go:551-573 | each tail that lets a refused append retry implies that nothing in the journal bars its writer |
| AgentJournal.LogNeverTurnsBack | journal/journal.go:518-582 | in every run iterations never decrease and deliveries of one message claim in order; in every run whose holders heed the journal, as RetryKeepsJournalIff has it, nothing of an attempt follows its commit |
| AgentJournal.OneCommitPerAttempt | journal/journal.go:494-516 | in every such run an attempt of an iteration has at most one commit, under redelivery, lost acknowledgements, looks at the tail, withdrawals and crashes |
| AgentJournal.EventSpellsOut | bridge/journal.go:209-242 | in every such run, field by field, what an event says of the commit at its sequence number: the dispatch of the publishing delivery, the commit's action, the output of a complete or continue, the error, failure type and retry-after of a failure, and the wait exactly of an announced continue |
| AgentJournal.EventsTellTheCommit | bridge/journal.go:209-297 | in every such run every event published for a journaled attempt, by any delivery and after any retried action, tells of its one commit; two of them are equal, nonce, failure type, retry-after and wait included, exactly when their deliveries carry one nonce and they are not an announcement and a republication of a continue that waits |
| AgentJournal.OneMessageOneNews | bridge/journal.go:209-242 | in every such run deliveries of one message differ in their events only by that dropped wait |
| AgentJournal.AckMeansAnnouncedStaleOrWithdrawn | bridge/resolve.go:206-235 | in every run a claimed journaled delivery is acknowledged only after its own event, because it was stale, and then it has none, or because its run was cancelled; one acknowledged without an event was stale or withdrawn |
| AgentJournal.TailCheckedOk | journal/replay.go:546-569 | looking at the tail fences a holder exactly when it has moved to another delivery's record of this or a later iteration, moves the holder's tail to it exactly when it is its own, and otherwise changes nothing; what a holder relies on still holds |
| AgentJournal.OnlyLiveHoldersWrite | journal/journal.go:518-545 | in every run only an unfenced, unfinished holder writes, it is the only one of its delivery, and no later iteration or newer delivery, nor in heeding runs a commit of its attempt, is in the journal then |
| AgentJournal.StopsOnlyWhenOvertaken | journal/journal.go:278-357 | in every run a delivery is stale only if the journal has reached a later iteration, and fenced only if another delivery has written for its iteration or a later one, or a record of its own is stored twice |
| AgentJournal.HoldersOnlyAdvance | journal/journal.go:585-599 | between any two points of a run a holder's tail and next index never go back, and a fence or a commit is never undone |
| AgentJournal.CommitGoesThrough | journal/journal.go:278-516 | wherever nothing in the journal stands against a delivery, it can claim, commit, announce and be acknowledged, and the journal grows by its claim and its commit |
| AgentJournal.CommittedIsAnswered | bridge/journal.go:209-242 | a delivery of a committed attempt can republish that commit under its sequence number and be acknowledged |
| AgentJournal.RefusedAppendLands | journal/journal.go:551-573 | a refused append is tried again and lands when the tail is of the same delivery, of an earlier iteration, or an older delivery's claim |
| AgentJournal.RefusedAppendFences | journal/journal.go:551-573 | any other tail but the record itself fences the holder, which then writes and republishes nothing |
| AgentJournal.FailedAppendLeavesHolder | journal/journal.go:518-576 | after an append that failed or was stored unheard the holder can write again |
| AgentJournal.RetryKeepsJournalIff | journal/journal.go:536-559 | a record a holder starts to write leaves every continuation with nothing of an attempt behind its commit and holders that report what the journal holds exactly when a commit is the record already stored under its message id, if any is, and a commit of the holder's own at the tail under that id is only written again, and from a tail before it |
| JournalCases.OtherRetryAnnouncesOther | journal/journal.go:536-559 | a run in which a different retry makes the event contradict the journal |
| JournalCases.OtherRetryCommitsTwice | journal/journal.go:536-559 | a run in which a note retried in place of a lost commit lets the attempt commit twice |
| JournalCases.SameRetryCommitsTwice | journal/replay.go:546-569 | a run in which a holder reads the journal and retries the very commit it holds: the record is stored twice, and the dispatch is answered under two sequence numbers |
| JournalCases.WithdrawnWithoutEvent | bridge/resolve.go:206-235 | a run in which a delivery that has committed is acknowledged and nothing is published |
| JournalCases.RepublicationDropsTheWait | bridge/journal.go:209-249 | a run in which an announced continue and its republication differ by the wait alone |
| DefKeys.DefHashFromVersionKey | dag/defkey.go:81-97 | returns a hash exactly when the key is this name's version key for it |
| DefKeys.KeyHasOneOwner | dag/defkey.go:25-33 | a version key determines its name and its hash |
| DefKeys.ShapeIsKeyOrNameless | dag/defkey.go:41-43 | the reserved shape is exactly the version keys and the bare infix with a hash, so no accepted name collides with a version key |
| DefKeys.PrefixIsAmbiguous | dag/defkey.go:45-59 | the prefix of a name is shared by the versions of that name followed by ".v", which the full check tells apart |

## Left out

- JobsCompile.CompileJobs: JSON text, the `on:` value, the namespace rules and the other checks of dag.Validate are parameters; a payload's secrets are sets where the source lists them sorted.
- Scheduler.RunKeepsDependencies: each event is handled once; a redelivered step.queued event would move a Recovered or Skipped step back to Queued (internal/engine/step_handlers.go:644-654).
- ClaimProtocol.SettledAtMostOnce: covers settlements made under a claim's mutex; ClaimProtocol.SettledOnceButForLockFreeAcks covers the others.
- ClaimProtocol.NoOrphans: assumes that each connection closes once, which is how the bridge calls it.
- ClaimProtocol.OtherEventsAreEnvironment: tokens, authorisation and the pending state of an entry are not part of the protocol state.
- AgentJournal.OneCommitPerAttempt: asks that holders heed the journal; JournalCases.OtherRetryCommitsTwice and JournalCases.SameRetryCommitsTwice are runs against it without, and AgentJournal.RetryKeepsJournalIff says that the condition is exact for the next record written. A stream sequence is taken to identify one dispatch and a delivery count one delivery of it; the subject is never purged; a publish takes effect when it is made or never; and the bound of eight resyncs is a holder giving up at any time.
- AgentJournal.EventsTellTheCommit: asks the same; JournalCases.OtherRetryAnnouncesOther and JournalCases.SameRetryCommitsTwice are the runs against it without.
- Restart counts, pause resumption and what tool and model replay return: of replay only its look at the tail, which moves or fences a holder, is modelled.
- HTTP handling, authentication, tracing, metrics and logging.
- YAML and JSON text: the compiler starts from a node tree, and an encoded size is an arbitrary function.
- The `checks:` shape of CI specs (ci/compile.go, ci/spec.go): it would only add easier members beside `jobs:`.
- Retry delays (dag/retry.go), cron and sleep steps, condition operators, priorities and labels: one-branch facts or floating point whose rounding is the point.
- The command line, the console and the storage buckets.
