# ProjectOS control plane: a verified model

ProjectOS keeps its orchestration state in SQLite tables and moves it by guarded updates. This
project models the tables of its six hardest components as values or as classes with fields, every
SQL statement as one guarded update, and proves what holds over every input, every run or every
interleaving. `dafny verify dfyconfig.toml` checks all of it.

| files | component |
|---|---|
| `PlanGraph`, `PlanValidation`, `PlanProperties`, `PlanReports`, `PlanStore` | plan validation: in-place RELEASE repair, cycle detection by a LIFO worklist over a multigraph, persistence with clean-up |
| `QaTypes`, `JobIds`, `QaLedger`, `QaProperties`, `QaMeaning`, `QaStore` | the append-only QA evidence ledger, its gate and the QA Manager |
| `RemediationStore`, `RemediationCapability`, `RemediationLog`, `RemediationCycle`, `Remediation`, `RemediationMeaning`, `RemediationExample` | the closed remediation loop, its cycle numbers, its findings and its two limits |
| `ReleaseProvenance`, `ReleaseBinding`, `ReleaseMeaning`, `ReleaseEvidence`, `RetryNames`, `ReleaseRetry`, `ReleaseReconcile`, `ReleaseDecisions` | binding RELEASE jobs to an integrated candidate, what that says about the verdicts, and the supersession forest of stale releases |
| `Outbox` (three modules) | the subscriber outbox: batch dispatch with causal holds, and the lease protocol for several dispatchers |
| `RunStates`, `RunClosure`, `RunMeaning`, `NextActions`, `ActionMeaning` | mutually recursive run closure, and durable next actions |
| `Dispatch`, `Proposals`, `ProposalMeaning` | the bounded dispatcher and the sponsor proposal machine |

`Prelude`, `Jobs` and `Subscribers` hold shared vocabulary. Rows are identified by their position in their table,
which is also their creation order. State machines are given as `Step`, `Apply` and `Run`, and the
run-level theorems quantify over every sequence of steps. What the surroundings decide (post
outcomes, worker results, clocks, cancellations, truthfulness guards, digests) is a parameter, so a
theorem holds for every behaviour of it.

The specification functions of each component are pinned twice: by the laws over runs, and in the files named
`…Meaning`, `PlanReports` and `ReleaseDecisions` by if-and-only-ifs over the columns of the rows, which name none of
the functions that compute them.

## What the code does differently from what one would expect

Each of these is a lemma with a concrete input, beside the exact condition under which the expected
property does hold.

- A plan the validator accepts can be refused by persistence: the validator allows a dependency to
  be named twice, the dependency table does not (`AcceptedPlanMayRepeatADependency`; `PersistPlan`
  gives the exact condition).
- Outbox marks are not guarded by the claimant, so a late failure mark re-opens a delivered row
  (`LateMarkReopensDelivered`; `DeliveredMovesIff` gives the exact condition, and
  `SettledIsAbsorbing` holds when every mark falls inside its own lease).
- A gate whose scope was opened by an assurance retry alone passes with one role
  (`RetryOnlyScopePasses`; `PassedRoleIsBackedIff` gives the exact condition). And because a
  terminal result never changes, assurance retries cannot lift an INCONCLUSIVE gate for the same
  candidate and run (`GateNeverImproves`).
- A finding's fingerprint is meant as a defect signature that is stable across candidates, but the
  assurance job is part of it and every cycle has new assurance jobs. So it names one evidence row
  (`SignatureNamesOneRow`), the same-finding limit is reached only by starts on one and the same row
  (`RecurrenceIsOfOneRow`), and a cycle that fails again in the same way on a new candidate has
  recurrence zero (`SecondFailureIsNotRecurring`); only the cycle limit stops such a run.
- Invalidating a delivery finds derived jobs by a LIKE pattern whose underscores are wildcards, so it
  cancels unrelated jobs (`InvalidationCancelsAnotherDelivery`; `CancelsOnlyOwnIff` gives the exact
  condition and `DerivedPatternFinds` says what the pattern finds).
- A successful integration writes its candidate onto READY releases too, without asking QA and without
  the ambiguity test, so a READY release can lose its approved SHA (`SecondIntegrationUnbinds`;
  `BindDependents` and `ReadyStaysBoundIff` give the exact condition). It does not run with the
  wrong one: the worker binds a release again before it runs it, and that step refuses such a job
  (`UnapprovedIsRefused`).
- An outbox payload that is JSON but not an object, and truthy, would raise again inside the failure
  handler and leave the rest of the batch claimed until the lease runs out
  (`CrashLeavesARowClaimed`; `DispatchEventOutbox` gives the exact condition). No present writer
  stores such a payload: events are the only source of outbox rows and their payload is an object
  (`src/projectos/domain_events.py:182-195`).
- Cycle numbers rely on work staying in the statuses the count looks at, as all present writers
  leave it. If a row left them, its number could be handed out again (`UncountedWorkReusesItsNumber`;
  `UncountedStaysFreshIff` gives the exact condition).
- A closed run is closed again by emitting a closing event type directly (`DirectEmissionRecloses`)
  and in no other way (`ReclosedIff`).
- A next action that was accepted need not be live (`AcceptedRetryIsNotLive`; `AcceptedIsLiveIff` says
  exactly when it is).

## Model

| member | source | states |
|---|---|---|
| `PlanGraph.OrderedIsAcyclic` | src/projectos/plan.py:273-291 | A graph with an execution order has no cycle, self-loops and repeated edges included. |
| `PlanGraph.StuckIsCyclic` | src/projectos/plan.py:282-290 | Any non-empty set of jobs that all wait for one another contains a cycle (pigeonhole over walks). |
| `PlanGraph.EnterJob` | src/projectos/plan.py:275-279 | Entering one dependency list keeps `edges` the exact reversal with multiplicity and sets the indegree to the number of in-plan entries. |
| `PlanGraph.BuildEdges` | src/projectos/plan.py:273-279 | Indegrees count in-plan dependencies with multiplicity; `edges` is the reversed multigraph. |
| `PlanGraph.Relax` | src/projectos/plan.py:285-288 | Lowers each indegree by the multiplicity of the finished job and queues exactly the jobs that reach zero, once each. |
| `PlanGraph.InitialQueue` | src/projectos/plan.py:280 | The worklist starts with exactly the jobs of indegree zero. |
| `PlanGraph.FinishOne` | src/projectos/plan.py:282-288 | One LIFO turn keeps the frontier invariant: done jobs are in dependency order, counts are those of open jobs, the queue is every open job nobody keeps waiting. |
| `PlanGraph.CountFinishable` | src/projectos/plan.py:280-290 | The worklist finishes every job if and only if the dependency graph is acyclic, and then its order is a topological order of the whole plan. |
| `PlanValidation.CheckFields` | src/projectos/plan.py:213-257 | Id, queue, role and work-item errors of the whole list, in order, duplicates judged against earlier usable ids. |
| `PlanValidation.EnsureReleaseDependsOnIntegration` | src/projectos/plan.py:146-181 | In place: the array becomes its repaired form and the errors are those of RELEASE jobs that cannot be anchored. |
| `PlanValidation.IndexById` | src/projectos/plan.py:264-268 | The dictionary by id (last entry wins) with its keys in insertion order, each once. |
| `PlanValidation.ListUnknown` | src/projectos/plan.py:269-272 | The loop lists the dependencies that name no plan job; `UnknownReports` says which, under which job and how often. |
| `PlanValidation.ValidatePlanDocument` | src/projectos/plan.py:192-291 | The validator repairs the plan in place and reports header, field, release, unknown-dependency and cycle errors, which `ReportedIffJustified` reads off the document; the cycle error is tied to the existence of a cyclic walk, not to the worklist. |
| `PlanProperties.RepairAddsOneReleaseEdge` | src/projectos/plan.py:146-181 | Repair appends at most one dependency per RELEASE job, that of an INTEGRATION job, only where none was named, and changes nothing else. |
| `PlanProperties.RepairIdempotent` | src/projectos/plan.py:146-181 | Repairing twice is repairing once. |
| `PlanProperties.RevalidationIsStable` | src/projectos/plan.py:262-291 | Validating the repaired plan again changes nothing and reports the same errors, so an accepted plan replays cleanly. |
| `PlanProperties.FieldErrorsIff` | src/projectos/plan.py:213-257 | No field error if and only if all ids are usable and unique, all queues known, and every job specified, on a known work item and not already assigned. |
| `PlanProperties.NoUnknownIff` | src/projectos/plan.py:264-272 | No unknown-dependency error if and only if nothing dangles. |
| `PlanProperties.AcyclicIffOrdered` | src/projectos/plan.py:273-290 | A graph is acyclic if and only if it has a topological order. |
| `PlanProperties.AcceptedIffWellFormed` | src/projectos/plan.py:192-291 | No error if and only if the header is in order, the jobs can be assigned, and the repaired plan has unique usable ids, known queues, no dangling dependency, every RELEASE behind an INTEGRATION, and a topological order. |
| `PlanProperties.CycleReportedIff` | src/projectos/plan.py:273-290 | "cycle detected" is reported if and only if the repaired graph has a cycle. |
| `PlanReports.UnknownReports` | src/projectos/plan.py:269-272 | For every plan job the report lists exactly the entries of its own dependency list that name no plan job, in list order and with repetitions, and nothing under any other name. |
| `PlanReports.MissingCounts` | src/projectos/plan.py:269-272 | A missing dependency is reported as often as the list names it. |
| `PlanReports.UnknownReportedIff` | src/projectos/plan.py:269-272 | "job h depends on unknown d" is reported if and only if h is a plan job, its list names d, and d is no plan job. |
| `PlanReports.UnknownInKeyOrder` | src/projectos/plan.py:269-272 | The jobs are reported in the order of the dictionary. |
| `PlanReports.LastEntryCounts` | src/projectos/plan.py:264-268 | Of several entries with one id the last one gives the dependencies. |
| `PlanReports.KeysInFirstOrder` | src/projectos/plan.py:264-268 | Dictionary keys come in the order in which ids first occur. |
| `PlanReports.FieldReports` | src/projectos/plan.py:213-257 | Each entry adds exactly its own faults, with its own index and ids, each once, in the order id, queue, role, work item. |
| `PlanReports.FieldReportedIff` | src/projectos/plan.py:213-257 | A field error is reported if and only if some entry has that fault, spelled out over the document for every kind of error. |
| `PlanReports.ReleaseReports` | src/projectos/plan.py:146-181 | A RELEASE error is reported if and only if a RELEASE job of that id depends on no INTEGRATION job and there is none, or several, to choose from. |
| `PlanReports.IntegrationIdsInOrder` | src/projectos/plan.py:146-181 | The candidates named by an ambiguity are the INTEGRATION ids in plan order. |
| `PlanReports.ReportedIffJustified` | src/projectos/plan.py:192-291 | Every message, of every kind, is reported if and only if the document justifies it. |
| `PlanReports.ReportInOrder` | src/projectos/plan.py:192-291 | The messages come by phase: header, entries, releases, unknown dependencies, cycle. |
| `PlanStore.JobStore.CreateJob` | src/projectos/store.py:320-449 | A fresh id above all others; refused exactly when project and repository conflict with some job or the human id is taken; projects and repositories stay in one-to-one correspondence. |
| `PlanStore.JobStore.CreateAll` | src/projectos/plan.py:582-621 | Consecutive fresh ids in plan order, stopping at a conflict or at the first taken human id, which is named. |
| `PlanStore.JobStore.LinkJob` | src/projectos/plan.py:623-626 | One entry links completely if and only if its list names no dependency twice; otherwise the first repeated one is named. |
| `PlanStore.JobStore.LinkAll` | src/projectos/plan.py:623-626 | All entries link if and only if no list repeats an id; otherwise removing what touches the created ids gives back the old dependencies. |
| `PlanStore.JobStore.DeleteJobs` | src/projectos/plan.py:627-630 | The clean-up loop over the created ids, with cascading dependency rows, removes those jobs and every dependency row with an end among them, and nothing else. |
| `PlanStore.JobStore.PersistPlan` | src/projectos/plan.py:573-640 | Persisting an accepted plan never misses an id; it succeeds exactly when project and repository conflict with no job, no human id is taken and no dependency is repeated, writing exactly the plan's jobs and edges; otherwise it names the first cause in that order and the clean-up leaves both tables as they were. |
| `PlanStore.CreatedRow` | src/projectos/plan.py:582-621 | The row an entry becomes: its id, queue and site; QUEUED for a RELEASE job, READY for any other. |
| `PlanStore.AcceptedPlanResolves` | src/projectos/plan.py:623-626 | Every id an accepted plan mentions is in the id map when dependencies are written. |
| `PlanStore.LinksHave` | src/projectos/plan.py:623-626 | The dependency rows written are exactly the plan's edges. |
| `PlanStore.LinkIsFresh` | src/projectos/plan.py:623-626 | A dependency insert clashes exactly when the same list named that id before. |
| `PlanStore.NoSelfDependency` | src/projectos/plan.py:626 | An accepted plan holds no self-dependency, so the store never refuses one. |
| `PlanStore.AcceptedPlanMayRepeatADependency` | src/projectos/plan.py:258-291 | Counterexample: a plan the validator accepts and persistence refuses, because a dependency is named twice. |
| `QaLedger.CollectGateFacts` | src/projectos/qa_gate.py:38-83 | The four-list classification counts the results in scope kind by kind and yields the gate they mean; PASSED exactly when there is evidence and all of it passed. |
| `QaLedger.ManagerAgreesWithGate` | src/projectos/qa_manager.py:18-31 | The manager's aggregate agrees with the gate on every list of results, and adding a row that carries it never changes the gate. |
| `QaMeaning.GateMeans` | src/projectos/qa_gate.py:38-83 | The gate over the rows of project, candidate and run: FAILED iff one failed or is stale, else INCONCLUSIVE iff one is, else PENDING iff one is or there is none, else PASSED. |
| `QaMeaning.AggregateMeans` | src/projectos/qa_manager.py:18-90 | The manager's pending row takes the worst result of the delivery's assessor rows for its candidate, if all four roles have one, and stays otherwise. |
| `QaMeaning.RecordingSets` | src/projectos/qa_handoff.py:311-440 | An assessor's pending row becomes STALE_REJECTED iff its delivery has another candidate; otherwise PASS or FAIL iff a valid report for this job, role and candidate says so (a FAIL explained), else INCONCLUSIVE; no other row changes. |
| `QaMeaning.OthersDoNotRecord` | src/projectos/qa_handoff.py:297-317 | Output of a job outside the four assessor queues changes nothing. |
| `QaMeaning.HandOffRefusedIff` | src/projectos/qa_handoff.py:84-178 | A hand-off is refused for the base commit, a disqualified delivery or a taken job name, and for nothing else. |
| `QaMeaning.HandOffOpens` | src/projectos/qa_handoff.py:84-178 | It adds five READY jobs, four assessors and the manager, tied to delivery and candidate, and one pending row each, column by column. |
| `QaMeaning.RetryAdds` | src/projectos/qa_handoff.py:217-294 | A retry adds one READY job of the role and its pending row, unless that attempt exists. |
| `QaMeaning.CancelRejects` | src/projectos/invalidate.py:97-130 | After a cancellation no evidence of the delivery is pending, what was pending is stale, other evidence stays, and no job assured against it is left to run. |
| `QaStore.QaDatabase.UpdateResult` | src/projectos/qa_evidence_policy.py:16-64 | Writes from pending or repeats a terminal result; refuses a missing row and any other rewrite. |
| `QaStore.QaDatabase.CreateAssuranceJobs` | src/projectos/qa_handoff.py:84-178 | A hand-off opens one job and one pending row per required role plus the manager's, or nothing. |
| `QaStore.QaDatabase.MaybeHandOff` | src/projectos/qa_handoff.py:618-631 | A delivery is handed off exactly when it is a QA candidate, spelled out over its columns, without evidence and the hand-off is allowed. |
| `QaStore.QaDatabase.ProcessWorkerOutput` | src/projectos/qa_handoff.py:297-440 | The evidence written for any worker output; success is reported exactly when that result was recorded. `RecordingSets` says which result it is. |
| `QaStore.QaDatabase.ExecuteAggregation` | src/projectos/qa_manager.py:34-90 | The manager writes the aggregate of the assessors' rows, and succeeds if and only if it has provenance, all four roles are present and its own row may take the aggregate. |
| `QaStore.QaDatabase.CancelAssurance` | src/projectos/invalidate.py:97-130 | The two loops cancel every open job that is assured against the delivery or matches its id pattern, and reject exactly the delivery's pending evidence. |
| `JobIds.DerivedPatternFinds` | src/projectos/invalidate.py:101-108 | For an id without a percent sign the derived-id pattern finds exactly the ids that begin with it, case aside and underscores standing for anything, and go on for two characters of any kind. |
| `JobIds.AssuranceIsFound` | src/projectos/qa_handoff.py:84-85 | Whatever the delivery's id, the jobs of its hand-off are found by the pattern. |
| `JobIds.RetryIdInjective` | src/projectos/qa_handoff.py:217-294 | Attempts of one role on one candidate have different ids. |
| `JobIds.PaddedMeans` | src/projectos/qa_handoff.py:217-294 | The attempt is written with three digits, or with all it needs, and can be read back. |
| `QaProperties.CancelsOnlyOwnIff` | src/projectos/invalidate.py:101-119 | Cancelling leaves all other jobs alone if and only if no open job of another source matches the pattern. |
| `QaProperties.InvalidationCancelsAnotherDelivery` | src/projectos/invalidate.py:101-119 | Counterexample: invalidating "D-1" cancels the unrelated delivery "D-100". |
| `QaProperties.RunIds` | src/projectos/qa_handoff.py:84-294 | Over every sequence of ledger steps human ids tell jobs apart. |
| `QaProperties.UpdateExtends` | src/projectos/qa_evidence_policy.py:38-64 | With one row per job, a guard on the first matching row protects every row the update writes. |
| `QaProperties.StepEvolves` | src/projectos/qa_handoff.py:47-440 | Every ledger step keeps the ledger invariant, only appends, and keeps terminal results. |
| `QaProperties.TerminalResultsAreImmutable` | src/projectos/qa_evidence_policy.py:38-47 | Over every sequence of ledger steps a row keeps its identity and, once it is not pending, its result. |
| `QaProperties.GateNeverImproves` | src/projectos/qa_gate.py:43-67 | Over every run a FAILED gate stays FAILED and an INCONCLUSIVE one never becomes PASSED for the same candidate and run. |
| `QaProperties.PassIsBacked` | src/projectos/qa_handoff.py:406-440 | Every assessor pass was written by a validated PASS for that job, role and candidate, at a moment when the delivery had no candidate or this one. |
| `QaProperties.PassedRoleIsBackedIff` | src/projectos/assurance_verdict.py:202-224 | Under a PASSED gate a role is backed by such a verdict if and only if it has a row in scope. |
| `QaProperties.HandOffOpensEveryRole` | src/projectos/qa_handoff.py:84-164 | A scope opened by a hand-off has a row of every required role for ever. |
| `QaProperties.PassedMeansFourVerdicts` | src/projectos/qa_handoff.py:311-440 | In a scope opened by a hand-off, PASSED means four validated, timely PASS verdicts. |
| `QaProperties.RetryOnlyScopePasses` | src/projectos/qa_handoff.py:217-294 | Counterexample: a scope opened by a retry alone passes with a single role. |
| `QaProperties.ManagerPassIsSummary` | src/projectos/qa_manager.py:34-90 | A manager's pass was written when all four roles were present and every assessor row had passed. |
| `RemediationStore.NextCycleIsFresh` | src/projectos/remediation_store.py:259-268 | One more than the distinct count is a number no row of the run has used. |
| `RemediationStore.StepKeepsInv` | src/projectos/remediation_store.py:89-248 | Every writer (cycle 0, cycle 1, count plus one) and every counted status change keeps numbers within their distinct count and never lowers a count. |
| `RemediationStore.CyclesAlwaysBounded` | src/projectos/remediation_store.py:259-268 | The same over every sequence of writers. |
| `RemediationStore.UncountedWorkReusesItsNumber` | src/projectos/remediation_store.py:259-268 | Input for the following: a sole work row that leaves the counted statuses has its number handed out again (no present writer does this). |
| `RemediationStore.UncountedStaysFreshIff` | src/projectos/remediation_store.py:259-268 | Once a row leaves the counted statuses, the next number is still unused if and only if the row shares its number or no row carries the number equal to the count. |
| `RemediationMeaning.CountedNumbers` | src/projectos/remediation_store.py:259-268 | The numbers counted are those of the run's rows in one of the four counted statuses. |
| `RemediationMeaning.WriterNumbers` | src/projectos/remediation_store.py:89-248 | The number each writer gives its row. |
| `RemediationCapability.GroupFindings` | src/projectos/remediation_capability.py:59-73 | The bucket loop computes the grouping the partition lemma speaks about. |
| `RemediationCapability.GroupsPartition` | src/projectos/remediation_capability.py:59-73 | Every finding is in a group and nothing else is, sizes add up, groups have distinct executing agents, none an assessor, and there are groups exactly when there are findings. |
| `RemediationCapability.OneGroupEach` | src/projectos/remediation_capability.py:59-73 | A finding is in one group only, that of its executing agent. |
| `RemediationCapability.NeverAnAssessor` | src/projectos/remediation_capability.py:41-56 | Whatever owner is recommended, the executing agent is never an assessor. |
| `RemediationMeaning.AssignmentRules` | src/projectos/remediation_capability.py:41-56 | Which agent gets a finding: the developer for security and architecture, else a recommended delivery or release agent, else by category. |
| `RemediationMeaning.OwnerRules` | src/projectos/remediation_capability.py:41-56 | Who owns a finding: the recommended agent, else the assessor, the PM or the executing agent by category. |
| `RemediationMeaning.FindingsAre` | src/projectos/pm_remediation.py:61-92 | A finding is listed if and only if it is taken, field by field, from an adverse row of the scope; the list is in ledger order. |
| `RemediationMeaning.NewestEvidenceDecides` | src/projectos/candidate_model.py:58-77 | Without an active candidate the newest evidence of the project names it. |
| `RemediationLog.CollectFindings` | src/projectos/pm_remediation.py:61-92 | Exactly the adverse rows in scope become findings, in order; never empty when the gate is FAILED. |
| `RemediationLog.FailedGateHasFinding` | src/projectos/pm_remediation.py:61-92 | A FAILED gate always yields a finding. |
| `RemediationLog.FindingRecurrence` | src/projectos/pm_remediation.py:95-119 | Counts the starts of the run that addressed a fingerprint, each start once. |
| `RemediationLog.FirstRecurring` | src/projectos/pm_remediation.py:377-405 | The first finding already addressed at least `limit` times; all before it, or all if none, are below. |
| `RemediationLog.SignatureNamesOneRow` | src/projectos/pm_remediation.py:38-58 | The assurance job is part of a signature: rows of any two stages of a ledger have equal signatures if and only if they are the same row with the same result. |
| `RemediationLog.RecurrenceIsOfOneRow` | src/projectos/pm_remediation.py:95-119 | With an injective digest the recurrence of a finding counts only starts that addressed the very same evidence row, so new evidence starts from zero. |
| `RemediationExample.SecondFailureIsNotRecurring` | src/projectos/finding_fingerprint.py:16-26 | Counterexample to a signature stable across candidates: two cycles fail alike in category, role and result, and the second has recurrence zero. |
| `RemediationLog.LedgerIsKept` | src/projectos/qa_evidence_policy.py:67-81 | Whatever ledger steps happen during a cycle, evidence is only appended and terminal results stay. |
| `RemediationLog.ReachableIsSane` | src/projectos/qa_handoff.py:47-440 | Every ledger that a sequence of ledger steps reaches has one row per job and unique human ids, which is all the remediation results ask of it. |
| `RemediationLog.FailedCandidateNeverPasses` | src/projectos/qa_gate.py:43-67 | A candidate whose gate failed in a run never passes later in that run. |
| `Remediation.RemediationDb.ExecuteGroup` | src/projectos/remediation_executor.py:133-286 | Creates and assigns the work row, lets the worker act, and records how it ended; `CycleMeans` and `CycleKeeps` say what that amounts to. |
| `Remediation.RemediationDb.StartCycle` | src/projectos/pm_remediation.py:122-279 | The loop over the groups and the retest compute the cycle that `CycleMeans` and `CycleKeeps` describe, and raise exactly when it does. |
| `Remediation.RemediationDb.TakeTurn` | src/projectos/pm_remediation.py:343-414 | One pass computes the turn that `TurnMeans` and `TurnKeeps` describe. |
| `RemediationCycle.AllCompleteIff` | src/projectos/pm_remediation.py:196-234 | Whether all groups complete, as a statement about each response. |
| `RemediationCycle.CycleMeans` | src/projectos/pm_remediation.py:122-279 | A cycle as a function of its turn: one start, then one assignment per group in order; if all complete, the ledger is the old one followed by every response's steps in group order and then the retest's, and unless the retest raises the last candidate produced is the run's; if a group is the first not to complete, there are no further assignments and no retest. |
| `RemediationCycle.ExecutedKeeps` | src/projectos/remediation_executor.py:133-286 | One group's work: its row is the run's, on the cycle's number and for its agent, completed iff the worker completed, left running iff it was unavailable, failed otherwise; earlier rows change in status only and the number is in use. |
| `RemediationCycle.EmptyCycle` | src/projectos/pm_remediation.py:227-234 | Without findings a cycle logs its start and does nothing else. |
| `RemediationCycle.CycleKeeps` | src/projectos/pm_remediation.py:122-279 | Every cycle keeps the tables valid, uses a number above all earlier ones of the run, logs one start, and assigns only to executing agents their own findings. |
| `Remediation.TurnMeans` | src/projectos/pm_remediation.py:343-414 | A decided gate ends the loop with nothing changed, an inconclusive one after the steps of the retry, a failed one on an exhausted finding with the limit logged; otherwise the cycle runs on the next number and the loop goes on unless it raised. |
| `Remediation.TurnKeeps` | src/projectos/pm_remediation.py:343-414 | A pass that does not end the loop has used a new number; one that ends it concludes with the present gate or a reached limit, and logs the limit exactly when it escalates. |
| `Remediation.CureShows` | src/projectos/pm_remediation.py:235-256 | A completed correction whose retest passes leaves a passing gate for the new candidate. |
| `Remediation.PassIsOfANewCandidate` | src/projectos/qa_evidence_policy.py:67-81 | After a failed gate, a passing one is that of another candidate. |
| `Remediation.RemediationDb.RunQaWithRemediation` | src/projectos/pm_remediation.py:338-442 | The loop terminates; it starts at most `maxCycles` minus the starting count cycles, and no more than the distinct count grew; no fingerprint's recurrence grows past its limit; it escalates once and only at a limit (for an injective digest: only after that many starts on one evidence row), and otherwise never returns FAILED; evidence is never rewritten, so after a FAILED gate it returns PASSED only for another candidate; and a first turn that cures the run makes it return PASSED. |
| `ReleaseProvenance.ReleaseStore.FindCandidates` | src/projectos/release_provenance.py:89-117 | The dictionary of usable INTEGRATION dependencies by SHA, the last id per SHA. |
| `ReleaseProvenance.FoundIsUsable` | src/projectos/release_provenance.py:89-117 | The dictionary holds every usable SHA and only usable dependencies. |
| `ReleaseProvenance.FoundSizeIsOneSha` | src/projectos/release_provenance.py:101-117 | It has at most one entry if and only if all usable dependencies agree. |
| `ReleaseProvenance.ResolvedShaIsApproved` | src/projectos/release_provenance.py:76-158 | For a job whose prerequisites are met the resolved SHA is that of a dependency that passed QA, though the resolver ignores QA; the fallback is not reached. |
| `ReleaseProvenance.ReleaseStore.Bind` | src/projectos/release_provenance.py:120-158 | Refuses exactly when the gates are not met or SHAs disagree; otherwise binds to an approved dependency and touches nothing else. |
| `ReleaseProvenance.ReleaseStore.PromoteOne` | src/projectos/release_provenance.py:215-232 | Promotes exactly when bound; otherwise changes nothing. |
| `ReleaseProvenance.ReleaseStore.PromoteEligible` | src/projectos/release_provenance.py:193-232 | Every job the sweep moves to READY is bound to an approved SHA even if the sweep is cut short; it promotes exactly the eligible jobs, or exactly those before the first eligible one whose dependencies disagree. |
| `ReleaseProvenance.FrameGates` | src/projectos/release_provenance.py:193-232 | Binding or promoting one job leaves every other job's gates as they were. |
| `ReleaseMeaning.LastIsNewest` | src/projectos/release_provenance.py:22-44 | The verdict that counts for a delivery, candidate and role is the newest one recorded. |
| `ReleaseMeaning.QaDoneIff` | src/projectos/release_provenance.py:22-44 | QA of a delivery is done if and only if it has a candidate and the newest verdict of each of the four roles on it is PASS. |
| `ReleaseMeaning.UsableMeans` | src/projectos/release_provenance.py:47-86 | An integration is usable iff it succeeded, stands, has a candidate and is of the same project and iteration. |
| `ReleaseMeaning.DeliveriesDoneIff` | src/projectos/release_provenance.py:47-73 | Its gates are met iff every DELIVERY it depends on succeeded, stands and has its QA done. |
| `ReleaseMeaning.GatesMean` | src/projectos/release_provenance.py:76-117 | A RELEASE job may go ahead iff one of its dependencies releases it, and a SHA is approved iff it is the candidate of such a one. |
| `ReleaseMeaning.DisagreementMeans` | src/projectos/release_provenance.py:101-117 | The dependencies disagree iff two usable ones offer different candidates. |
| `ReleaseMeaning.SweepMeans` | src/projectos/release_provenance.py:193-232 | A job the sweep changed was a QUEUED release in its range, is READY, and carries the candidate of a dependency that releases it. |
| `ReleaseMeaning.InSweepMeans` | src/projectos/release_provenance.py:193-214 | Which jobs a sweep looks at, over their columns. |
| `ReleaseBinding.BindDependents` | src/projectos/release_provenance.py:235-261 | An integration writes its candidate onto exactly the waiting and READY releases of its identity that depend on it, then sweeps completely or up to the first disagreement; READY releases that were all bound to approved SHAs stay so if and only if the candidate is approved for each READY one it was written on. |
| `ReleaseMeaning.ReboundMeans` | src/projectos/release_provenance.py:235-261 | Which releases an integration's success reaches, over their columns, and what it changes of them. |
| `ReleaseBinding.ReboundIffApproved` | src/projectos/release_provenance.py:161-190 | A release bound afresh is bound to an approved SHA if and only if the integration's candidate is approved for it; any other is bound if and only if it was. |
| `ReleaseBinding.PassingGatesApprove` | src/projectos/release_provenance.py:47-73 | The integration's own passing QA gates are enough for that. |
| `ReleaseBinding.ReadyStaysBoundIff` | src/projectos/release_provenance.py:247-255 | The exact condition, over all READY releases. |
| `ReleaseBinding.SweepKeepsReadyBound` | src/projectos/release_provenance.py:193-232 | The sweep that follows neither breaks nor repairs the binding of READY releases. |
| `ReleaseBinding.SecondIntegrationUnbinds` | src/projectos/release_provenance.py:247-255 | Counterexample: a second integration takes a READY release from its approved SHA to one QA has not passed. |
| `ReleaseBinding.UnapprovedIsRefused` | src/projectos/worker.py:220-230 | A release bound afresh to an unapproved SHA is refused by the binding the worker repeats before running it. |
| `ReleaseEvidence.PassedDeliveryIsAssured` | src/projectos/release_provenance.py:28-44 | A delivery the release gate accepts holds, for its present candidate, four passes from validated PASS verdicts recorded in time. |
| `ReleaseEvidence.BoundReleasesAssuredWork` | src/projectos/release_provenance.py:47-86 | A bound RELEASE job carries the SHA of a successful integration all of whose deliveries succeeded and are assured in this sense. |
| `ReleaseEvidence.Sweep` | src/projectos/release_provenance.py:193-232 | End to end over every run of the ledger, whatever the RELEASE jobs were bound to before: each job the sweep moves to READY carries the SHA of assured work, and the table stays a view of the ledger, so sweeps compose. |
| `ReleaseEvidence.IntegrationSucceeded` | src/projectos/release_provenance.py:235-261 | The same after an integration has written its candidate onto the dependent releases: whatever is then promoted carries the SHA of assured work. |
| `RetryNames.DecimalRoundTrip` | src/projectos/release_retry.py:120-124 | The number written into a retry name can be read back. |
| `RetryNames.RetryNameInjective` | src/projectos/release_retry.py:120-124 | Different attempts have different names. |
| `RetryNames.RetryOfRetryKeepsBase` | src/projectos/release_retry.py:114-117 | Retrying a retry counts on from the same base, whatever the name contains. |
| `RetryNames.NextRetryName` | src/projectos/release_retry.py:120-124 | The search ends with the smallest unused attempt number. |
| `ReleaseRetry.WalkSuccessor` | src/projectos/release_retry.py:127-135 | From a RELEASE job the guarded walk returns the end of the chain; the guard never stops it, whatever the links of other queues. |
| `ReleaseRetry.SurvivorsAreUsable` | src/projectos/release_retry.py:173-225 | The filters leave exactly the usable candidates. |
| `ReleaseRetry.GatesClosedIsUnreachable` | src/projectos/release_retry.py:237-248 | The last refusal of the resolver can never happen. |
| `ReleaseRetry.AcceptedIntegration` | src/projectos/release_retry.py:173-248 | An accepted integration allows the release, carries the authoritative SHA, and so does every usable dependency. |
| `ReleaseRetry.BindingCannotRefuse` | src/projectos/release_retry.py:251-280 | Once an integration is accepted, the successor's gates are met and its dependencies agree, so binding cannot refuse. |
| `ReleaseDecisions.CandidateIff` | src/projectos/release_retry.py:151-170 | An INTEGRATION job is considered iff it is a dependency or of the same project and iteration. |
| `ReleaseDecisions.ResolvedIff` | src/projectos/release_retry.py:173-213 | Each refusal of the resolver iff its test is the first that no integration passes. |
| `ReleaseDecisions.AcceptedIff` | src/projectos/release_retry.py:215-248 | Ambiguous iff two that pass every test differ in SHA; only integrations that all carry the authoritative SHA go on. |
| `ReleaseDecisions.TakesThePreferred` | src/projectos/release_retry.py:224-248 | Then the first passing dependency, or failing that the oldest passing job, is taken, and refused iff its QA is incomplete. |
| `ReleaseDecisions.RefusedFirstIff` | src/projectos/release_retry.py:295-335 | Not a release, wrong identity, busy and waiting for a retry, each iff over the columns and in this order. |
| `ReleaseDecisions.DecidedIff` | src/projectos/release_retry.py:336-371 | What is decided about an admitted job: no integration, nothing wrong, healthy chain, or replaced. |
| `ReleaseDecisions.ReplacedIff` | src/projectos/release_retry.py:283-371 | A successor is created iff the job is an idle RELEASE job of the governed identity with an accepted integration, records another SHA or has failed (it or its chain end), and its chain does not end healthy. |
| `ReleaseDecisions.SuccessorMeans` | src/projectos/release_retry.py:373-475 | The new row column by column, and the two rows that change. |
| `ReleaseReconcile.BindSuccessor` | src/projectos/release_retry.py:251-280 | Binds and promotes the successor, or refuses exactly when gates or SHAs fail. |
| `ReleaseReconcile.AddSuccessor` | src/projectos/release_retry.py:378-410 | The successor is appended, bound and READY in every case; the refusal branch is dead. |
| `ReleaseReconcile.ReconcileStaleRelease` | src/projectos/release_retry.py:283-494 | Decides as `RefusedFirstIff`, `DecidedIff` and `ReplacedIff` say, moves the table accordingly, never leaves an unlinked successor, and names successors after the base. |
| `ReleaseReconcile.ChainsMoveToSuccessor` | src/projectos/release_retry.py:412-424 | Every job that walked to the old chain end walks to the successor; every other chain is unchanged. |
| `ReleaseReconcile.HistoryPreserved` | src/projectos/release_retry.py:373-475 | Historical status, SHA and attempt are preserved; only outcome and link of two rows change. |
| `ReleaseReconcile.ReconcileIsIdempotent` | src/projectos/release_retry.py:336-371 | Repeating a reconcile with nothing changed creates no job and changes no row. |
| `ReleaseReconcile.ReconcileKeepsSound` | src/projectos/release_retry.py:283-494 | A reconcile keeps unique names, resolvable dependencies and forward RELEASE links. |
| `ReleaseReconcile.LinksAlwaysForward` | src/projectos/release_retry.py:127-135 | Over every history of reconciles, row updates, inserts and invalidations, links of RELEASE jobs point to strictly newer RELEASE jobs. |
| `ReleaseReconcile.InvalidationKeepsSound` | src/projectos/invalidate.py:160-222 | Invalidating a delivery in favour of an existing, possibly older, job or of a new rework job keeps the invariant. |
| `ReleaseDecisions.InvalidationMeans` | src/projectos/invalidate.py:160-222 | It marks the delivery, links it to the job that redoes it, and changes nothing else of the old rows. |
| `OutboxDispatch.OutboxTable.ClaimPending` | src/projectos/event_dispatcher.py:40-75 | Resets expired leases, then claims exactly the oldest available rows up to the limit; stated on the rows before and after. |
| `OutboxDispatch.ListedIsClaimable` | src/projectos/event_dispatcher.py:22-37 | The listed rows are distinct, claimable and at most `limit`. |
| `OutboxDispatch.OldestFirst` | src/projectos/event_dispatcher.py:22-37 | A claimable row is left out only when the batch is full of older rows. |
| `OutboxDispatch.ClaimsMeans` | src/projectos/event_dispatcher.py:22-75 | What claiming does to each row: an overdue claim is returned, an available row among the oldest is claimed under the lease, any other stays. |
| `OutboxDispatch.OutboxTable.DispatchRow` | src/projectos/event_dispatcher.py:198-260 | One turn for every kind of payload: verdict, hold table, the row's new state and the rows it releases. |
| `OutboxDispatch.OutboxTable.DispatchClaimed` | src/projectos/event_dispatcher.py:197-266 | Under any pattern of post failures the batch is settled row by row, outsiders change only if held by a delivered row, and the counters tally the verdicts; it ends early exactly at the first payload that crashes the failure handler. |
| `OutboxDispatch.OutboxTable.DispatchEventOutbox` | src/projectos/event_dispatcher.py:176-266 | On the final table: an unreadable row failed; a row behind a failed one of its stream is held by it; any other subscriber's and a filtered row is delivered; one without a channel is refused; any other is delivered iff the post succeeded and spends an attempt iff it did not. A row stays claimed iff a payload before it crashed the batch; without one the counters add up. |
| `OutboxDispatch.CrashLeavesARowClaimed` | src/projectos/event_dispatcher.py:255-260 | Counterexample to "no row stays claimed": a payload that is JSON but no object, followed by a good one. |
| `OutboxDispatch.HeldIffStreamFailed` | src/projectos/event_dispatcher.py:204-213 | A readable row is held if and only if an earlier row of its stream failed, it names that row, and nothing of the stream is posted afterwards. |
| `OutboxDispatch.OneHolderPerStream` | src/projectos/event_dispatcher.py:255-260 | At most one row of a batch holds back a stream. |
| `OutboxDispatch.SettleOutcome` | src/projectos/event_dispatcher.py:78-132 | Settling never leaves a row claimed; only failures spend an attempt; dead exactly at the limit. |
| `OutboxDispatch.CountersAddUp` | src/projectos/event_dispatcher.py:261-266 | The four counters add up to the rows dispatched. |
| `OutboxDispatch.TallyIsSummary` | src/projectos/event_dispatcher.py:261-266 | The counters are the numbers of batch rows that ended delivered, spent an attempt, were refused and are held, read off the final table. |
| `OutboxDispatch.FatesFollow` | src/projectos/event_dispatcher.py:198-260 | What becomes of every row of the batch and outside it, from payload, level and the outcome of the post. |
| `OutboxProtocol.MarksMean` | src/projectos/event_dispatcher.py:78-132 | What each mark writes, column by column; only a failure spends an attempt, and the tenth is the last. |
| `OutboxProtocol.LeasesMean` | src/projectos/event_dispatcher.py:40-75 | Who holds what: a claim of a pending row adds its lease, a mark ends the marker's own, nothing else changes leases. |
| `OutboxProtocol.ClaimantIffClaimed` | src/projectos/event_dispatcher.py:40-132 | Under every interleaving the claim columns are set exactly on claimed rows. |
| `OutboxProtocol.OneHolder` | src/projectos/event_dispatcher.py:40-75 | With timely marks no row is held by two dispatchers. |
| `OutboxProtocol.SettledIsAbsorbing` | src/projectos/event_dispatcher.py:78-114 | With timely marks a delivered, dead or unroutable row never changes again. |
| `OutboxProtocol.AttemptsAreFailures` | src/projectos/event_dispatcher.py:102-114 | With timely marks the attempt counter is the number of failure marks, and a row is delivered at most once. |
| `OutboxProtocol.BoundedAttempts` | src/projectos/event_dispatcher.py:102-114 | At most ten attempts, and dead exactly after ten failures. |
| `OutboxProtocol.DeliveredMovesIff` | src/projectos/event_dispatcher.py:78-132 | A step moves a delivered row if and only if it is a mark of another kind on it. |
| `OutboxProtocol.LateMarkReopensDelivered` | src/projectos/event_dispatcher.py:102-114 | Counterexample: a late failure mark re-opens a row another dispatcher delivered. |
| `RunStates.OutcomesAreConsistent` | src/projectos/run_outcomes.py:29-93 | One event per outcome; an outcome closes by its event exactly when it closes by its status. |
| `RunClosure.EmissionUnrolled` | src/projectos/domain_events.py:73-222 | The mutual recursion ends: an emission appends its event and exactly one follow-up if it publishes a release of an open run, none otherwise. |
| `RunClosure.ClosureUnrolled` | src/projectos/run_evidence.py:259-323 | Closing appends one event to an existing, open run if the guard admits it, and nothing otherwise. |
| `RunClosure.ClosedAtMostOnce` | src/projectos/run_evidence.py:208-220 | Over every run in which closing kinds come only from closing, each run receives at most one closing event. |
| `RunClosure.ReclosedIff` | src/projectos/run_evidence.py:208-220 | A closed run is closed again if and only if a closing kind is emitted for it directly. |
| `RunClosure.DirectEmissionRecloses` | src/projectos/run_evidence.py:208-220 | Input for it: open, close, then a direct RUN_COMPLETED gives two closing events. |
| `RunMeaning.ClosingMeans` | src/projectos/run_evidence.py:259-323 | Closing sets the status of an open run to that of the outcome and of no other run. |
| `RunMeaning.EmissionMeans` | src/projectos/domain_events.py:73-222 | An admitted event joins the log, leaves its status on its run alone, and goes once to each subscriber, an audit event not to Slack. |
| `RunMeaning.PublicationMeans` | src/projectos/run_evidence.py:361-434 | A published release of an open run is followed by completion or by the report of what is missing, as the evidence says. |
| `RunMeaning.PauseMeans` | src/projectos/run_evidence.py:223-256 | Pausing leaves a known run waiting for the sponsor. |
| `RunClosure.RunLedger.Emit` | src/projectos/domain_events.py:73-222 | The event, its outbox keys, the derived run status and the follow-up; fails exactly when a guard refuses this event or its follow-up. |
| `RunClosure.RunLedger.MaybeClose` | src/projectos/run_evidence.py:361-434 | Closes or reports incomplete exactly on a published release of an open run. |
| `RunClosure.RunLedger.Close` | src/projectos/run_evidence.py:259-323 | Idempotent closing through the emission. |
| `NextActions.AcceptedIsLiveIff` | src/projectos/run_next_actions.py:46-137 | Exactly when an accepted action is live. |
| `NextActions.AcceptedRetryIsNotLive` | src/projectos/run_next_actions.py:120-135 | Input for it: a retry with a due time on a QUEUED job is accepted and not live. |
| `NextActions.ActionTable.CompleteStale` | src/projectos/run_next_actions.py:345-363 | Completes exactly the open actions of the run whose job has ended. |
| `NextActions.ActionTable.FirstExecutable` | src/projectos/run_next_actions.py:369-374 | The executable job least by priority, then id. |
| `NextActions.ActionTable.Reconcile` | src/projectos/run_next_actions.py:330-385 | The loop computes the reconciled table and touched ids. |
| `NextActions.NextJobIsLeast` | src/projectos/run_next_actions.py:369-374 | The chosen job is executable and least by priority, then id; none is chosen only when none exists. |
| `NextActions.ReconcileAgrees` | src/projectos/run_next_actions.py:330-385 | After a reconcile no open action points at an ended job, and executable work has a live action. |
| `NextActions.ReconcileChanges` | src/projectos/run_next_actions.py:330-385 | Nothing else changes; at most one action is created, only when none was live, for the least job. |
| `NextActions.ReconcileIdempotent` | src/projectos/run_next_actions.py:330-385 | A second reconcile reports nothing and changes nothing. |
| `NextActions.InertIffNothingMoves` | src/projectos/run_liveness.py:13-32 | A run is reported inert if and only if nothing would move it; after a reconcile executable work drives it. |
| `ActionMeaning.AcceptedMeans` | src/projectos/run_next_actions.py:46-137 | Which actions may be stored, kind by kind. |
| `ActionMeaning.LiveMeans` | src/projectos/run_next_actions.py:266-327 | Which stored actions are live, kind by kind. |
| `ActionMeaning.DrivenMeans` | src/projectos/run_next_actions.py:266-327 | A run is driven iff some pending or claimed action of it is live. |
| `ActionMeaning.ForemostIsNext` | src/projectos/run_next_actions.py:369-374 | The next job is the foremost executable one of the run. |
| `ActionMeaning.ReconcileMeans` | src/projectos/run_next_actions.py:330-385 | The table after a reconcile: outstanding actions on ended jobs, pending or claimed, are completed, all others stay, and one action is added exactly when no live one is left and a job can run. |
| `ActionMeaning.EndedRunStays` | src/projectos/run_next_actions.py:330-344 | A run that is unknown or has ended is not touched. |
| `ActionMeaning.ReportedIds` | src/projectos/run_next_actions.py:345-385 | The ids reported are those of the completed actions in order, then of the one added. |
| `ActionMeaning.ClassifyMeans` | src/projectos/run_liveness.py:13-32 | How a run is reported, case by case. |
| `ActionMeaning.ReportedByOldest` | src/projectos/run_liveness.py:21-27 | A driven run is reported under the kind of its oldest driving action. |
| `Dispatch.LimitedQueryIsEnough` | src/projectos/dispatch.py:151-164 | Querying free slots plus busy count selects exactly what filtering the whole list would. |
| `Dispatch.FillSlots` | src/projectos/dispatch.py:155-164 | The scan with early stop picks the first free jobs. |
| `Dispatch.SelectJobs` | src/projectos/dispatch.py:151-164 | The selection equals the one from the whole list, without repetition and never busy. |
| `Dispatch.SelectionFills` | src/projectos/dispatch.py:151-164 | The selection takes the first free jobs of the list and leaves a slot empty only when no free job is left. |
| `Dispatch.Submit` | src/projectos/dispatch.py:166-181 | Every selected job is submitted once, in order, on top of what is in flight, and nothing submitted is lost. |
| `Dispatch.Collect` | src/projectos/dispatch.py:192-204 | Exactly the completed futures move to the results, once, behind the earlier results, which stay. |
| `Dispatch.Drain` | src/projectos/dispatch.py:67-97 | Earlier results stay, exactly the futures that finish within the grace period become results, and exactly the others are dropped. |
| `Dispatch.Turn` | src/projectos/dispatch.py:149-204 | One turn fills every free slot, also while work is in flight, with the first eligible jobs that are not in flight, as far as they go and no cancellation comes in between; exactly the completed futures become results; it keeps the bound and loses nothing. |
| `Dispatch.Iterate` | src/projectos/dispatch.py:148-227 | The loop stops after a turn if and only if it runs once, has run its waves, is cancelled, or nothing is left to do; only a cancelled or limited loop drains. |
| `Dispatch.AtMostOneResultEach` | src/projectos/dispatch.py:187-204 | There are never more results than submissions. |
| `Dispatch.AllAccounted` | src/projectos/dispatch.py:187-204 | With nothing lost and nothing in flight there is one result per submission. |
| `Dispatch.RunDispatch` | src/projectos/dispatch.py:100-255 | In-flight work never exceeds the limit or holds a job twice; once mode takes one turn and `maxWaves` that many; a cancellation ends the loop in its turn; in every mode each submission is in flight, has its one result, or was too late for the final drain; an uncancelled until-idle run without wave limit ends idle with one result per submission. |
| `Proposals.AtMostOnePending` | src/projectos/chatgpt_proposals.py:207-327 | Over every run at most one pending proposal per thread, sponsor and project. |
| `Proposals.StatusMoves` | src/projectos/chatgpt_proposals.py:376-473 | The only moves a step can make on a proposal. |
| `Proposals.DispatchesByStatus` | src/projectos/chatgpt_proposals.py:434-443 | Over every run a proposal is dispatched at most once, and exactly once if dispatched or completed. |
| `Proposals.DecidedIsFrozen` | src/projectos/chatgpt_proposals.py:276-300 | Once decided, only the status changes. |
| `Proposals.ApprovalStep` | src/projectos/chatgpt_proposals.py:387-431 | Only an explicit, unexpired approval approves, and work only with a non-empty preview. |
| `Proposals.ExecutedWasApproved` | src/projectos/chatgpt_proposals.py:387-473 | Every approved, dispatched, completed or failed proposal was approved at some step with exactly its present content, and carries that message. |
| `ProposalMeaning.ListedIffEligible` | src/projectos/chatgpt_proposals.py:303-327 | The listing of a thread holds its pending proposals before their deadline, each once, oldest first. |
| `ProposalMeaning.ApprovalMeans` | src/projectos/chatgpt_proposals.py:387-431 | Nothing pending iff none is eligible, several pending iff two are; a sole one is refused for another project first, for unseen work second, and taken otherwise. |
| `ProposalMeaning.ApprovesIff` | src/projectos/chatgpt_proposals.py:387-431 | A pending row is approved iff the message is an approval and the row the sole eligible one, of the named project and, if work, previewed; it expires iff it is overdue. |
| `ProposalMeaning.CreateRefusedIff` | src/projectos/chatgpt_proposals.py:219-231 | Each refusal of a request iff its condition, in order. |
| `ProposalMeaning.CreationMeans` | src/projectos/chatgpt_proposals.py:232-273 | A row is added iff the request stands and the thread has no eligible proposal for the project; its columns. |
| `ProposalMeaning.StepMeans` | src/projectos/chatgpt_proposals.py:276-473 | When a row is dispatched, completed, failed, expired or previewed, as if-and-only-ifs over its columns. |
| `Proposals.ProposalTable.ListPending` | src/projectos/chatgpt_proposals.py:303-327 | Expires the thread's overdue proposals and lists exactly the pending ones. |
| `Proposals.ProposalTable.CreateProposal` | src/projectos/chatgpt_proposals.py:207-273 | Refuses as documented; otherwise returns the pending proposal of that project, existing or new. |
| `Proposals.ProposalTable.ApprovePending` | src/projectos/chatgpt_proposals.py:387-431 | Approves the single eligible proposal of the thread or gives the exact refusal. |

## Left out

- SQLite mechanics, git, subprocesses, the Cursor CLI, Slack and other HTTP, daemon and operator process control, CLI and dashboard: input and output without run-level content.
- Lookup tables (`auth.py`, `presentation.py`, `request_capability.py`, `advisor_errors.py`) and message or prompt text: they would only add easy members.
- PlanValidation.ValidatePlanDocument: a `depends_on` that is truthy but no array and a `schema_version` that is not a number are outside the typed document; the source reports or raises on both, so neither is ever accepted.
- PlanStore.JobStore.CreateJob: priorities, assignments and the comparison with an identity snapshot are not modelled; persisting a plan passes a snapshot of the same project and repository.
- QaStore.QaDatabase.CreateAssuranceJobs: takes the run as a parameter; the separate statement that tags retest evidence with its run is part of this step.
- QaStore.QaDatabase.ProcessWorkerOutput: an exception that rolls the transaction back is a step that did not happen; the events and defect stories it also writes are not modelled.
- QaLedger.CollectGateFacts: the branches on job status are not modelled, since the table's constraint restricts results to the five values that decide first.
- RemediationLog.CollectFindings: the digest of a signature is a parameter; results that need it injective say so. Text normalisation before hashing is part of it, so ids that differ only in case or spacing may share a fingerprint.
- Remediation.RemediationDb.RunQaWithRemediation: models the loop for a given run id; without one the source only reads the gate. Gate events, finding events and the closing of the run on escalation are reduced to the log entries the limits depend on, and other writers act while a worker, a retest or a retry is under way, not between the count and the first insert of a cycle.
- ReleaseReconcile.ReconcileStaleRelease: leases, sponsor columns, audit events and timestamps are not modelled, except that a leased job is refused.
- OutboxDispatch.HeldIffStreamFailed: speaks about one batch; across batches a newer row can overtake a released one, and rows held by a dead or skipped row are never released.
- RunClosure.RunLedger.Emit: phases, progress and evidence texts are not modelled. That a terminal run status is absorbing is not claimed, since the run table has no guard on updates; closing is stated over events instead.
- Dispatch.RunDispatch: replays the loop against every finite sequence of turns, since the source's loop may poll for ever; eventual termination is not claimed.
- Proposals.ExecutedWasApproved: the classification of approval texts is a parameter; parsing, summaries, risk and result texts are not modelled.
- The iteration conductor, the worker and delivery packages: outside the six components.
