# CCTV memory: a verified model of its core

This project models, in Dafny, the parts of the CCTV memory system that are hardest to get
right, and proves what they promise:

- **The analysis job as a fault-tolerant state machine.** `UnitProtocol` is the life of one
  analysis window through its write sessions, with every stage free to raise, every commit free
  to be refused, threads interleaving at will, the orphan sweep striking between any two steps
  and crashes wiping the threads; `UnitOutcome` says where such a thread ends. `JobRun` is one cross-scale run of a job over its stored rows,
  phase by phase, with a fault chosen for every write session. `OrphanSweep` is the recovery of
  units left running, over all jobs, and `JobRecovery` puts both over one store.
- **Concurrency.** `VlmConcurrency` is the shared VLM scheduler as thread steps over a semaphore,
  the start-interval lock, the process-wide write lock and a clock. `CrossScaleScheduler` is the
  starvation-free dispatch order and the tallying of outcomes. `Retry` holds the two bounded
  retry loops.
- **Planners and selectors.** `DefaultSegments`, `MotionTriggers`, `HighFreqUnits` and
  `FrameSelection`; floating-point numbers are exact reals.
- **Search and indexing.** `Ranking` (reciprocal rank fusion), `SearchRevisions` (start, refine
  and batch-refine over immutable revisions, the cross-encoder) and `Reindex` (the batched vector
  rebuild).

`Statuses` holds the transition tables and verdict rules; `Arith`, `Sets` and `Orders` hold the
shared arithmetic, finite-set and sorting facts.

A write session is atomic: it commits or leaves the store as it was
(`cctv_memory/infrastructure/runtime.py:177-188`). Calls into providers, clocks, randomness and
the environment are parameters: an `Env` per unit step, a `Faults` record per run, a reply
function for the VLM, a `World` per search call.

## Findings

Where the code does less than its documentation or comments suggest, the model follows the code,
and a lemma or clause shows the input and the exact condition:

- The scheduler's tallies and the stored rows agree for a unit if and only if its thread never
  *loses track* (`UnitProtocol.ReconciledRun`). It does so at two points: a claim session that
  fails on a unit an earlier run had already finished is tallied as a failure
  (`UnitProtocol.RefusedClaimCountsFailure`), and the `outcome` a publish closure set to FAILED
  when it found no job row is not reset when a retry of the same closure then publishes
  (`UnitProtocol.LatePublicationCountsFailure`). On a first run with the job row in place neither
  can happen (`UnitProtocol.FirstRunNeverLoses`).
- A first run attempts an illegal transition if and only if the job was set running and either the
  write that starts the motion scan is lost, or the run reaches the high-frequency scale and the
  write that starts it is lost; failing the still pending scale then escapes the run
  (`JobRun.JobStore.ProcessClaimedTask`).
- A re-run of a job whose motion scan had succeeded always escapes. It changes no scale task and no
  unit, but it does commit the job as RUNNING first when it may
  (`JobRun.JobStore.ProcessClaimedTask`). Which stored rows let a run reach a verdict, or Phase 6,
  is `JobRun.VerdictReachable` and `JobRun.PhaseSixReachable`: a finished motion scan, default scale
  or triggered high-frequency scale rules Phase 6 out, and with a finished default scale the only
  verdict left is FAILED (`JobRun.FinishedDefaultFails`).
- A run that escapes after Phase 5 leaves no running unit, so recovery, which would write the very
  verdict the run had computed, never reaches the job: it stays RUNNING through every sequence of
  passes, and through re-runs too once the motion scan had succeeded
  (`JobRecovery.EscapedJobIsOutOfReach`, `JobRecovery.RerunAfterEscape`).
- After a crash inside Phase 4 the sweep gives the job a verdict if and only if some unit was in
  flight and every running scale had one (`JobRecovery.CrashVerdict`); that verdict is then the one
  of Phase 6 (`JobRecovery.RecoveryEqualsPhase6`).
- The interval lock spaces the recorded start stamps, not the provider calls. The gap between calls
  that is guaranteed is exactly the interval less the longest time a thread can be held up between
  its stamp and its call, so calls are spaced by the interval if and only if that time is zero
  (`VlmConcurrency.GuaranteedGap`, `VlmConcurrency.SpacingNeedsNoDelay`); two calls can start at the
  same instant (`VlmConcurrency.CallsCanCoincide`).
- A negative overlap leaves gaps between default segments (`DefaultSegments.CoverageCondition`).
- The docstring of `plan_motion_triggers` says that short windows are dropped; the code extends
  them to the minimum duration (`MotionTriggers.ShortBlipIsKept`,
  `MotionTriggers.ShortStretchIsExtended`).
- A record that is at least as relevant as another in every channel can still score lower, because
  an id tie in a channel costs it a rank (`Ranking.TieInOneChannelCanReverse`). No non-negative
  weights score it lower if and only if the ties are broken in its favour
  (`Ranking.NeverBelowExactlyWhen`). Without a query and with a static weight of zero the order is
  by id and not by time (`Ranking.ZeroWeightIsIdOrder`).
- A refused refinement stores nothing: the close or expiry that precedes the error is rolled back
  with its session, so a context whose scope changed, or that was idle, is refused and yet stays
  live in the store. Only closing and the maintenance sweep store another status
  (`SearchRevisions.SearchService.RefineSearch`, `SearchRevisions.SearchService.CloseContext`,
  `SearchRevisions.SearchService.SweepContexts`).

## Model

| member | source | states |
|---|---|---|
| `Statuses.AnyBadMeaning` | cctv_memory/workers/analysis_worker.py:1511-1547 | the check over the four scales is true exactly when some stored scale is failed or partially failed |
| `Statuses.AllTerminalMeaning` | cctv_memory/workers/analysis_worker.py:1520-1524 | the check over the four scales is true exactly when every stored scale is terminal |
| `Statuses.JobTable` | cctv_memory/domain/state_machine.py:11-25 | the legal job transitions, pair by pair |
| `Statuses.TaskTable` | cctv_memory/domain/state_machine.py:27-36 | the legal task transitions, pair by pair |
| `UnitProtocol.Fuel` | cctv_memory/workers/default_segment.py:645-1176 | a thread has steps left exactly while it has not halted |
| `UnitProtocol.StepProgress` | cctv_memory/workers/default_segment.py:645-1176 | every live step of a unit makes progress whatever the environment does, so every unit thread ends |
| `UnitProtocol.EventMeaning` | cctv_memory/workers/analysis_worker.py:1081-1109 | what a sweep, Phase 4.5, a crash and a new run do to a unit: which row changes and to what, and which thread is left |
| `UnitProtocol.StepKeepsLocalInv` | cctv_memory/workers/default_segment.py:583-643 | every step and every sweep keeps: stored as succeeded exactly when published once, a live thread's row is running or was swept, a reported success or skip is stored |
| `UnitProtocol.StepTruth` | cctv_memory/workers/default_segment.py:1076-1147 | a step ends with a report that matches the stored row if and only if it is not one of the two losing steps |
| `UnitProtocol.ExecKeepsInv` | cctv_memory/workers/default_segment.py:555-643 | the unit invariant holds after every sequence of thread steps, sweeps, reconciliations, crashes and new runs |
| `UnitProtocol.PublishedAtMostOnce` | cctv_memory/workers/default_segment.py:1076-1147 | over any history of runs, crashes and sweeps a window is published at most once and is stored as succeeded exactly when it was |
| `UnitProtocol.SuccessIsFinal` | cctv_memory/workers/default_segment.py:583-597 | no later run, sweep, crash or retry undoes or repeats a stored success |
| `UnitProtocol.TruthOfRun` | cctv_memory/workers/default_segment.py:555-643 | over a whole interleaved run a unit's report is true if and only if it was before and no step lost track |
| `UnitProtocol.ReconciledRun` | cctv_memory/workers/analysis_worker.py:1081-1109 | once all threads halted and Phase 4.5 committed no unit is running, and a planned unit's report is true if and only if its thread never lost track |
| `UnitProtocol.StoredMatchesReported` | cctv_memory/workers/cross_scale_scheduler.py:144-167 | per scale, the planned units stored as succeeded (skipped) are exactly those reported so |
| `UnitProtocol.FirstRunNeverLoses` | cctv_memory/workers/default_segment.py:583-597 | on a first run with the job row in place no interleaving loses track |
| `UnitProtocol.RefusedClaimCountsFailure` | cctv_memory/workers/default_segment.py:583-643 | a refused claim on a finished unit ends as a reported failure of a published window |
| `UnitProtocol.LatePublicationCountsFailure` | cctv_memory/workers/default_segment.py:1076-1147 | a publication that commits on a retry after a missing job row is reported as a failure |
| `UnitProtocol.InterleavingIrrelevant` | cctv_memory/workers/cross_scale_scheduler.py:96-142 | however the pool interleaves its threads, each unit ends where it would have ended running alone |
| `UnitProtocol.RunAlone` | cctv_memory/workers/default_segment.py:555-643 | a unit run to its end halts, and is done if it was dispatched (where it ends is `UnitOutcome.ThreadFollowsScript`) |
| `UnitProtocol.AloneMatchesSteps` | cctv_memory/workers/default_segment.py:555-643 | running a unit to its end agrees with any finished sequence of its steps on the same environments |
| `UnitProtocol.FinishedPool` | cctv_memory/workers/cross_scale_scheduler.py:96-142 | a unit that halted in any interleaved run ended where running it alone on the environments it met ends |
| `UnitProtocol.RunAloneTruthful` | cctv_memory/workers/default_segment.py:555-643 | with the job row in place and nothing finished beforehand, a unit reports exactly what it stored |
| `UnitOutcome.ThreadFollowsScript` | cctv_memory/workers/default_segment.py:555-1176 | under every sequence of environments the step-by-step thread ends where the straight-line program ends: claim, frames, gate, model, publication, each write retried as a whole, the guard last |
| `UnitOutcome.WriteMeaning` | cctv_memory/workers/retry.py:329-356 | a retried write goes through if and only if one of its attempts commits after transient refusals only |
| `UnitOutcome.UnitEndsAsItsStagesDecide` | cctv_memory/workers/default_segment.py:806-899 | with the job row seen and writes committing, a new, failed or abandoned unit is published once and succeeds exactly when frames were found and the model answered or the gate suppressed on the default scale; is skipped exactly when frames were missing or the gate suppressed on another scale; and fails otherwise |
| `UnitOutcome.FinishedUnitIsKept` | cctv_memory/workers/default_segment.py:583-597 | a unit an earlier run finished is left as it is and reported for what it is |
| `UnitOutcome.AnsweredUnit` | cctv_memory/workers/default_segment.py:1076-1147 | with the job row in place an answered window is published exactly when its publication commits within the attempts; otherwise the guard decides |
| `UnitOutcome.ReportFollowsStages` | cctv_memory/workers/default_segment.py:645-1176 | in a job, such a unit reports and stores what its stages decide |
| `CrossScaleScheduler.EmitBatch` | cctv_memory/workers/cross_scale_scheduler.py:67-74 | one round takes the next units, at most the quota, in order |
| `CrossScaleScheduler.DispatchOrder` | cctv_memory/workers/cross_scale_scheduler.py:50-80 | a permutation of both lists; default unit i is at i + min((i+1)*quota, hf) and high-frequency unit j at j + min(j/quota, df) |
| `CrossScaleScheduler.PositionsGrow` | cctv_memory/workers/cross_scale_scheduler.py:50-80 | each list keeps its order |
| `CrossScaleScheduler.PositionsDisjoint` | cctv_memory/workers/cross_scale_scheduler.py:50-80 | no two units share a position |
| `CrossScaleScheduler.DefaultNeverStarves` | cctv_memory/workers/cross_scale_scheduler.py:50-80 | between neighbouring default units at most max(1, quota) high-frequency units, and exactly that many while there are enough |
| `CrossScaleScheduler.Tally` | cctv_memory/workers/cross_scale_scheduler.py:160-167 | exactly one counter grows, by one, according to the outcome |
| `CrossScaleScheduler.Aggregate` | cctv_memory/workers/cross_scale_scheduler.py:96-142 | the per-scale results are a function of the bag of reports, so no completion order changes them |
| `CrossScaleScheduler.CountsAreSets` | cctv_memory/workers/cross_scale_scheduler.py:160-167 | a count of an outcome is the number of units of the scale that ended so |
| `CrossScaleScheduler.CountsSumToTotal` | cctv_memory/workers/cross_scale_scheduler.py:96-167 | succeeded, failed and skipped add up to the units of the scale |
| `JobRun.JobStore.TransitionJob` | cctv_memory/application/analysis_orchestrator.py:35-65 | the job changes exactly when the write persists and the transition is legal or asks for the present status; illegal attempts are recorded |
| `JobRun.JobStore.TransitionScale` | cctv_memory/application/analysis_orchestrator.py:67-89 | the same for a scale task, leaving the other rows alone |
| `JobRun.JobStore.FinalizeScale` | cctv_memory/workers/analysis_worker.py:1053-1079 | counters and status of a scale are written together or not at all |
| `JobRun.RowReports` | cctv_memory/workers/analysis_worker.py:1053-1079 | a finalised row read off the reports: PARTIAL_FAILED exactly when some unit succeeded and some failed, FAILED exactly when some failed and none succeeded, SUCCEEDED exactly when none failed, and the counters are numbers of units |
| `JobRun.JobStore.HandleRequiredFailure` | cctv_memory/workers/analysis_worker.py:1268-1296 | a running default scale and the job fail together, in one session |
| `JobRun.JobStore.Phase1` | cctv_memory/workers/analysis_worker.py:567-582 | the scan passes exactly when it succeeds or its failure can be stored; triggers count as soon as they are committed; from a pending scan the only illegal attempt follows a lost start |
| `JobRun.JobStore.Phase2` | cctv_memory/workers/analysis_worker.py:583-614 | passes exactly when the scales to be skipped can be; the high-frequency scale is active exactly when there are triggers, else skipped, and the low-frequency scale is skipped |
| `JobRun.JobStore.PlanHighFreq` | cctv_memory/workers/analysis_worker.py:637-661 | passes exactly when the scale is planned or its failure can be stored |
| `JobRun.JobStore.Phase3` | cctv_memory/workers/analysis_worker.py:615-661 | the required failure ends the run exactly when default was not started and planned; otherwise both scales are ready for Phase 4 |
| `JobRun.JobStore.Prepare` | cctv_memory/workers/analysis_worker.py:452-661 | exactly which stored rows and faults let a run reach Phase 4, and when a first run attempts an illegal transition |
| `JobRun.JobStore.DriveUnits` | cctv_memory/workers/cross_scale_scheduler.py:96-159 | every dispatched unit and no other runs to its end, its row is where its thread left it, and the reports are its outcomes |
| `JobRun.JobStore.RunPlanned` | cctv_memory/workers/analysis_worker.py:663-672 | the results of Phase 4 are the counts over each scale's own plan |
| `JobRun.JobStore.FinishScales` | cctv_memory/workers/analysis_worker.py:685-727 | both scales are finalised in one session or neither is |
| `JobRun.JobStore.Conclude` | cctv_memory/workers/analysis_worker.py:663-775 | a run that gets past Phase 5 leaves no running unit, rows that follow from the reports, and the verdict of the stored rows |
| `JobRun.JobStore.ProcessClaimedTask` | cctv_memory/workers/analysis_worker.py:452-775 | from any stored rows: a verdict is written if and only if the rows and faults let it; FAILED exactly when default planning failed or default has units and no success, otherwise PARTIAL_FAILED exactly when some scale is bad and SUCCEEDED exactly when all succeeded or were skipped; no unit is left running; every scale that ran units has the row its reports say and every other scale the status its phase gives; first-run rows bear out the reports; a first run attempts an illegal transition if and only if a start it depends on is lost; a re-run after a successful scan escapes with scales and units unchanged and the job RUNNING if it may be |
| `JobRun.PhaseSixReachable` | cctv_memory/workers/analysis_worker.py:549-775 | some faults let a run end in Phase 6 if and only if the stored rows have an unfinished motion scan and default scale and a high-frequency scale that can run or be skipped |
| `JobRun.VerdictReachable` | cctv_memory/workers/analysis_worker.py:549-775 | some faults let a run end at all if and only if Phases 1 and 2 can get through and there is a default scale or Phase 6 can be reached |
| `JobRun.FinishedDefaultFails` | cctv_memory/workers/analysis_worker.py:617-635 | with a finished default scale the only verdict left is FAILED |
| `JobRun.PoolEndsLikeDriver` | cctv_memory/workers/cross_scale_scheduler.py:96-142 | every finished interleaving of the pool leaves the rows and reports of running the units one by one |
| `JobRun.RunIsDetermined` | cctv_memory/workers/analysis_worker.py:663-672 | rows and reports of Phase 4 are determined by the environments |
| `JobRun.PoolMatchesRunPlanned` | cctv_memory/workers/analysis_worker.py:663-672 | any interleaving with any completion order leaves the rows and per-scale results of the dispatch-order run |
| `JobRun.MergedPlans` | cctv_memory/workers/analysis_worker.py:663-672 | merging plans of two scales keeps every unit exactly once |
| `JobRun.FinalVerdict` | cctv_memory/workers/analysis_worker.py:728-753 | the verdict Phase 6 computes in memory is the one the stored rows imply |
| `JobRun.StoredVerdictMeaning` | cctv_memory/workers/analysis_worker.py:1511-1547 | the verdict of terminal rows: partial exactly when a scale is bad, succeeded exactly when all succeeded or were skipped |
| `JobRun.RowsAfterRun` | cctv_memory/workers/analysis_worker.py:1081-1109 | after Phase 4.5 nothing is running, and on a first run every report is borne out by the store |
| `JobRun.ReconciledMeaning` | cctv_memory/workers/analysis_worker.py:1081-1109 | Phase 4.5 changes running rows only, to failed |
| `JobRun.PlanCounts` | cctv_memory/workers/analysis_worker.py:1053-1079 | the counts of a plan add up to its size, and zero successes means no unit succeeded |
| `OrphanSweep.Repositories.ListStaleRunning` | cctv_memory/infrastructure/db/repositories/admin.py:543-570 | stale running rows only, as many as the limit allows, the oldest first |
| `OrphanSweep.Repositories.ReconcileScaleTask` | cctv_memory/workers/analysis_worker.py:1483-1509 | never attempts an illegal transition; a running task whose units are all terminal gets their counts and verdict, others stay |
| `OrphanSweep.ReconciledTaskMeaning` | cctv_memory/workers/analysis_worker.py:1483-1509 | a running task without running or pending units is settled by its unit rows: partial exactly when some succeeded and some failed, failed exactly when some failed and none succeeded, succeeded exactly when none failed, with exact counters; any other task keeps its row |
| `OrphanSweep.Repositories.ReconcileJob` | cctv_memory/workers/analysis_worker.py:1511-1547 | never attempts an illegal transition; a running job with terminal scales gets the verdict of its rows, others stay |
| `OrphanSweep.Repositories.RecoverOrphans` | cctv_memory/workers/analysis_worker.py:1443-1481 | from any stored state only legal transitions; a unit row changes only from running with a recorded start strictly before the cutoff, to failed, the oldest first; if fewer than the limit changed, no such unit is left; the tasks and jobs of the changed units are recomputed |
| `OrphanSweep.ScalesOfMeaning` | cctv_memory/workers/analysis_worker.py:1521-1524 | every stored task of the job takes part in its verdict |
| `OrphanSweep.PassShrinks` | cctv_memory/workers/analysis_worker.py:1443-1481 | one pass removes exactly min(limit, n) stale units; with none stale it changes nothing |
| `OrphanSweep.ClearedInCeilPasses` | cctv_memory/workers/analysis_worker.py:1443-1481 | n stale units are gone after exactly ceil(n/limit) passes, after which the sweep is idle |
| `OrphanSweep.SweepTwice` | cctv_memory/workers/analysis_worker.py:1443-1481 | two passes are one pass over what both picked: scale rows and verdicts do not depend on how the units are divided |
| `OrphanSweep.PassesAreOneSweep` | cctv_memory/workers/analysis_worker.py:1443-1481 | any number of bounded passes is one sweep of min(passes*limit, n) stale units |
| `OrphanSweep.ClearedIsOneSweep` | cctv_memory/workers/analysis_worker.py:1443-1481 | once all stale units are cleared the store is the one a single unbounded sweep leaves |
| `JobRecovery.EscapedJobIsOutOfReach` | cctv_memory/workers/analysis_worker.py:728-775 | for every run that escaped after Phase 5, recovery would write exactly its verdict, and no sequence of passes changes any row of the job |
| `JobRecovery.RerunAfterEscape` | cctv_memory/workers/analysis_worker.py:567-582 | with a succeeded motion scan a re-run leaves such a job as it was |
| `JobRecovery.CrashLeavesCrashedRows` | cctv_memory/workers/analysis_worker.py:663-672 | whenever the process dies in Phase 4, the running units belong to running scales and nothing is pending |
| `JobRecovery.CrashVerdict` | cctv_memory/workers/analysis_worker.py:1443-1547 | the job after recovery from a crash in Phase 4, as a function of the rows: still running exactly when no unit was in flight or a running scale had none, else FAILED exactly when default has no success, else PARTIAL_FAILED |
| `JobRecovery.RecoveryEqualsPhase6` | cctv_memory/workers/analysis_worker.py:1511-1547 | whenever the sweep gives an interrupted run a verdict, it is the one Phase 6 computes from the reports |
| `JobRecovery.InterruptedRunVerdict` | cctv_memory/workers/analysis_worker.py:1443-1547 | the same over the store, for every first run interrupted between Phase 4 and Phase 5 and every number of passes |
| `OrphanSweep.InterruptedIsNotSuccess` | cctv_memory/workers/analysis_worker.py:1483-1547 | a job interrupted with a unit in flight is never recovered as a success |
| `OrphanSweep.OutOfReach` | cctv_memory/workers/analysis_worker.py:1443-1481 | a job without a running unit is left as it is, also when it is itself still running |
| `VlmConcurrency.ExecKeepsInv` | cctv_memory/workers/vlm_scheduler.py:60-119 | the lock, permit and clock invariant holds in every interleaving |
| `VlmConcurrency.CallsBounded` | cctv_memory/workers/vlm_scheduler.py:60-119 | in-flight calls never exceed the maximum, permits are conserved, each lock has one holder |
| `VlmConcurrency.NoDeadlock` | cctv_memory/workers/default_segment.py:266-357 | unless every thread is outside, some thread can move: semaphore, interval lock and write lock are only waited for in that order |
| `VlmConcurrency.WaitsOnlyForHolders` | cctv_memory/workers/vlm_scheduler.py:60-93 | a thread is admitted exactly while fewer than max_concurrent are inside, and gets a lock exactly when no thread holds it |
| `VlmConcurrency.Drains` | cctv_memory/infrastructure/db/write_coordinator.py:37-43 | once no new work enters, every schedule makes a bounded number of moves |
| `VlmConcurrency.StartsSpaced` | cctv_memory/workers/vlm_scheduler.py:73-93 | recorded starts i and j are at least (j-i) intervals apart in every interleaving |
| `VlmConcurrency.WakesOnTime` | cctv_memory/workers/vlm_scheduler.py:75-92 | in every interleaving a waiting thread wakes exactly when the interval is over, plus the time its announcing callback took |
| `VlmConcurrency.StartsWhenDue` | cctv_memory/workers/vlm_scheduler.py:73-93 | for every elapsed time, a thread that finds the lock free and is not held up records its start exactly at max(now, last + interval) |
| `VlmConcurrency.StartRate` | cctv_memory/workers/vlm_scheduler.py:73-93 | a time span T holds at most T/interval + 1 recorded starts |
| `VlmConcurrency.CallBudget` | cctv_memory/workers/vlm_scheduler.py:73-119 | over a whole run the provider is called at most clock/interval + 1 times |
| `VlmConcurrency.CallGap` | cctv_memory/workers/vlm_scheduler.py:73-101 | in every interleaving two calls are as far apart as their stamps plus the difference of their delays, so at least (j-i) intervals less the delay of the first |
| `VlmConcurrency.SpacedExactlyWhen` | cctv_memory/workers/vlm_scheduler.py:73-101 | calls keep the interval if and only if no call is held up longer than a later one by more than the room between their stamps |
| `VlmConcurrency.GuaranteedGap` | cctv_memory/workers/vlm_scheduler.py:73-101 | over all runs whose calls are held up by at most a bound, the guaranteed gap is exactly the interval less the bound |
| `VlmConcurrency.SpacingNeedsNoDelay` | cctv_memory/workers/vlm_scheduler.py:73-101 | calls are guaranteed to be an interval apart if and only if nothing holds a thread up between stamp and call |
| `VlmConcurrency.CallsCanCoincide` | cctv_memory/workers/vlm_scheduler.py:73-101 | for every interval, a schedule in which two provider calls start at the same instant although their stamps are spaced |
| `Retry.ComputeBackoff` | cctv_memory/workers/retry.py:106-126 | between zero and the cap stretched by the jitter |
| `Retry.BackoffDoubles` | cctv_memory/workers/retry.py:106-126 | without jitter the first delay is the base and each further one doubles until the cap |
| `Retry.BackoffIsScaled` | cctv_memory/workers/retry.py:106-126 | with jitter the delay is the jitter-free one times one plus the draw |
| `Retry.StrictAfterFirstSchemaFailure` | cctv_memory/workers/retry.py:203-307 | an attempt is strict exactly when an earlier one failed on the schema |
| `Retry.ExecuteVlmWithRetry` | cctv_memory/workers/retry.py:203-307 | for every sequence of replies the loop returns from inside within both budgets; on the replies alone, an attempt is followed by another if and only if it failed transiently and fewer than max_attempts have, or on the schema and at most as many as the schema budget have; one audit entry per attempt; exactly the recorded delays were slept |
| `Retry.SleepIsBounded` | cctv_memory/workers/retry.py:252-307 | total sleep is at most (max_attempts-1)*cap*(1+jitter) + schema budget * schema backoff |
| `Retry.VlmCallWithRetry` | cctv_memory/workers/retry.py:203-307 | the same with the policy's own backoff: the last reply decides the result, every audit entry matches its reply, the sleep is the sum of the recorded delays and within the bound |
| `Retry.BudgetsAreUsable` | cctv_memory/workers/retry.py:234-256 | for every policy there are replies on which every call makes exactly max_attempts + schema budget attempts |
| `Retry.CountersAreNumbers` | cctv_memory/workers/retry.py:245-250 | the loop counters are the numbers of transient and schema failures so far |
| `Retry.PauseAfter` | cctv_memory/workers/retry.py:257-270 | the delay after an attempt: the backoff for the number of transient failures while those allow a retry, else the schema backoff if there is one |
| `Retry.RunDbWriteWithRetry` | cctv_memory/workers/retry.py:329-356 | stops at the first commit, the first permanent error or the last attempt, having slept 1+2+... backoffs |
| `DefaultSegments.PlanDefaultSegments` | cctv_memory/domain/policies/__init__.py:239-265 | every argument: empty video, the two value errors, or exactly the closed-form windows |
| `DefaultSegments.ReachedIsCounted` | cctv_memory/domain/policies/__init__.py:257-265 | window i is planned exactly when i < 1 + ceil(max(0, duration-window)/step) (or ceil(duration/step) with gaps) |
| `DefaultSegments.CoverageCondition` | cctv_memory/domain/policies/__init__.py:239-265 | every millisecond is covered if and only if the overlap is not negative or the video fits into one window |
| `DefaultSegments.NoContainment` | cctv_memory/domain/policies/__init__.py:239-265 | no window contains another |
| `DefaultSegments.BoundedMultiplicity` | cctv_memory/domain/policies/__init__.py:239-265 | no instant lies in more than ceil(window/step) windows |
| `MotionTriggers.MedianStepIsMedian` | cctv_memory/domain/policies/__init__.py:390-398 | the median gap between neighbouring samples, the upper one of two, and at least one millisecond |
| `MotionTriggers.BuildRuns` | cctv_memory/domain/policies/__init__.py:339-356 | the loop computes the runs of consecutive samples at or above the threshold |
| `MotionTriggers.RunsFound` | cctv_memory/domain/policies/__init__.py:339-356 | a sample is at or above the threshold exactly when some run holds it, and neighbouring runs have a sample below it between them |
| `MotionTriggers.PeakIsMaximum` | cctv_memory/domain/policies/__init__.py:343-356 | a peak is attained by a sample and exceeded by none at or above the threshold |
| `MotionTriggers.MergeRuns` | cctv_memory/domain/policies/__init__.py:358-365 | the loop that changes the last merged run in place computes the merged runs |
| `MotionTriggers.MergeUpToMerges` | cctv_memory/domain/policies/__init__.py:358-365 | merging absorbs every run, bridges only pauses up to the gap, leaves neighbours more than the gap apart, and keeps the exact peaks |
| `MotionTriggers.PlanMotionTriggers` | cctv_memory/domain/policies/__init__.py:305-387 | the windows are derived from the sorted samples by runs, merging, extension and clamping, and are a function of the samples |
| `MotionTriggers.WindowsWellPlaced` | cctv_memory/domain/policies/__init__.py:367-387 | positive length, within the video, starting at a sample, strictly increasing starts, pairwise disjoint when min_duration_ms <= merge_gap_ms |
| `MotionTriggers.WindowPeak` | cctv_memory/domain/policies/__init__.py:343-387 | a window's peak is the maximum score of its merged runs |
| `MotionTriggers.StretchHoldsItsSamples` | cctv_memory/domain/policies/__init__.py:334-356 | a stretch ends at the next sample, or one median gap after the last, and contains exactly its own samples |
| `MotionTriggers.WindowIsItsStretch` | cctv_memory/domain/policies/__init__.py:367-387 | an instant is in a window if and only if it is in the video and in the stretch or within the minimum duration of its start |
| `MotionTriggers.OnlyLateStretchesDrop` | cctv_memory/domain/policies/__init__.py:374-381 | a stretch has no window if and only if the video is over when it starts |
| `MotionTriggers.ShortBlipIsKept` | cctv_memory/domain/policies/__init__.py:367-387 | a single hot sample gives a window of exactly the minimum duration |
| `MotionTriggers.ShortStretchIsExtended` | cctv_memory/domain/policies/__init__.py:367-387 | every stretch that starts inside the video is kept, for the minimum duration unless the video ends first |
| `MotionTriggers.HotSamplesCovered` | cctv_memory/domain/policies/__init__.py:305-387 | every sample at or above the threshold before the bound is inside a window |
| `HighFreqUnits.LastTime` | cctv_memory/workers/motion_scan.py:63-65 | the fallback bound is the latest sample time |
| `HighFreqUnits.StoredMeaning` | cctv_memory/workers/motion_scan.py:72-90 | storing keeps old rows in place, adds exactly the new triggers and never duplicates an idempotency key |
| `HighFreqUnits.StoringTwice` | cctv_memory/workers/motion_scan.py:47-53 | a repeated scan changes nothing |
| `HighFreqUnits.StoredAllNew` | cctv_memory/workers/motion_scan.py:72-90 | distinct triggers that were not there each get their own row |
| `HighFreqUnits.MotionScan.Process` | cctv_memory/workers/motion_scan.py:46-90 | unknown video, refused trigger or the count; the rows are the old ones with the planned triggers stored up to the first refused one |
| `HighFreqUnits.ScanIsAccepted` | cctv_memory/contracts/analysis.py:182-212 | over distinct non-negative sample times every trigger passes the contract and has its own idempotency key |
| `HighFreqUnits.PlanHighFreqWindows` | cctv_memory/domain/policies/__init__.py:401-448 | for every argument: nothing, a value error, or the default plan of the clamped span moved to its place |
| `HighFreqUnits.StepMeaning` | cctv_memory/domain/policies/__init__.py:438-438 | the step is the largest whole number of milliseconds the overlap leaves, at least one, so windows overlap by the configured share to within a millisecond |
| `HighFreqUnits.TriggerIsCovered` | cctv_memory/domain/policies/__init__.py:401-448 | windows are non-empty and cover exactly the part of the trigger that lies in the video |
| `HighFreqUnits.PlanUnits` | cctv_memory/workers/high_freq_event.py:462-544 | every window of every trigger is planned exactly once, for the first trigger that has it; planning fails exactly when the configuration is unusable and something is to be cut |
| `HighFreqUnits.UnitsAreTheTriggers` | cctv_memory/workers/high_freq_event.py:491-544 | unit windows are non-empty and in range, and an instant is in some unit exactly when a trigger holds it within the video |
| `HighFreqUnits.HotSampleIsAnalysed` | cctv_memory/workers/motion_scan.py:52-90 | every hot sample before the scan's bound and the planner's duration is inside a planned unit, whatever else is stored |
| `HighFreqUnits.ScanThenPlan` | cctv_memory/workers/analysis_worker.py:567-662 | scan and planning together: no trigger refused, and every hot sample both bounds admit is inside a unit |
| `FrameSelection.OrderedIsCanonical` | cctv_memory/domain/policies/__init__.py:502-504 | the sorted frames do not depend on arrival order |
| `Orders.SortIsStable` | cctv_memory/domain/policies/__init__.py:330-330 | sorting keeps the order of elements that tie |
| `FrameSelection.TopIsUnique` | cctv_memory/domain/policies/__init__.py:532-556 | the best k frames around a required set are determined |
| `FrameSelection.BucketBounds` | cctv_memory/domain/policies/__init__.py:538-545 | every frame falls into a bucket, and buckets divide the time span evenly |
| `FrameSelection.FillBuckets` | cctv_memory/domain/policies/__init__.py:541-545 | each bucket holds exactly its frames, in order |
| `FrameSelection.PickWinners` | cctv_memory/domain/policies/__init__.py:546-550 | the best frames of the non-empty buckets |
| `FrameSelection.BestAreWinners` | cctv_memory/domain/policies/__init__.py:546-550 | the picked frames are exactly the frames that beat everything in their bucket |
| `FrameSelection.LeftOutIsDominated` | cctv_memory/domain/policies/__init__.py:534-556 | every eligible frame left out has a selected frame of its own bucket that is at least as good |
| `FrameSelection.TopUpIsTop` | cctv_memory/domain/policies/__init__.py:551-556 | filling the budget takes the best of the rest |
| `FrameSelection.UniformIndexIsQuotient` | cctv_memory/domain/policies/__init__.py:521-523 | the real-valued step gives exactly floor(i*n/k) |
| `FrameSelection.UniformIncreases` | cctv_memory/domain/policies/__init__.py:518-531 | these indices strictly increase and stay in range |
| `FrameSelection.UniformIsUnique` | cctv_memory/domain/policies/__init__.py:518-531 | uniform selection returns exactly min(k, n) distinct frames in time order |
| `FrameSelection.DropRepeated` | cctv_memory/domain/policies/__init__.py:524-531 | indices become unique, and nothing is removed when they already were |
| `FrameSelection.SelectFrames` | cctv_memory/domain/policies/__init__.py:474-559 | at most k frames of the input in time order, and the selection its strategy describes whenever frame indices are unique |
| `FrameSelection.SelectionIsUnique` | cctv_memory/domain/policies/__init__.py:474-559 | there is one selection, independent of input order |
| `FrameSelection.SelectionSize` | cctv_memory/domain/policies/__init__.py:502-559 | exactly min(k, eligible) distinct frames, never empty, and none that fails the quality gate while one passes |
| `FrameSelection.RoomForAll` | cctv_memory/domain/policies/__init__.py:506-509 | with room for all, every strategy returns exactly the frames that are sharp enough and between 16 and 240 in brightness, or all if none is |
| `FrameSelection.TopScoresAreHighest` | cctv_memory/domain/policies/__init__.py:511-533 | selection by score takes the highest weighted sums of motion, scene change and capped sharpness, lower indices first |
| `FrameSelection.SelectionIsChronological` | cctv_memory/domain/policies/__init__.py:558-559 | the result is in time order, frames of one instant by index |
| `FrameSelection.BinsMeaning` | cctv_memory/domain/policies/__init__.py:535-541 | the buckets reach from the first to the last frame and their number is the wanted one, at least one and at most k |
| `Ranking.OrderIsUnique` | cctv_memory/domain/ranking.py:130-136 | the ordered list is a function of the scores |
| `Ranking.OrderCandidates` | cctv_memory/domain/ranking.py:130-136 | every candidate once, by score descending and then id |
| `Ranking.ToRankMap` | cctv_memory/domain/ranking.py:35-41 | a rank is one more than the number of ids that come before |
| `Ranking.BetterHasSmallerRank` | cctv_memory/domain/ranking.py:35-41 | whoever comes before has the smaller rank |
| `Ranking.IdLeMeaning` | cctv_memory/domain/ranking.py:35-41 | ids compare character by character, a beginning before the whole |
| `Ranking.RrfFuse` | cctv_memory/domain/ranking.py:83-127 | exactly the candidates get a score, the sum of their weighted reciprocal ranks and capped boosts |
| `Ranking.ComponentMeaning` | cctv_memory/domain/ranking.py:88-100 | a list adds its weight divided by rank plus k, or nothing without a rank |
| `Ranking.BoostMeaning` | cctv_memory/domain/ranking.py:101-102 | a boost counts up to its cap and zero where there is none |
| `Ranking.CombinedMeaning` | cctv_memory/application/search.py:440-447 | the vector relevance is the larger cosine a candidate has |
| `Ranking.DominantScoresHigher` | cctv_memory/domain/ranking.py:83-127 | with non-negative weights, at least as good in every rank list and boost scores at least as high |
| `Ranking.Rank` | cctv_memory/application/search.py:382-470 | with a query the fused order of the matched candidates, without one the fused chronological order |
| `Ranking.RankedExactlyWhen` | cctv_memory/application/search.py:399-470 | a candidate is ranked if and only if a channel its mode asks for knows it, or none knows any |
| `Ranking.IgnoredChannels` | cctv_memory/application/search.py:399-415 | what a mode does not ask for cannot change the answer |
| `Ranking.UsedChannels` | cctv_memory/application/search.py:399-415 | what it does ask for is used as it is |
| `Ranking.StaysWithinCandidates` | cctv_memory/application/search.py:455-470 | nothing but candidates, none twice, and not empty for a non-empty pool |
| `Ranking.QueryOrderDependsOnSet` | cctv_memory/application/search.py:382-470 | with a query the result depends only on the set of records |
| `Ranking.TimeOrderDependsOnSet` | cctv_memory/application/search.py:418-429 | so it does without one |
| `Ranking.NoQueryIsChronological` | cctv_memory/application/search.py:418-429 | with a positive static weight the result is exactly chronological, by time and then id |
| `Ranking.EarlierComesFirst` | cctv_memory/application/search.py:418-429 | of two records the earlier comes first, at equal times the smaller id; none is missing |
| `Ranking.ZeroWeightIsIdOrder` | cctv_memory/application/search.py:418-429 | with a zero static weight the result is in id order |
| `Ranking.NowhereWorseComesFirst` | cctv_memory/domain/ranking.py:83-136 | a candidate that is nowhere worse is returned too and placed first, unless the fused scores tie and its id is larger |
| `Ranking.NeverBelowExactlyWhen` | cctv_memory/domain/ranking.py:83-136 | no non-negative weights score a record below another if and only if it is at least as relevant in every channel, with ties broken for it, and boosted as much |
| `Ranking.FirstExactlyWhen` | cctv_memory/domain/ranking.py:83-136 | all non-negative weights place a record before another if and only if it is nowhere worse and has the smaller id |
| `Ranking.TieInOneChannelCanReverse` | cctv_memory/domain/ranking.py:35-41 | whenever a record ties with a smaller id in some channel, some non-negative weights score it lower, however much more relevant it is elsewhere |
| `SearchRevisions.CrossEncoderPermutesHead` | cctv_memory/application/search.py:501-542 | the head is permuted and sorted by the reranker, the tail stays, nothing is lost, for every top-n including negative ones |
| `SearchRevisions.RankingStays` | cctv_memory/application/search.py:382-470 | a ranking stays within its records and repeats none |
| `SearchRevisions.ApplyRefineOp` | cctv_memory/application/search.py:293-337 | each operation ranks the records it keeps, with its own mode and query, and reranks only when asked to |
| `SearchRevisions.RefinementNarrows` | cctv_memory/application/search.py:293-337 | a refinement's ids are among those the operation kept |
| `SearchRevisions.NarrowedMeaning` | cctv_memory/application/search.py:300-323 | the filters: all wanted tags, one of the wanted scales if any are named, otherwise nothing |
| `SearchRevisions.AnswerWithoutQuery` | cctv_memory/application/search.py:293-337 | without query text a refinement answers with exactly the reloaded records that meet its filter |
| `SearchRevisions.AnswerWithQuery` | cctv_memory/application/search.py:293-337 | with it, with those that the side of the index the operation searches knows, or all when it knows none |
| `SearchRevisions.ResultCount` | cctv_memory/application/search.py:236-244 | how many results a request gets, for every top_k |
| `SearchRevisions.ReloadedMeaning` | cctv_memory/application/search.py:226-234 | the reloaded records are exactly the visible ones among the base candidates |
| `SearchRevisions.SearchService.StartSearch` | cctv_memory/application/search.py:149-211 | a new context, live until now plus its time to live, with one revision: the first top_k of the ranking of the visible records; refusals change nothing |
| `SearchRevisions.SweepIsInvisible` | cctv_memory/application/maintenance.py:206-214 | sweeping expired contexts away is invisible: every later call is answered as without the sweep |
| `SearchRevisions.SearchService.RefineSearch` | cctv_memory/application/search.py:215-272 | the outcome as a function of the stored state; on success one more revision within its parent's and the now visible records, the refined order cut at top_k, earlier revisions and all statuses untouched; on refusal the whole store as it was, since the session rolls back |
| `SearchRevisions.SearchService.BatchRefine` | cctv_memory/application/search.py:274-291 | all or nothing: every refinement stored in input order, or the store as it was and the first refusal; which one, and why, is a function of the stored state |
| `SearchRevisions.BatchStep` | cctv_memory/application/search.py:215-291 | the answer to each request of a batch follows from the state before the batch: earlier refinements count against the limit and can serve as bases |
| `SearchRevisions.SearchService.CloseContext` | cctv_memory/application/search.py:357-361 | exactly the owner closes a context, and nothing else changes |
| `SearchRevisions.SearchService.SweepContexts` | cctv_memory/application/maintenance.py:206-214 | exactly the live contexts past their time to live become expired, and they are counted |
| `SearchRevisions.AddRevision` | cctv_memory/application/search.py:578-611 | a persisted revision keeps: ranks 1..n, at most max_top_k, authorised, within its parent, at most max(1, max_revisions) per context |
| `SearchRevisions.CountForMeaning` | cctv_memory/application/search.py:659-664 | the count is the number of revisions of the context |
| `SearchRevisions.RefinedFits` | cctv_memory/application/search.py:236-244 | even a negative top_k stays within max_top_k |
| `SearchRevisions.NeverWidens` | cctv_memory/application/search.py:226-232 | whatever a revision holds, every ancestor holds, and it was authorised when each of them was made |
| `Reindex.RebuiltIsUnique` | cctv_memory/application/maintenance.py:88-156 | the rebuilt index is determined, so no batch size can change it |
| `Reindex.RebuiltMeaning` | cctv_memory/application/maintenance.py:158-204 | after a complete run both channels of every record have a vector of the present model: the stored one if it was current and the run unforced, else the embedding of the channel's own text |
| `Reindex.OthersUntouched` | cctv_memory/application/maintenance.py:158-204 | vectors of other records do not change |
| `Reindex.RebuiltInSteps` | cctv_memory/application/maintenance.py:118-130 | two consecutive pieces of work are the work on their concatenation |
| `Reindex.RepeatedAfterFailure` | cctv_memory/application/maintenance.py:88-156 | repeating a run that stopped half-way ends where an uninterrupted run ends |
| `Reindex.FailedRunsDoNotMatter` | cctv_memory/application/maintenance.py:88-156 | however many runs failed wherever they did, the completing run leaves the index of a single run |
| `Reindex.SecondRunWritesNothing` | cctv_memory/application/maintenance.py:98-104 | an unforced run right after a complete one finds nothing pending |
| `Reindex.CollectPending` | cctv_memory/application/maintenance.py:165-185 | exactly the channels without a current vector are pending; pending and skipped make up twice the batch |
| `Reindex.Maintenance.UpsertVectors` | cctv_memory/infrastructure/db/repositories/index_store.py:31-56 | exactly the given keys are replaced or inserted |
| `Reindex.Maintenance.ReindexBatch` | cctv_memory/application/maintenance.py:158-204 | the batch is rebuilt with its counts, or an embedding failure leaves the index alone |
| `Reindex.RunBatches` | cctv_memory/application/maintenance.py:118-137 | for every batch size from one up the whole index is rebuilt, or a prefix of the records if an embedding failed |
| `Reindex.ReindexAll` | cctv_memory/application/maintenance.py:88-156 | final index and all counts independent of the batch size; written + skipped is twice the scanned records; batch size zero is an error and a negative one scans nothing |

## Left out

- HTTP routes, the command line, settings loading, reports and exports: input/output and presentation.
- Repository SQL, object mapping, full-text search and queue claiming: the ports' documented contracts are assumed.
- Lease exclusion between workers: it rests on queue statements that are not modelled; runs of one job are sequential here.
- The legacy path that does not use the cross-scale scheduler, and shared-session unit runs.
- Video decoding, motion detection, VLM, embedding, reranking and detection providers: arbitrary results or failures.
- Timeline recording is taken to be fail-open and frame cleanup not to raise.
- Floating-point rounding: scores, ratios and delays are exact reals, and rounded display values are not modelled.
- Identifiers: generated ids are fresh by construction (positions), and an idempotency key is the tuple it is built from, not the joined string.
- A job has at most one task per scale.
- JobRecovery.InterruptedRunVerdict: the agreement with Phase 6 is stated for first runs with the job row in place; RecoveryEqualsPhase6 has the general hypothesis, that the tallies are true and every stored unit was planned.
- Facets, overlap queries, result previews, score details and audit events of a search: they do not affect the stored candidates.
- HighFreqUnits.PlanHighFreqWindows: the minimum window length is fixed at its default of one millisecond, the only value any caller uses.
- Ranking.RrfFuse: the smoothing constant k is not negative, so that no reciprocal is undefined.
- Ranking.Rank: the text relevance (index or keyword fallback), the cosines and the tag and scale boosts are inputs; how they are fused and ordered is modelled.
- Reindex.ReindexAll: record ids are unique, as the primary key makes them, and the embedder returns one vector per text that depends on the text alone.
- HighFreqUnits.MotionScan.Process: the rounding of the stored scores and the trigger's reason text are not modelled; a refused trigger's session is rolled back by its caller.
- SearchRevisions.SearchService.RefineSearch: the text relevance and vector similarity of records are inputs; scope computation is the set of visible records.
