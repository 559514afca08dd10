# Verification of the indicator engine's live pipeline and replay

A Dafny model of the hardest parts of `systems/indicator_engine`, with proofs.

**The live minute pipeline** (`LivePipeline.dfy`, `Pipeline*.dfy`, `OrderedCommit.dfy`). One main loop takes minutes
from a scheduler and gives them to a prepare worker; three compute workers finish out of order; a commit worker persists
minutes in order. Rebuilds take a commit gate, bump an epoch so that jobs in flight become stale, rebuild, and publish a
new frontier. Two atomic counters bound the whole. The pipeline is a step system: every constructor of
`LivePipeline.Step` is one atomic action of one task, and a run is any sequence of enabled steps. A theorem about all
runs is therefore a theorem about all interleavings. Loads of shared variables are steps of their own, but for the start
of a rebuild and of a materialization batch, which find counters at zero within one step: the main loop is the only
producer, so no other task raises a counter between such reads (`PipelineAccounting.IdleReadsAsOne`). The commit worker
is also written as an object over a mutable map, proved equal to a function of what it read, and a whole call of the step
system's commit worker, whatever other tasks do in between, is proved to be that function.

Five conditions are not enforced by the code. They appear as named hypotheses, each only where it is needed, and each
with what the code does without it:

- `PipelineFrontiers.FrontierReaches`: the commit frontier starts set, and not behind the minute before the scheduler's
  first. The interval, coverage and exit theorems are stated for every set frontier. Every run's exit is clean if and
  only if this holds (`PipelineFrontiers.ExitsCleanExactly`); the startup's frontier meets it exactly when muted catch-up
  is configured and there was a replay, or the last persisted minute reaches the scheduler
  (`PipelineFrontiers.StartupFrontierExactly`). With a frontier behind, nothing is persisted until a rebuild
  (`PipelineFrontiers.BehindFrontierStalls`) and the exit leaves all there is (`PipelineFrontiers.BehindFrontierLeavesAll`);
  with one ahead, the minutes up to it are computed and dropped, so the whole interval is in flight in every run only for
  `Some(next - 1)` (`PipelineFrontiers.WholeIntervalExactly`). Unset, the first resolution is harmless if and only if the
  least pending minute is the first one given to the pipeline, or the first after a rebuild
  (`PipelineUnset.UnsetFrontierExactly`); otherwise the earlier minute is skipped for good
  (`PipelineLimits.UnsetFrontierSkipsEarlierMinutes`, reached by `PipelineLimits.UnsetFrontierReachable`);
- `PipelineOrder.HarmlessRecovery`: a recovery from a leading gap, which moves the scheduler but stores no frontier,
  happens while muted, or with the frontier already there, or with the frontier unset and nothing given to the pipeline.
  That is exactly when the invariant survives it (`PipelineFrontiers.RecoveryExactly`,
  `PipelineFrontiers.UnsetRecoveryExactly`); otherwise live persistence ends where the scheduler was
  (`PipelineFrontiers.RecoveryStalls`), and it can be the first step of all (`PipelineFrontiers.RecoveryAtStartStalls`);
- `PipelineOrder.ReachingRebuild`: no unpersisted minute given to the pipeline lies past a rebuild, and a cutover goes up
  to the scheduler. A shorter rebuild stalls live persistence (`PipelineLimits.ShortRebuildStalls`, exactly when by
  `PipelineLimits.RebuildResumesExactly`, reached by `PipelineLimits.ShortRebuildReachable`);
- `PipelineCoverage.EarlyRebuild`: a rebuild starts no later than the oldest minute that only the jobs it makes stale
  cover (coverage only). A later one loses that minute unless a rebuild from further back follows
  (`PipelineLimits.LateRebuildLosesMinute`, exactly when by `PipelineCoverage.BumpCoversExactly`);
- `PipelineOrder.CoveringRead`: the two counter loads behave as one read. If a prepared batch is handed over between
  them, the pipeline overfills (`PipelineLimits.SplitLoadsOverfill`, exactly when by `PipelineOrder.PlanFitsExactly`).

What holds without any of them is in `PipelineFencing.dfy`: counters, no minute in flight twice, no stale prepare task,
no persist across an epoch bump, a frontier that only moves up; and in `PipelineLedger.dfy`, which keeps its books beside
the steps: every minute the scheduler moves past is taken on or passed over by one step of the run, and publishing is
muted exactly when a muting step has no finished cutover after it. `PipelineProgress.dfy` and `PipelineHistory.dfy` say
what can always still happen: a finished cutover resumes publishing at the scheduler's next minute, the workers can always
empty the pipeline, and whatever a disciplined run has done, once the main loop rests every minute due can be persisted
(`PipelineHistory.DueCanBePersisted`). `PipelineRewrites.dfy` follows materialization batches
across rebuilds: if every rebuild finds no batch running, a rebuilt minute is only retired on outputs from after the
rebuild; a cutover entered through a skipped gap leaves the batch running, and a run is given in which the batch then
retires a minute the cutover rebuilt.

**Replay and history** (`PagedReplay.dfy`, `KlineCache.dfy`, `TimeRanges.dfy`, `SnapshotHistory.dfy`, with
`Ordering.dfy`). Paged, window-tiled replay visits every row once, in an order spelled out down to the characters; the
kline cache refines the direct query over any sequence of requests of any keys while its conditions hold, and for each
condition the answer is decided exactly where it fails: a cutoff past the slice, below it
or inside a bar, rows that still carry the closed flag of an earlier fetch, a failed fetch, an entry cleared or replaced
during a fetch; merged time ranges are canonical; the
null-run scan and the coverage check are characterised exactly.

**Canonical minutes** (`VpinBuckets.dfy`, `VpinBatching.dfy`, `TradeAggregate.dfy`, `MinuteAccumulator.dfy`). The VPIN
bucket machine with its real-valued termination measure, conservation, and the exact condition at any tolerance under
which feeding a flow in pieces is feeding it at once; trade chunks folded into minutes, with the exact condition under
which the order of arrival does not matter; flushing as the replay goes against one flush at the end, with the exact
effect of a late message.

**Indicator kernels** (`TimeWeighted.dfy`, `ImbalanceStacks.dfy`). The time-weighted average against the integral of the
step function, and stacked-imbalance detection against the cut of the tick list.

Minutes and timestamps are integers, prices and quantities exact reals.

## Model

| member | source | states |
|---|---|---|
| LivePipeline.FirstPending | systems/indicator_engine/src/app/runtime.rs:6300-6304 | the key the resolution looks at is the least pending minute, none exactly when nothing is pending |
| PipelineAccounting.StepKeepsBase | systems/indicator_engine/src/app/runtime.rs:5983-6345 | the base invariant (exact counters, distinct jobs, current prepare tasks, gate, fence, commit map against frontier, ordered log) is kept by every step of every task |
| PipelineAccounting.NothingToPrepare | systems/indicator_engine/src/app/runtime.rs:766-772 | a zero prepare counter means no queued task and an idle or failed prepare worker |
| PipelineAccounting.ReceivedIsNew | systems/indicator_engine/src/app/runtime.rs:6219-6235 | inserting a computed job never overwrites one already in the commit map |
| PipelineAccounting.IdleReadsAsOne | systems/indicator_engine/src/app/runtime.rs:756-772 | with the prepare counter at zero no task but the main loop raises either counter, so two reads that find both at zero are as good as one |
| PipelineFencing.CounterAccounting | systems/indicator_engine/src/app/runtime.rs:5995-6032 | in every run both atomic counters equal what the stages hold at each step, and neither underflows |
| PipelineFencing.MinuteInFlightOnce | systems/indicator_engine/src/app/runtime.rs:6139-6345 | in every run no minute is in flight twice, neither as two copies nor under two epochs |
| PipelineFencing.PrepareTaskNeverStale | systems/indicator_engine/src/app/runtime.rs:6358-6373 | the stale-task branch of the prepare worker is dead, and rebuilds never overlap prepare work |
| PipelineFencing.NoPersistAcrossBump | systems/indicator_engine/src/app/runtime.rs:6317-6343 | after an epoch bump every persist carries a newer epoch and is a minute strictly after the rebuilt range |
| PipelineFencing.FrontierMonotone | systems/indicator_engine/src/app/runtime.rs:6278-6345 | between any two moments of a run the commit frontier does not decrease and the log grows; persisted live minutes are strictly increasing |
| PipelineFencing.FinalizedExactly | systems/indicator_engine/src/app/runtime.rs:4900-4907 | over every run the store has a finalized minute if and only if some step has prepared, muted or rebuilt one, and a leading gap is only recovered before any of them |
| PipelineLedger.EveryMinuteAccounted | systems/indicator_engine/src/app/runtime.rs:6857-6947 | over every run, from any start: the minutes between the first scheduled one and the scheduler are exactly those some step took on (emitted, advanced muted, rebuilt ahead) and those some step passed over (a skipped gap, a recovery, a rebuild that starts past the scheduler), and no minute is both |
| PipelineLedger.RebuildPassesExactly | systems/indicator_engine/src/app/runtime.rs:5557-5579 | a rebuild passes minutes over exactly when it both starts and ends past the scheduler |
| PipelineLedger.OutputsExactly | systems/indicator_engine/src/app/runtime.rs:6317-6343 | over every run a minute's outputs are there if and only if some step wrote them, a commit under the gate or a batch, and no batch has deleted them since |
| PipelineLedger.PendingMovesExactly | systems/indicator_engine/src/runtime/state_store.rs:1488-1557 | the pending range grows over minutes advanced muted or rebuilt and all between them and what was pending, shrinks when a finished batch is retired, and is left alone by every other step |
| PipelineLedger.MutedExactly | systems/indicator_engine/src/app/runtime.rs:1971-2005 | over every run publishing is muted if and only if some step muted it and no catch-up cutover has ended since |
| PipelineLedger.RebuildsAreMeant | systems/indicator_engine/src/app/runtime.rs:5211-5256 | over every run a rebuild under way covers at least one minute, and a catch-up cutover is only under way while publishing is muted |
| PipelineOrder.PlanFitsExactly | systems/indicator_engine/src/app/runtime.rs:5983-5993 | a plan made from the two counter loads fits the pipeline if and only if the first load still covers the jobs past the prepare worker |
| PipelineOrder.PlanOffersRoom | systems/indicator_engine/src/app/runtime.rs:5983-5993 | two loads with nothing between them offer exactly the capacity less what the stages hold, and plan nothing exactly when that is none |
| PipelineOrder.HandoffNeverFull | systems/indicator_engine/src/app/runtime.rs:6470-6477 | with covering reads the "unexpectedly full" failure is unreachable, whatever the frontier and the rebuilds |
| PipelineOrder.QueuesNeverFull | systems/indicator_engine/src/app/runtime.rs:6014-6032 | with covering reads no planned enqueue is ever refused for a full task queue, and no compute worker ever waits on a full channel |
| PipelineOrder.RebuildReachesExactly | systems/indicator_engine/src/app/runtime.rs:5248-5270 | a rebuild through the latest contiguous complete minute reaches the scheduler exactly when no minute from its start to the scheduler is incomplete |
| PipelineOrder.ResolveKeepsExpected | systems/indicator_engine/src/app/runtime.rs:667-691 | resolving the frontier never passes the minute expected next, so no current job that the starting frontier did not exclude is dropped below it |
| PipelineOrder.StepKeepsInvariant | systems/indicator_engine/src/app/runtime.rs:5557-5579 | every step that obeys the three disciplines keeps the interval invariant |
| PipelineOrder.InitialOrderedExactly | systems/indicator_engine/src/app/runtime.rs:6203-6211 | at the start the interval holds from a minute on if and only if that minute is past both the frontier and the scheduler's first, or the frontier is the minute before the scheduler's first |
| PipelineOrder.InFlightIsExactlyTheInterval | systems/indicator_engine/src/app/runtime.rs:6203-6345 | for every set frontier, outside a rebuild: the current-epoch minutes in flight, but for minutes a frontier at or past the scheduler excluded from the start, are exactly those from max(next commit, override + 1) and the scheduler's first minute to the end, which is the scheduler's next minute while publishing |
| PipelineOrder.FinalCallEmptiesPending | systems/indicator_engine/src/app/runtime.rs:6256-6273 | once the stages have drained, a commit call returns with an empty map if the expected minute is not behind, and with every minute given to the pipeline otherwise |
| PipelineOrder.NothingUncommittedAtExit | systems/indicator_engine/src/app/runtime.rs:6268-6273 | for every set frontier, a drained disciplined run's last commit call returns with nothing uncommitted if the frontier is not behind the scheduler's first minute, which it never is unless it started there, and otherwise with exactly all minutes given to the pipeline |
| PipelineFrontiers.StartupFrontierExactly | systems/indicator_engine/src/app/runtime.rs:649-665 | the startup's frontier reaches the scheduler if and only if muted catch-up is configured and there was a replay, or the last persisted minute reaches it |
| PipelineFrontiers.WholeIntervalExactly | systems/indicator_engine/src/app/runtime.rs:6203-6345 | for a set frontier, every disciplined run has the whole interval in flight if and only if the frontier starts as the minute before the scheduler's first |
| PipelineFrontiers.ExitsCleanExactly | systems/indicator_engine/src/app/runtime.rs:6256-6273 | for a set frontier, every disciplined run's last call returns with nothing if and only if the frontier reaches the scheduler |
| PipelineFrontiers.PersistedPastFrontier | systems/indicator_engine/src/app/runtime.rs:6317-6343 | every live minute persisted is past the starting frontier and not before the scheduler's first |
| PipelineFrontiers.BehindFrontierStalls | systems/indicator_engine/src/app/runtime.rs:6317-6321 | with a frontier behind the scheduler, no run without a rebuild persists anything |
| PipelineFrontiers.BehindFrontierLeavesAll | systems/indicator_engine/src/app/runtime.rs:6268-6273 | and its last call leaves uncommitted every minute ever given to the pipeline |
| PipelineFrontiers.RecoveryExactly | systems/indicator_engine/src/app/runtime.rs:4900-4948 | with the frontier set, a recovery from a leading gap keeps the interval invariant if and only if the engine is muted or the frontier is already where the scheduler resumes |
| PipelineFrontiers.RecoveryStalls | systems/indicator_engine/src/app/runtime.rs:4937-4937 | otherwise no continuation without a rebuild persists past what the scheduler had reached |
| PipelineFrontiers.RecoveryAtStartStalls | systems/indicator_engine/src/app/runtime.rs:1873-1895 | such a recovery can be the first step of all, and then nothing is persisted without a rebuild |
| PipelineFrontiers.UnsetRecoveryExactly | systems/indicator_engine/src/app/runtime.rs:4900-4948 | with the frontier unset, a recovery is as harmless as a start at the resumed minute if and only if nothing is in flight |
| PipelineCoverage.NoMinuteLost | systems/indicator_engine/src/app/runtime.rs:6857-6947 | for every set frontier: every minute between the first scheduled one and the scheduler that no step of the run passed over, and that the starting frontier does not exclude, is persisted, pending historical materialization, in flight in the current epoch, or inside the rebuild under way; a frontier below the scheduler excludes none |
| PipelineCoverage.BumpCoversExactly | systems/indicator_engine/src/app/runtime.rs:5270-5279 | an epoch bump keeps everything owed covered if and only if the rebuild takes in every owed minute that only jobs in flight cover |
| PipelineCoverage.ZeroCountersNothingInFlight | systems/indicator_engine/src/app/runtime.rs:6809-6815 | two zero counters mean an empty pipeline, which is what a materialization batch waits for |
| PipelineCoverage.BatchRetiresAfterWriting | systems/indicator_engine/src/app/runtime.rs:6719-6766 | a batch leaves the pending range only after all of it is written, and retires no other minute the scheduler has moved past, not passed over and past the starting frontier, that is not written, however many batches were aborted |
| LivePipeline.PendExactly | systems/indicator_engine/src/runtime/state_store.rs:1488-1507 | marking a range pending makes exactly the minutes pending that lie between two that were or are marked: the store keeps one range |
| PipelineHistory.PendingStaysRange | systems/indicator_engine/src/runtime/state_store.rs:1488-1552 | what is pending is one range of minutes throughout every run that starts with one |
| PipelineHistory.BatchTakesFirstHour | systems/indicator_engine/src/runtime/state_store.rs:1522-1529 | a batch takes the first sixty minutes of the pending range, or all of it when there are fewer |
| PipelineHistory.ClearedUntilWritten | systems/indicator_engine/src/app/runtime.rs:6672-6717 | a minute that a running batch has cleared and not yet written has no outputs, no job in flight under any epoch, and is still pending |
| PipelineProgress.CutoverResumes | systems/indicator_engine/src/app/runtime.rs:1971-2005 | right after a cutover of a disciplined run ends the engine publishes, the pipeline ends at the scheduler's next minute, live persistence waits for that minute or a later starting frontier, and nothing current is in flight |
| PipelineProgress.NextMinutesCanFollow | systems/indicator_engine/src/app/runtime.rs:6857-6947 | publishing, idle and empty, any number of next minutes up to the capacity can be given to the pipeline, and then exactly those are in flight besides what was |
| PipelineProgress.MutedCanAdvance | systems/indicator_engine/src/app/runtime.rs:6903-6922 | muted, idle and empty, the scheduler can be advanced over any number of minutes up to the capacity, which become pending while nothing is given to the pipeline |
| PipelineProgress.CanDeliverAll | systems/indicator_engine/src/app/runtime.rs:6203-6345 | from every disciplined state with the main loop idle and the frontier not behind, the workers alone can empty every stage and the commit map with every current minute that was in flight persisted |
| PipelineProgress.PublishingNeverSticks | systems/indicator_engine/src/app/runtime.rs:6139-6345 | the same from the start over all disciplined runs, after which the next minutes can follow |
| PipelineProgress.MutedCanResume | systems/indicator_engine/src/app/runtime.rs:1971-2005 | from every such muted state some run drains the pipeline and ends any cutover that reaches the scheduler, after which the engine publishes from the minute after it |
| PipelineHistory.CanWriteHistory | systems/indicator_engine/src/app/runtime.rs:6719-6766 | with the engine publishing and the pipeline empty, batches can write and retire exactly all that is pending |
| PipelineHistory.DueCanBePersisted | systems/indicator_engine/src/app/runtime.rs:1842-2005 | whatever a run that obeys the disciplines has done, muted or not and with a batch running or not: once the main loop is idle some continuation leaves nothing pending and persists every minute between the first scheduled one and the scheduler that no step passed over and the starting frontier does not exclude |
| PipelineLimits.SplitLoadsOverfill | systems/indicator_engine/src/app/runtime.rs:5989-5990 | a concrete run from the initial state in which the separate loads lead to the hand-off failure |
| PipelineLimits.UnsetFrontierSkipsEarlierMinutes | systems/indicator_engine/src/app/runtime.rs:672-672 | with no frontier, the first minute resolved becomes it, and no continuation persists an earlier one |
| PipelineLimits.UnsetFrontierReachable | systems/indicator_engine/src/app/runtime.rs:6214-6214 | such a state is reached while the earlier minute is still being computed |
| PipelineUnset.FirstResolutionExactly | systems/indicator_engine/src/app/runtime.rs:667-691 | with the frontier unset, the first resolution keeps the interval invariant if and only if the least pending minute is not past the first one due; otherwise that minute is in flight below the frontier |
| PipelineUnset.UnsetFrontierExactly | systems/indicator_engine/src/app/runtime.rs:6203-6345 | over every disciplined run from an unset frontier, recoveries from a leading gap included, the same holds, and after a harmless resolution every disciplined continuation keeps the invariant |
| PipelineLimits.RebuildResumesExactly | systems/indicator_engine/src/app/runtime.rs:5557-5579 | live persistence is up with the scheduler after a rebuild exactly when no unpersisted minute lies past the rebuilt range, and not ahead of it unless it was before |
| PipelineLimits.ShortRebuildStalls | systems/indicator_engine/src/app/runtime.rs:5557-5568 | after a rebuild that stops short, no continuation without another rebuild persists anything |
| PipelineLimits.ShortRebuildReachable | systems/indicator_engine/src/app/runtime.rs:5386-5405 | a run from the start in which a repair rebuild stops short of an emitted minute |
| PipelineLimits.LateRebuildLosesMinute | systems/indicator_engine/src/app/runtime.rs:5404-5405 | a run from the start in which a rebuild begins after a minute in flight; that minute is covered by nothing, and no continuation whose rebuilds all start past it persists it |
| PipelineRewrites.RewrittenExactly | systems/indicator_engine/src/app/runtime.rs:6672-6717 | what a batch writes for a minute is at least as new as the last rebuild of the minute if and only if no rebuild has marked it since the batch was spawned |
| PipelineRewrites.RetiredAfterRebuild | systems/indicator_engine/src/app/runtime.rs:1842-1847 | if every rebuild finds no batch running, a marked minute is only retired on outputs from after its last rebuild |
| PipelineRewrites.CutoverOverBatch | systems/indicator_engine/src/app/runtime.rs:1606-1611 | a run from the start in which muted catch-up is entered through a skipped gap, a cutover rebuilds under a running batch, and the batch is about to retire a rebuilt minute on older outputs |
| OrderedCommit.CommitWorker.RemoveAll | systems/indicator_engine/src/app/runtime.rs:820-825 | removes exactly the listed minutes and lowers the counter once for each |
| OrderedCommit.CommitWorker.DropStaleJobs | systems/indicator_engine/src/app/runtime.rs:804-827 | keeps exactly the pending jobs of the observed epoch |
| OrderedCommit.CommitWorker.DropBelowFrontier | systems/indicator_engine/src/app/runtime.rs:6306-6316 | drops exactly the pending minutes below the frontier |
| OrderedCommit.CommitWorker.CommitReadyJobs | systems/indicator_engine/src/app/runtime.rs:6317-6343 | the loop terminates, equals the fold of single commits over the epochs seen under the gate, and stops only when nothing is ready |
| OrderedCommit.CommitWorker.CommitLiveJobsInOrder | systems/indicator_engine/src/app/runtime.rs:6278-6345 | the whole call equals drop, resolve and drain of what it read, and lowers the counter once for every minute that leaves the map |
| OrderedCommit.ResolvedFrontierExactly | systems/indicator_engine/src/app/runtime.rs:667-691 | a set frontier moves to the override only when no pending minute lies below the override, and then to the larger of the two |
| OrderedCommit.ResolveDropsExactly | systems/indicator_engine/src/app/runtime.rs:667-705 | resolution drops a pending minute exactly when it is below the worker's own frontier or is the rebuilt minute itself with nothing pending before it |
| OrderedCommit.CommitCallPromise | systems/indicator_engine/src/app/runtime.rs:6278-6345 | persisted minutes are consecutive and current at the gate, the frontier does not move back, and all that remains pending is strictly above it |
| OrderedCommit.StepsRefineCommitCall | systems/indicator_engine/src/app/runtime.rs:6203-6345 | under any interleaving the commit steps are the phases of that call, and no other task's step changes the commit worker's view |
| OrderedCommit.CallIsSteps | systems/indicator_engine/src/app/runtime.rs:6278-6345 | from entry to return under any interleaving, the worker's view becomes the commit call of the epoch read at the drop, the override read at the resolution and the epochs read at the gate |
| PagedReplay.BatchIsNextRows | systems/indicator_engine/src/app/runtime.rs:8538-8771 | limiting every source and then the union gives exactly the next rows of the window, at least one row a page however small the limit |
| PagedReplay.NextPage | systems/indicator_engine/src/app/runtime.rs:9682-9710 | a page followed by what lies behind its last key is what lay behind the cursor, and an empty page means nothing lay behind it |
| PagedReplay.ReadWindow | systems/indicator_engine/src/app/runtime.rs:4787-4843 | paging one window terminates and yields all its rows in key order |
| PagedReplay.ReplayCanonicalRange | systems/indicator_engine/src/app/runtime.rs:4783-4848 | the window loop yields the windows of the range one after the other, for any batch limit |
| PagedReplay.ReplayVisitsExactlyOnce | systems/indicator_engine/src/app/runtime.rs:4783-4848 | replay visits every row of the range exactly once and nothing else |
| PagedReplay.WindowRowsAscend | systems/indicator_engine/src/app/runtime.rs:9598-9656 | within a window rows come in strictly ascending key order |
| PagedReplay.KeyLessExactly | systems/indicator_engine/src/app/runtime.rs:9598-9656 | a key precedes another by event time first, then at the first difference of message type, market, symbol, routing key and row id, in turn, each text by its first differing character |
| PagedReplay.ReplayOrder | systems/indicator_engine/src/app/runtime.rs:4783-4848 | the whole replay goes through windows of 360 minutes from the start of the range, and inside each of them in that order |
| KlineCache.MergeRows | systems/indicator_engine/src/app/runtime.rs:3585-3598 | the append loop and stable sort equal the merge that the lemmas reason about, for any rows |
| KlineCache.MergeSlices | systems/indicator_engine/src/app/runtime.rs:3585-3598 | merging two touching runs of the table gives the run they span |
| KlineCache.SelectFromSlice | systems/indicator_engine/src/app/runtime.rs:3565-3583 | the reversed filtered scan of a slice is its last rows below the cutoff |
| KlineCache.RuntimeHistorySupplementCache.EnsureCachedRows | systems/indicator_engine/src/app/runtime.rs:3600-3680 | a hit answers from the entry and changes nothing; a miss fetches what is missing, merges it into whatever the entry has become by the time the write lock is taken, answers from the result, and leaves every other entry as it stood at the lock |
| KlineCache.HitRefinesQuery | systems/indicator_engine/src/app/runtime.rs:367-384 | an answer from the cache alone is the direct query's |
| KlineCache.MissRefinesQuery | systems/indicator_engine/src/app/runtime.rs:3628-3680 | an answer after a fetch is the direct query's, and the entry is again a slice that covers the cutoff and is marked exhausted only from the table's start |
| KlineCache.RequestKeepsSlices | systems/indicator_engine/src/app/runtime.rs:3600-3680 | one undisturbed request is answered as the direct query, and every market's and interval's entry, its own included, stays an honest slice of its own table |
| KlineCache.RequestsRefineQueries | systems/indicator_engine/src/app/runtime.rs:3600-3680 | any sequence of undisturbed requests of any markets and intervals is answered, each request, as the direct query of its own table |
| KlineCache.ExhaustedAnswersExactly | systems/indicator_engine/src/app/runtime.rs:367-384 | an exhausted entry answers right if and only if the slice is long enough or complete |
| KlineCache.FailedFetchExhausts | systems/indicator_engine/src/app/runtime.rs:3641-3654 | a failed fetch marks the slice exhausted wherever it starts |
| KlineCache.ClearedDuringFetchExactly | systems/indicator_engine/src/app/runtime.rs:3657-3665 | if the cache is cleared during a fetch, the answer is right if and only if nothing had been cached below the cutoff |
| KlineCache.ChangedDuringFetchExactly | systems/indicator_engine/src/app/runtime.rs:3657-3679 | whatever honest slice the entry has become during a fetch, the answer is right if and only if it reaches down to where the cached one started; otherwise the store leaves a gap |
| KlineCache.HitPastSliceExactly | systems/indicator_engine/src/app/runtime.rs:3607-3626 | a cutoff past the slice is answered from the cache, right if and only if the slice still reaches it |
| KlineCache.MissPastSliceExactly | systems/indicator_engine/src/app/runtime.rs:3628-3679 | a fetch extends downwards only, so it does not help such a cutoff |
| KlineCache.CutoffBelowSlice | systems/indicator_engine/src/app/runtime.rs:3657-3679 | a cutoff below the slice is answered right but leaves an entry that is no honest slice of the table |
| KlineCache.QueryFlagsExactly | systems/indicator_engine/src/app/runtime.rs:4466-4500 | the query gives the table's own rows if and only if its newest bar had ended by the cutoff |
| KlineCache.HitFlagsExactly | systems/indicator_engine/src/app/runtime.rs:3600-3626 | for any entry whose rows carry closed flags of earlier fetches, and any cutoff within it, an answer from the cache is right if and only if every served row's flag is the one the query would give |
| KlineCache.MissFlagsExactly | systems/indicator_engine/src/app/runtime.rs:3628-3680 | the same after a fetch, where it depends on the rows cached before; the entry remains such a slice |
| KlineCache.LaterRequestExactly | systems/indicator_engine/src/app/runtime.rs:4495-4495 | an entry fetched at one cutoff answers a later one right if and only if the newest fetched bar had ended by the earlier cutoff |
| KlineCache.OpenFlagIsServedLater | systems/indicator_engine/src/app/runtime.rs:4495-4495 | a bar fetched before it ended is served as open after it has ended |
| TimeRanges.MergeTimeRanges | systems/indicator_engine/src/app/runtime.rs:4247-4267 | output sorted, without empty ranges, separated by real gaps, covering exactly the input's points |
| TimeRanges.NormalIsCanonical | systems/indicator_engine/src/app/runtime.rs:4247-4267 | two such outputs covering the same points are identical |
| TimeRanges.MergeDependsOnPointsOnly | systems/indicator_engine/src/app/runtime.rs:4247-4267 | inputs covering the same points give the identical output |
| SnapshotHistory.FindLongNullPriceRun | systems/indicator_engine/src/app/runtime.rs:2852-2887 | exactly the first maximal null run of at least the required length, none if and only if there is none |
| SnapshotHistory.CoverageExactly | systems/indicator_engine/src/app/runtime.rs:2828-2850 | the neighbour check accepts exactly the histories that count up by one minute to the last finalized one |
| SnapshotHistory.OneRowPerMinute | systems/indicator_engine/src/app/runtime.rs:3034-3051 | an accepted history holds exactly one row for every minute from the required start to the last finalized one |
| VpinBuckets.RoundsDrop | systems/indicator_engine/src/bin/validate_storage_refactor.rs:650-676 | every turn of the fill loop lowers a real-valued measure by one, and the capacity break is never taken |
| VpinBuckets.ReplayVpinState.IngestFlow | systems/indicator_engine/src/bin/validate_storage_refactor.rs:645-677 | the fill loop terminates from any state and equals the recursive feed of the clamped flow |
| VpinBuckets.ReplayVpinState.TrimWindow | systems/indicator_engine/src/bin/validate_storage_refactor.rs:686-694 | the drop loop leaves as many of the newest imbalances as fit the window, each in its place from the end, and takes the dropped ones out of the running sum |
| VpinBuckets.ReplayVpinState.CloseBucket | systems/indicator_engine/src/bin/validate_storage_refactor.rs:679-704 | closing equals its specification on every state, and a closed bucket's window holds the newest imbalances, each in its place from the end |
| VpinBuckets.ReadingIsMean | systems/indicator_engine/src/bin/validate_storage_refactor.rs:695-700 | the reading lies in [0, 1] without the clamp and is the mean imbalance of a full window |
| VpinBuckets.CloseKeepsSound | systems/indicator_engine/src/bin/validate_storage_refactor.rs:679-704 | closing a full bucket keeps the sum equal to the window and every imbalance within the bucket size |
| VpinBuckets.FeedKeepsSound | systems/indicator_engine/src/bin/validate_storage_refactor.rs:645-704 | fill equals buy plus sell and stays below the bucket, and the window stays sound, over any number of closings |
| VpinBuckets.VolumeConserved | systems/indicator_engine/src/bin/validate_storage_refactor.rs:645-704 | every unit of volume is in a closed bucket, the open one or a leftover within the tolerance; closed buckets are full within the tolerance; the window has as many imbalances as fit, the k-th from the end being that of the k-th bucket from the end |
| VpinBuckets.RollingWindow | systems/indicator_engine/src/bin/validate_storage_refactor.rs:679-704 | after any flow the window is the smaller of its size and all imbalances so far, the k-th from the end that of the k-th last bucket, and the reading is the mean over the last window of buckets as soon as that many have closed, zero before |
| VpinBuckets.ImbalancesAreGaps | systems/indicator_engine/src/bin/validate_storage_refactor.rs:684-685 | a closed bucket's imbalance is the larger of its two sides less the smaller |
| VpinBuckets.SidesWeighAlike | systems/indicator_engine/src/bin/validate_storage_refactor.rs:684-685 | a full bucket and its mirror image close to the same state |
| VpinBuckets.BucketsByVolume | systems/indicator_engine/src/bin/validate_storage_refactor.rs:645-704 | with zero tolerance the number of buckets closed is fixed by the volume |
| VpinBuckets.BatchingMakesNoDifference | systems/indicator_engine/src/bin/validate_storage_refactor.rs:645-704 | with zero tolerance, any number of same-ratio pieces leave exactly the state their total leaves |
| VpinBuckets.BatchingInBucketExactly | systems/indicator_engine/src/bin/validate_storage_refactor.rs:645-677 | at any tolerance, pieces that close no bucket leave the state of their total if and only if the total is within the tolerance or every piece is nothing or above it |
| VpinBuckets.BatchingClearPieces | systems/indicator_engine/src/bin/validate_storage_refactor.rs:645-704 | at any tolerance and across closings, same-ratio pieces taken whole that end at a bucket's end or clear of one leave exactly the state of their total |
| VpinBatching.VolumesExactly | systems/indicator_engine/src/bin/validate_storage_refactor.rs:645-677 | pieces close buckets of the same volumes and leave the same fill as their sum if and only if they drop as much and take nothing after closing a bucket that is not quite full |
| VpinBatching.BatchingExactly | systems/indicator_engine/src/bin/validate_storage_refactor.rs:645-704 | at any tolerance and across any number of closings, same-ratio pieces close the very buckets and leave the very state of their total if and only if that holds of their volumes |
| VpinBuckets.DustIsDropped | systems/indicator_engine/src/bin/validate_storage_refactor.rs:649-649 | with a positive tolerance batching does matter: pieces within it vanish while their total does not |
| TradeAggregate.TradeAgg.Apply | systems/indicator_engine/src/bin/validate_storage_refactor.rs:752-803 | the in-place update equals applying the chunk to the aggregate's value, in every field |
| TradeAggregate.PriceToTick | systems/indicator_engine/src/bin/validate_storage_refactor.rs:1589-1591 | the nearest tick, halves away from zero |
| TradeAggregate.ProfileSumsLevels | systems/indicator_engine/src/bin/validate_storage_refactor.rs:784-788 | a profile holds at each tick the volumes of exactly the levels that round to it |
| TradeAggregate.LevelAddsOnce | systems/indicator_engine/src/bin/validate_storage_refactor.rs:784-788 | one more level adds its buy volume to the buy side and its sell volume to the sell side of its own tick, and touches no other tick |
| TradeAggregate.TotalsAreSums | systems/indicator_engine/src/bin/validate_storage_refactor.rs:752-803 | every additive field, whale fields included, is the sum of the chunks' own field, counts clamped at zero |
| TradeAggregate.TotalsAreExtremes | systems/indicator_engine/src/bin/validate_storage_refactor.rs:776-783 | high, low and largest single notional are the extremes over the chunks, absent exactly when no chunk carries a price |
| TradeAggregate.TotalsProfile | systems/indicator_engine/src/bin/validate_storage_refactor.rs:784-788 | the minute's profile is that of all its chunks' levels together |
| TradeAggregate.TotalsIgnoreOrder | systems/indicator_engine/src/bin/validate_storage_refactor.rs:752-803 | sums, high, low, profile and whale totals are the same for every permutation of the chunks |
| TradeAggregate.EdgesOf | systems/indicator_engine/src/bin/validate_storage_refactor.rs:760-775 | open comes from the first listed of the earliest-starting chunks, close from the last listed of the latest-ending ones |
| TradeAggregate.OrderIrrelevantExactly | systems/indicator_engine/src/bin/validate_storage_refactor.rs:752-803 | the whole aggregate is the same for every order of arrival if and only if chunks tied for first start agree on the first price and chunks tied for last end on the last |
| MinuteAccumulator.CanonicalReplayAccumulator.Ingest | systems/indicator_engine/src/bin/validate_storage_refactor.rs:583-619 | a message changes its own minute and its market's bucket machine only; an unknown one still opens its minute |
| MinuteAccumulator.TradeMovesItsMachine | systems/indicator_engine/src/bin/validate_storage_refactor.rs:592-602 | a trade feeds its clamped volumes to its own market's machine only, with buckets of 50, a window of 50 and a tolerance of 1e-12, or replaces it by the snapshot it carries; no other message moves a machine |
| MinuteAccumulator.CanonicalReplayAccumulator.FlushBefore | systems/indicator_engine/src/bin/validate_storage_refactor.rs:621-641 | emits exactly the events of the minutes before the bound in strict order, and keeps exactly the others |
| MinuteAccumulator.EventsExactly | systems/indicator_engine/src/bin/validate_storage_refactor.rs:728-748 | a minute emits one event for each kind of data it has, stamped one millisecond before the next minute, and nothing else |
| MinuteAccumulator.RanksCompareNames | systems/indicator_engine/src/bin/validate_storage_refactor.rs:634-639 | the order used for events is that of the message type and market names |
| MinuteAccumulator.FlushIsDetermined | systems/indicator_engine/src/bin/validate_storage_refactor.rs:634-639 | that description leaves one possible event sequence |
| MinuteAccumulator.FlushPartitions | systems/indicator_engine/src/bin/validate_storage_refactor.rs:621-641 | every accumulated event is either emitted or still held |
| MinuteAccumulator.FlushInTwoSteps | systems/indicator_engine/src/bin/validate_storage_refactor.rs:621-641 | flushing before t1 and then t2 gives exactly the sequence and the remainder of one flush before t2 |
| MinuteAccumulator.FlushingAsYouGo | systems/indicator_engine/src/bin/validate_storage_refactor.rs:583-641 | any replay in which no message is later than its minute's flush emits what one flush after the last message would |
| MinuteAccumulator.LateChunkSplitsMinute | systems/indicator_engine/src/bin/validate_storage_refactor.rs:583-641 | a chunk later than its minute's flush makes the minute be emitted a second time, with that chunk alone, out of order |
| MinuteAccumulator.LateMessageExactly | systems/indicator_engine/src/bin/validate_storage_refactor.rs:583-641 | after a late message of any kind, flushing as you go still emits one flush's events if and only if every event already emitted comes before the one it adds; an unknown message adds none |
| MinuteAccumulator.ReplayAll | systems/indicator_engine/src/bin/validate_storage_refactor.rs:228-297 | the validator's loop, which flushes behind the grace after every row and at the end a minute and the lateness plus a second past the latest event time, is that replay, and fails exactly on an unknown message |
| MinuteAccumulator.ReplayIsOneFlush | systems/indicator_engine/src/bin/validate_storage_refactor.rs:263-297 | for rows in time order and chunks within the grace, its events are those of one flush at the largest event time plus the lateness and 61 seconds |
| MinuteAccumulator.FinalFlushExactly | systems/indicator_engine/src/bin/validate_storage_refactor.rs:293-298 | the replay ends with nothing held and every accumulated event emitted if and only if every row's minute lies below that bound |
| MinuteAccumulator.KeptWithinGrace | systems/indicator_engine/src/bin/validate_storage_refactor.rs:263-264 | the flush after a row leaves a minute held if and only if the row's event time is less than five seconds past the minute's end |
| MinuteAccumulator.MinuteCarriesReading | systems/indicator_engine/src/bin/validate_storage_refactor.rs:592-602 | a minute carries the state its market's machine was in right after the minute's last trade |
| MinuteAccumulator.MinuteFoldsItsChunks | systems/indicator_engine/src/bin/validate_storage_refactor.rs:583-591 | a minute's trade aggregate is the fold of its own chunks, whatever came between them |
| MinuteAccumulator.ArrivalOrderIrrelevant | systems/indicator_engine/src/bin/validate_storage_refactor.rs:583-591 | replays that reorder a minute's chunks give it the same aggregate when ties agree |
| MinuteAccumulator.MinuteKeepsItsBodies | systems/indicator_engine/src/bin/validate_storage_refactor.rs:604-613 | each other aggregate of a minute has been applied exactly its own messages in order of arrival |
| MinuteAccumulator.MachineFedItsFlows | systems/indicator_engine/src/bin/validate_storage_refactor.rs:593-602 | each market's bucket machine has been fed exactly its own trades since its last snapshot |
| MinuteAccumulator.VpinsStaySound | systems/indicator_engine/src/bin/validate_storage_refactor.rs:592-602 | every market's bucket machine stays sound through feeding, restoring and flushing |
| TimeWeighted.TimeWeightedAvg | systems/indicator_engine/src/indicators/context.rs:1253-1299 | the exact integral of the step function over the window divided by its length, so the zero-weight branch is dead when points exist |
| TimeWeighted.AverageWithinValues | systems/indicator_engine/src/indicators/context.rs:1253-1299 | the average lies between any bounds on the values in force |
| TimeWeighted.FundingTwa1m | systems/indicator_engine/src/indicators/context.rs:646-669 | the average of the one history made of what was known at the minute's start and the minute's points, whatever the fallback search found |
| TimeWeighted.MarkTwap1m | systems/indicator_engine/src/indicators/context.rs:671-692 | the same over the observations that carry a price |
| ImbalanceStacks.ContiguousSegments | systems/indicator_engine/src/indicators/i02_footprint.rs:434-467 | the scan's segments are the long enough runs of the sorted ticks |
| ImbalanceStacks.LongestConsecutive | systems/indicator_engine/src/indicators/i02_footprint.rs:469-488 | the scan's result is the length of the longest of the same runs |
| ImbalanceStacks.RunsAreTheCut | systems/indicator_engine/src/indicators/i02_footprint.rs:434-488 | the runs laid end to end are the list, cut exactly where a value is not one more than its predecessor |
| ImbalanceStacks.SegmentsReportRuns | systems/indicator_engine/src/indicators/i02_footprint.rs:445-466 | there is one segment for each run of at least the minimum length, in the same order; its start and end are the prices of the run's own first and last tick in hundredths, its length the ticks between them, both counted |
| ImbalanceStacks.RunsHoldTheTicks | systems/indicator_engine/src/indicators/i02_footprint.rs:434-488 | the runs laid end to end are a permutation of the input ticks, and no run starts before an earlier one ends |
| ImbalanceStacks.StackedExactlyWhenSegments | systems/indicator_engine/src/indicators/i02_footprint.rs:141-144 | the longest run reaches the minimum exactly when a segment is reported, and the longest segment has that length |
| ImbalanceStacks.DistinctTicksPartition | systems/indicator_engine/src/indicators/i02_footprint.rs:434-467 | on distinct ticks with minimum 1 the segments are the maximal runs and partition the ticks |

## Left out

- The scheduler, the state store and the dispatcher are abstract: a next minute that only moves up, a set of complete
  minutes, the range of minutes pending historical materialization, a set of minutes whose outputs are written.
  Their source is not part of this model.
- The prepare worker, the compute workers and the main loop appear as steps of the transition system, not as objects;
  only the commit worker is written in both forms.
- The warm-up of a recovery from a leading gap may finalize minutes; the step does not record it, which only lets a
  recovery be repeated.
- Database and queue errors, cancellation inside a write, and the repair performed at shutdown.
- Dirty recomputation, the open-interest patch task and their job queue; the rebuild and batch guards on them are dropped,
  which only adds interleavings.
- Deferred-gap bookkeeping: healing a later gap also clears earlier deferred minutes, so a minute skipped in a gap counts
  as passed over, and coverage promises nothing of it.
- PipelineOrder.InFlightIsExactlyTheInterval: minutes are counted from 1, so that the override of a rebuilt minute never
  reads as unset, and the first minute is at least 2.
- PipelineHistory.DueCanBePersisted: says that every minute due can always still be persisted, not that the tasks are
  scheduled so that it is; fairness is not modelled.
- The startup backfill plan beyond its window tiling and paging, and the backfill query that only tests use, whose
  per-source cursor filter is weaker than the paged one.
- PagedReplay.ReplayVisitsExactlyOnce: the tables do not change during the replay and no two rows share a whole key; text
  compares by character, without the database's collation.
- The guard that rejects a snapshot for a null run in its recent tail, which looks at the first long run only.
- KlineCache.MissRefinesQuery: an ordered unchanging table of closed, non-overlapping bars, a cutoff within or at the edge
  of the cached slice and not inside a bar, and no fetch error; the lemmas beside it decide the answer otherwise.
- Orderbook, liquidation and funding aggregates inside a minute: kept as the list of applied messages, since their sums
  and last-write fields follow the same pattern as the trade aggregate.
- Message identifiers, routing keys and symbols of emitted events.
- Floating-point rounding, 32-bit truncation of segment lengths, and timestamps below one millisecond.
- VpinBuckets.BatchingMakesNoDifference: takes the 1e-12 tolerances as zero; `VpinBatching.BatchingExactly` decides any
  tolerance.
- OLS slopes, option-surface merging, profile-level ordering and the statistics helpers: they would only add easy members.
