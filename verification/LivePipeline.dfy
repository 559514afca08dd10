/**
 The live minute pipeline as a step system.  Each constructor of Step is one atomic action of one
 of the concurrent tasks: the main loop, the prepare worker, the compute workers, the ordered
 commit worker and the asynchronous historical materialization batch.  A run is any sequence of
 enabled steps, so a statement about all runs is a statement about all interleavings.
 */
module LivePipeline {
  import opened Options

  const LIVE_READY_JOB_QUEUE_CAPACITY := 8
  const LIVE_PREPARE_TASK_QUEUE_CAPACITY := 8
  const LIVE_COMPUTED_JOB_QUEUE_CAPACITY := LIVE_READY_JOB_QUEUE_CAPACITY * 3
  const LIVE_MATERIALIZE_WORKER_COUNT := 3
  const ASYNC_HISTORICAL_MATERIALIZE_BATCH_SIZE := 60
  const INITIAL_LIVE_EPOCH: nat := 1

  // ---------------------------------------------------------------- state

  /** A minute on its way through the pipeline, stamped with the live epoch it was emitted under. */
  datatype Job = Job(epoch: nat, minute: int)

  datatype Task = Task(epoch: nat, minutes: seq<int>)

  datatype Prepare =
    | PrepareIdle
    | PrepareReceived(task: Task)                                    // dequeued, epoch not read yet
    | PrepareHandoff(epoch: nat, minutes: seq<int>, counted: bool)   // counted: ready counter raised for the head
    | PrepareDelivered(epoch: nat, rest: seq<int>)                   // head sent, prepare counter not lowered yet
    | PrepareFailed(minute: int, rest: seq<int>)                     // ready queue "unexpectedly full"

  datatype Slot =
    | SlotIdle
    | SlotReceived(job: Job)     // dequeued, epoch not read yet
    | SlotComputing(job: Job)
    | SlotSending(job: Job)      // computed, epoch re-read, waiting for the computed channel

  datatype Commit =
    | CommitWaiting
    | CommitReceived(job: Job)
    | CommitEntering
    | CommitResolving(seenEpoch: nat)
    | CommitDraining(seenEpoch: nat, seenOverride: int)
    | CommitHolding(job: Job, seenEpoch: nat, seenOverride: int)     // removed from pending, gate not held
    | CommitGated(job: Job, seenEpoch: nat, seenOverride: int)       // gate held, epoch not read yet
    | CommitPersisting(job: Job, seenEpoch: nat, seenOverride: int)  // gate held, epoch read as current

  datatype Gate = GateFree | GateCommit | GateRebuild

  datatype RebuildKind = CatchupCutover | ConfirmedRepair

  datatype Main =
    | MainIdle
    | MainReadReady(ready: int)   // ready counter loaded, prepare counter not loaded yet
    | MainPlanned(slots: nat)
    | RebuildRequested(kind: RebuildKind, from: int, through: int)
    | RebuildGated(kind: RebuildKind, from: int, through: int)
    | RebuildBumped(kind: RebuildKind, from: int, through: int)
    | RebuildMarked(kind: RebuildKind, from: int, through: int)
    | RebuildStored(kind: RebuildKind, from: int, through: int)

  datatype Mode = Publishing | MutedCatchup

  datatype Batch =
    | NoBatch
    | BatchClearing(from: int, to: int)
    | BatchWriting(from: int, to: int, next: int)   // every minute of [from, next) written

  /**
   override is the atomic frontier override, 0 when unset.  emitEnd, log and owed are history:
   one past the last minute given to the pipeline or covered by a rebuild, the persisted live
   jobs in order, and the minutes whose outputs the engine has taken responsibility for.  finalized:
   some minute has been finalized in the state store.
   */
  datatype State = State(
    main: Main, mode: Mode, next: int, emitEnd: int,
    tasks: seq<Task>, preparePending: int, prepare: Prepare,
    ready: seq<Job>, slots: seq<Slot>, computed: seq<Job>, readyPending: int,
    commit: Commit, pending: map<int, nat>, nextCommit: Option<int>, log: seq<Job>,
    epoch: nat, override: int, gate: Gate,
    persisted: set<int>, historical: set<int>, batch: Batch, owed: set<int>, finalized: bool)

  /** backlog: minutes a startup recovery left pending historical materialization. */
  function InitialState(next: int, frontier: Option<int>, backlog: set<int>): State {
    State(MainIdle, Publishing, next, next,
          [], 0, PrepareIdle,
          [], seq(LIVE_MATERIALIZE_WORKER_COUNT, _ => SlotIdle), [], 0,
          CommitWaiting, map[], if frontier.Some? then Some(frontier.value + 1) else None, [],
          INITIAL_LIVE_EPOCH, 0, GateFree,
          {}, backlog, NoBatch, {}, false)
  }

  // ---------------------------------------------------------------- pure decisions of the source

  function TsFromMillis(raw: int): Option<int> {
    if raw > 0 then Some(raw) else None
  }

  /** Some minute of the map that no other minute precedes. */
  ghost predicate IsFirst(first: Option<int>, pending: map<int, nat>) {
    match first
    case None => pending == map[]
    case Some(m) => m in pending && forall k :: k in pending ==> m <= k
  }

  function FirstPending(pending: map<int, nat>): (first: Option<int>)
    ensures IsFirst(first, pending)
  {
    if pending == map[] then None
    else
      LeastKey(pending.Keys);
      assert exists m :: m in pending && forall k :: k in pending ==> m <= k;
      var m :| m in pending && forall k :: k in pending ==> m <= k;
      Some(m)
  }

  function ResolvedLiveCommitNextTs(
    current: Option<int>, pendingFirst: Option<int>, frontierOverride: Option<int>): Option<int>
  {
    var nextCommit := if current.Some? then current else pendingFirst;
    if frontierOverride.None? then nextCommit
    else
      var candidate := frontierOverride.value + 1;
      if pendingFirst.None? || pendingFirst.value >= frontierOverride.value then
        Some(if nextCommit.Some? then Max(nextCommit.value, candidate) else candidate)
      else nextCommit
  }

  function KeepEpoch(pending: map<int, nat>, epoch: nat): map<int, nat> {
    map m | m in pending && pending[m] == epoch :: pending[m]
  }

  function KeepFrom(pending: map<int, nat>, nextCommit: Option<int>): map<int, nat> {
    if nextCommit.None? then pending
    else map m | m in pending && m >= nextCommit.value :: pending[m]
  }

  function AvailableLivePipelineSlots(readyPending: int, preparePending: int): nat {
    var used := Min(readyPending + preparePending, LIVE_READY_JOB_QUEUE_CAPACITY);
    if used <= 0 then LIVE_READY_JOB_QUEUE_CAPACITY else LIVE_READY_JOB_QUEUE_CAPACITY - used
  }

  /** The minutes of [from, end). */
  function MinuteRange(from: int, end: int): (minutes: set<int>)
    ensures forall m :: m in minutes <==> from <= m < end
    decreases end - from
  {
    if from >= end then {} else {from} + MinuteRange(from + 1, end)
  }

  function MinuteSeq(from: int, count: nat): (minutes: seq<int>)
    ensures |minutes| == count
    ensures forall k :: 0 <= k < count ==> minutes[k] == from + k
    decreases count
  {
    if count == 0 then [] else [from] + MinuteSeq(from + 1, count - 1)
  }

  function Lowest(minutes: set<int>): (low: int)
    requires minutes != {}
    ensures low in minutes && forall m :: m in minutes ==> low <= m
  {
    LeastKey(minutes);
    assert exists low :: low in minutes && forall m :: m in minutes ==> low <= m;
    var low :| low in minutes && forall m :: m in minutes ==> low <= m;
    low
  }

  function Highest(minutes: set<int>): (high: int)
    requires minutes != {}
    ensures high in minutes && forall m :: m in minutes ==> m <= high
  {
    GreatestKey(minutes);
    assert exists high :: high in minutes && forall m :: m in minutes ==> m <= high;
    var high :| high in minutes && forall m :: m in minutes ==> m <= high;
    high
  }

  /** Marking minutes pending: the store keeps one range, which grows to take them in with all that lies between. */
  function Pend(pending: set<int>, from: int, through: int): (grown: set<int>)
    ensures from <= through ==> MinuteRange(from, through + 1) <= grown
    ensures pending <= grown
  {
    if from > through then pending
    else MinuteRange(Lowest(pending + {from}), Highest(pending + {through}) + 1)
  }

  /** Exactly the minutes between two that were pending or are marked now become pending. */
  lemma {:induction false} PendExactly(pending: set<int>, from: int, through: int, m: int)
    requires from <= through
    ensures m in Pend(pending, from, through) <==>
            && (from <= m || exists a :: a in pending && a <= m)
            && (m <= through || exists b :: b in pending && m <= b)
  {
    var low, high := Lowest(pending + {from}), Highest(pending + {through});
    assert low == from || low in pending;
    assert high == through || high in pending;
  }

  // ---------------------------------------------------------------- steps

  datatype MainStep =
    | MainLoadReady
    | MainLoadPrepare
    | MainEnqueue(count: nat)
    | MainAdvanceMuted(count: nat)
    | MainNothingReady
    | MainEnterMuted
    | MainSkipGap
    | MainRecoverGap(resume: int)   // from a leading gap: nothing finalized yet, no frontier stored

  datatype RebuildStep =
    | RebuildRequest(kind: RebuildKind, from: int, through: int)
    | RebuildLockGate
    | RebuildBumpEpoch
    | RebuildMarkHistorical
    | RebuildStoreFrontier
    | RebuildFinish

  datatype PrepareStep =
    | PrepareReceive
    | PrepareReadEpoch
    | PrepareCount
    | PrepareSend
    | PrepareSettle

  datatype ComputeStep =
    | ComputeReceive
    | ComputeReadEpoch
    | ComputeFinish
    | ComputeSend

  datatype CommitStep =
    | CommitReceive
    | CommitInsert
    | CommitNotified
    | CommitDropStale
    | CommitResolve
    | CommitTake
    | CommitReturn
    | CommitLockGate
    | CommitReadEpoch
    | CommitPersist

  datatype BatchStep =
    | BatchSpawn(from: int, to: int)
    | BatchClear
    | BatchWrite
    | BatchPoll
    | BatchAbort

  datatype Step =
    | MainDoes(main: MainStep)
    | RebuildDoes(rebuild: RebuildStep)   // also the main loop
    | PrepareDoes(prepare: PrepareStep)
    | ComputeDoes(i: nat, compute: ComputeStep)
    | CommitDoes(commit: CommitStep)
    | BatchDoes(batch: BatchStep)

  predicate MainEnabled(s: State, step: MainStep) {
    match step
    case MainLoadReady => s.main.MainIdle?
    case MainLoadPrepare => s.main.MainReadReady?
    case MainEnqueue(count) => s.main.MainPlanned? && s.mode.Publishing? && 0 < count <= s.main.slots
    case MainAdvanceMuted(count) => s.main.MainPlanned? && s.mode.MutedCatchup? && 0 < count <= s.main.slots
    case MainNothingReady => s.main.MainPlanned?
    case MainEnterMuted => s.main.MainIdle?
    case MainSkipGap => s.main.MainIdle?
    case MainRecoverGap(resume) => s.main.MainIdle? && !s.finalized && s.next < resume
  }

  function MainApply(s: State, step: MainStep): State
    requires MainEnabled(s, step)
  {
    match step
    case MainLoadReady => s.(main := MainReadReady(s.readyPending))
    case MainLoadPrepare =>
      var slots := AvailableLivePipelineSlots(s.main.ready, s.preparePending);
      s.(main := if slots == 0 then MainIdle else MainPlanned(slots))
    case MainEnqueue(count) =>
      if |s.tasks| < LIVE_PREPARE_TASK_QUEUE_CAPACITY then
        s.(main := MainIdle,
           tasks := s.tasks + [Task(s.epoch, MinuteSeq(s.next, count))],
           preparePending := s.preparePending + count,
           next := s.next + count, emitEnd := s.next + count,
           owed := s.owed + MinuteRange(s.next, s.next + count))
      else s.(main := MainIdle)
    case MainAdvanceMuted(count) =>
      s.(main := MainIdle, next := s.next + count,
         historical := Pend(s.historical, s.next, s.next + count - 1),
         owed := s.owed + MinuteRange(s.next, s.next + count), finalized := true)
    case MainNothingReady => s.(main := MainIdle)
    case MainEnterMuted => s.(mode := MutedCatchup)
    case MainSkipGap => s.(mode := MutedCatchup, next := s.next + 1)
    case MainRecoverGap(resume) =>
      s.(next := resume, emitEnd := if s.mode.Publishing? then resume else s.emitEnd)
  }

  predicate RebuildEnabled(s: State, step: RebuildStep) {
    match step
    case RebuildRequest(kind, from, through) =>
      && s.main.MainIdle?
      && s.preparePending == 0
      && from <= through
      && (kind.CatchupCutover? ==> s.mode.MutedCatchup?)
    case RebuildLockGate => s.main.RebuildRequested? && s.gate.GateFree?
    case RebuildBumpEpoch => s.main.RebuildGated?
    case RebuildMarkHistorical => s.main.RebuildBumped?
    case RebuildStoreFrontier => s.main.RebuildMarked?
    case RebuildFinish => s.main.RebuildStored?
  }

  function RebuildApply(s: State, step: RebuildStep): State
    requires RebuildEnabled(s, step)
  {
    match step
    case RebuildRequest(kind, from, through) => s.(main := RebuildRequested(kind, from, through))
    case RebuildLockGate =>
      s.(main := RebuildGated(s.main.kind, s.main.from, s.main.through), gate := GateRebuild)
    case RebuildBumpEpoch =>
      s.(main := RebuildBumped(s.main.kind, s.main.from, s.main.through), epoch := s.epoch + 1)
    case RebuildMarkHistorical =>
      s.(main := RebuildMarked(s.main.kind, s.main.from, s.main.through),
         historical := Pend(s.historical, s.main.from, s.main.through), finalized := true)
    case RebuildStoreFrontier =>
      s.(main := RebuildStored(s.main.kind, s.main.from, s.main.through),
         next := if s.next <= s.main.through then s.main.through + 1 else s.next,
         emitEnd := Max(s.emitEnd, s.main.through + 1),
         owed := s.owed + MinuteRange(Max(s.next, s.main.from), s.main.through + 1),
         override := s.main.through)
    case RebuildFinish =>
      s.(main := MainIdle, gate := GateFree,
         mode := if s.main.kind.CatchupCutover? then Publishing else s.mode)
  }

  predicate PrepareEnabled(s: State, step: PrepareStep) {
    match step
    case PrepareReceive => s.prepare.PrepareIdle? && s.tasks != []
    case PrepareReadEpoch => s.prepare.PrepareReceived?
    case PrepareCount => s.prepare.PrepareHandoff? && !s.prepare.counted && s.prepare.minutes != []
    case PrepareSend => s.prepare.PrepareHandoff? && s.prepare.counted && s.prepare.minutes != []
    case PrepareSettle => s.prepare.PrepareDelivered?
  }

  function PrepareApply(s: State, step: PrepareStep): State
    requires PrepareEnabled(s, step)
  {
    match step
    case PrepareReceive => s.(tasks := s.tasks[1..], prepare := PrepareReceived(s.tasks[0]))
    case PrepareReadEpoch =>
      var task := s.prepare.task;
      if task.epoch != s.epoch then
        s.(prepare := PrepareIdle, preparePending := s.preparePending - |task.minutes|)
      else s.(prepare := HandoffOrIdle(task.epoch, task.minutes), finalized := true)
    case PrepareCount =>
      s.(prepare := s.prepare.(counted := true), readyPending := s.readyPending + 1)
    case PrepareSend =>
      var minute := s.prepare.minutes[0];
      if |s.ready| < LIVE_READY_JOB_QUEUE_CAPACITY then
        s.(prepare := PrepareDelivered(s.prepare.epoch, s.prepare.minutes[1..]),
           ready := s.ready + [Job(s.prepare.epoch, minute)])
      else
        s.(prepare := PrepareFailed(minute, s.prepare.minutes[1..]),
           readyPending := s.readyPending - 1, preparePending := s.preparePending - 1)
    case PrepareSettle =>
      s.(prepare := HandoffOrIdle(s.prepare.epoch, s.prepare.rest), preparePending := s.preparePending - 1)
  }

  predicate ComputeEnabled(s: State, i: nat, step: ComputeStep) {
    match step
    case ComputeReceive => i < |s.slots| && s.slots[i].SlotIdle? && s.ready != []
    case ComputeReadEpoch => i < |s.slots| && s.slots[i].SlotReceived?
    case ComputeFinish => i < |s.slots| && s.slots[i].SlotComputing?
    case ComputeSend =>
      i < |s.slots| && s.slots[i].SlotSending? && |s.computed| < LIVE_COMPUTED_JOB_QUEUE_CAPACITY
  }

  function ComputeApply(s: State, i: nat, step: ComputeStep): State
    requires ComputeEnabled(s, i, step)
  {
    match step
    case ComputeReceive =>
      s.(ready := s.ready[1..], slots := s.slots[i := SlotReceived(s.ready[0])])
    case ComputeReadEpoch =>
      var job := s.slots[i].job;
      if job.epoch != s.epoch then s.(slots := s.slots[i := SlotIdle], readyPending := s.readyPending - 1)
      else s.(slots := s.slots[i := SlotComputing(job)])
    case ComputeFinish =>
      var job := s.slots[i].job;
      if job.epoch != s.epoch then s.(slots := s.slots[i := SlotIdle], readyPending := s.readyPending - 1)
      else s.(slots := s.slots[i := SlotSending(job)])
    case ComputeSend =>
      s.(slots := s.slots[i := SlotIdle], computed := s.computed + [s.slots[i].job])
  }

  predicate CommitEnabled(s: State, step: CommitStep) {
    match step
    case CommitReceive => s.commit.CommitWaiting? && s.computed != []
    case CommitInsert => s.commit.CommitReceived?
    case CommitNotified => s.commit.CommitWaiting?
    case CommitDropStale => s.commit.CommitEntering?
    case CommitResolve => s.commit.CommitResolving?
    case CommitTake => s.commit.CommitDraining? && s.nextCommit.Some? && s.nextCommit.value in s.pending
    case CommitReturn => s.commit.CommitDraining? && !(s.nextCommit.Some? && s.nextCommit.value in s.pending)
    case CommitLockGate => s.commit.CommitHolding? && s.gate.GateFree?
    case CommitReadEpoch => s.commit.CommitGated?
    case CommitPersist => s.commit.CommitPersisting?
  }

  function CommitApply(s: State, step: CommitStep): State
    requires CommitEnabled(s, step)
  {
    match step
    case CommitReceive => s.(computed := s.computed[1..], commit := CommitReceived(s.computed[0]))
    case CommitInsert =>
      var job := s.commit.job;
      if job.epoch != s.epoch then s.(commit := CommitEntering, readyPending := s.readyPending - 1)
      else s.(commit := CommitEntering, pending := s.pending[job.minute := job.epoch])
    case CommitNotified => s.(commit := CommitEntering)
    case CommitDropStale =>
      var kept := KeepEpoch(s.pending, s.epoch);
      s.(commit := CommitResolving(s.epoch), pending := kept,
         readyPending := s.readyPending - (|s.pending| - |kept|))
    case CommitResolve =>
      var nextCommit :=
        ResolvedLiveCommitNextTs(s.nextCommit, FirstPending(s.pending), TsFromMillis(s.override));
      var kept := KeepFrom(s.pending, nextCommit);
      s.(commit := CommitDraining(s.commit.seenEpoch, s.override), nextCommit := nextCommit, pending := kept,
         readyPending := s.readyPending - (|s.pending| - |kept|))
    case CommitTake =>
      var minute := s.nextCommit.value;
      s.(commit := CommitHolding(Job(s.pending[minute], minute), s.commit.seenEpoch, s.commit.seenOverride),
         pending := s.pending - {minute})
    case CommitReturn => s.(commit := CommitWaiting)
    case CommitLockGate =>
      s.(commit := CommitGated(s.commit.job, s.commit.seenEpoch, s.commit.seenOverride), gate := GateCommit)
    case CommitReadEpoch =>
      if s.commit.job.epoch != s.epoch then
        s.(commit := CommitDraining(s.commit.seenEpoch, s.commit.seenOverride), gate := GateFree,
           readyPending := s.readyPending - 1)
      else s.(commit := CommitPersisting(s.commit.job, s.commit.seenEpoch, s.commit.seenOverride))
    case CommitPersist =>
      var job := s.commit.job;
      s.(commit := CommitDraining(s.commit.seenEpoch, s.commit.seenOverride), gate := GateFree,
         persisted := s.persisted + {job.minute}, log := s.log + [job],
         readyPending := s.readyPending - 1, nextCommit := Some(job.minute + 1))
  }

  predicate BatchEnabled(s: State, step: BatchStep) {
    match step
    case BatchSpawn(from, to) =>
      && s.main.MainIdle? && s.mode.Publishing? && s.batch.NoBatch?
      && s.preparePending == 0 && s.readyPending == 0
      && from <= to < from + ASYNC_HISTORICAL_MATERIALIZE_BATCH_SIZE
      && MinuteRange(from, to + 1) <= s.historical
      && (forall m :: m in s.historical ==> from <= m)
      && (to + 1 !in s.historical || to + 1 == from + ASYNC_HISTORICAL_MATERIALIZE_BATCH_SIZE)
    case BatchClear => s.batch.BatchClearing?
    case BatchWrite => s.batch.BatchWriting? && s.batch.next <= s.batch.to
    case BatchPoll => s.main.MainIdle? && s.batch.BatchWriting? && s.batch.next > s.batch.to
    case BatchAbort => s.main.MainIdle?
  }

  function BatchApply(s: State, step: BatchStep): State
    requires BatchEnabled(s, step)
  {
    match step
    case BatchSpawn(from, to) => s.(batch := BatchClearing(from, to))
    case BatchClear =>
      s.(batch := BatchWriting(s.batch.from, s.batch.to, s.batch.from),
         persisted := s.persisted - MinuteRange(s.batch.from, s.batch.to + 1))
    case BatchWrite =>
      s.(batch := s.batch.(next := s.batch.next + 1), persisted := s.persisted + {s.batch.next})
    case BatchPoll =>
      s.(batch := NoBatch, historical := set m | m in s.historical && m > s.batch.to)
    case BatchAbort => s.(batch := NoBatch)
  }

  predicate Enabled(s: State, step: Step) {
    match step
    case MainDoes(main) => MainEnabled(s, main)
    case RebuildDoes(rebuild) => RebuildEnabled(s, rebuild)
    case PrepareDoes(prepare) => PrepareEnabled(s, prepare)
    case ComputeDoes(i, compute) => ComputeEnabled(s, i, compute)
    case CommitDoes(commit) => CommitEnabled(s, commit)
    case BatchDoes(batch) => BatchEnabled(s, batch)
  }

  function Apply(s: State, step: Step): State
    requires Enabled(s, step)
  {
    match step
    case MainDoes(main) => MainApply(s, main)
    case RebuildDoes(rebuild) => RebuildApply(s, rebuild)
    case PrepareDoes(prepare) => PrepareApply(s, prepare)
    case ComputeDoes(i, compute) => ComputeApply(s, i, compute)
    case CommitDoes(commit) => CommitApply(s, commit)
    case BatchDoes(batch) => BatchApply(s, batch)
  }

  function HandoffOrIdle(epoch: nat, minutes: seq<int>): Prepare {
    if minutes == [] then PrepareIdle else PrepareHandoff(epoch, minutes, false)
  }

  // ---------------------------------------------------------------- runs

  ghost predicate CanRun(s: State, steps: seq<Step>)
    decreases |steps|
  {
    steps == [] || (Enabled(s, steps[0]) && CanRun(Apply(s, steps[0]), steps[1..]))
  }

  ghost function After(s: State, steps: seq<Step>): State
    requires CanRun(s, steps)
    decreases |steps|
  {
    if steps == [] then s else After(Apply(s, steps[0]), steps[1..])
  }
}
