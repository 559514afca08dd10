/**
 What every interleaving keeps, with no hypothesis on the run: both atomic counters equal what they
 count, no minute is in flight twice, stale prepare tasks do not exist, the commit gate fences
 epochs, and the ordered commit frontier only moves up.
 */
module PipelineAccounting {
  import opened Options
  import opened LivePipeline

  // ---------------------------------------------------------------- jobs in flight

  function One(b: bool): nat {
    if b then 1 else 0
  }

  ghost function InSeq(jobs: seq<Job>, j: Job): nat {
    if jobs == [] then 0 else One(jobs[0] == j) + InSeq(jobs[1..], j)
  }

  ghost function InMinutes(epoch: nat, minutes: seq<int>, j: Job): nat {
    if minutes == [] then 0 else One(j == Job(epoch, minutes[0])) + InMinutes(epoch, minutes[1..], j)
  }

  ghost function InTasks(tasks: seq<Task>, j: Job): nat {
    if tasks == [] then 0 else InMinutes(tasks[0].epoch, tasks[0].minutes, j) + InTasks(tasks[1..], j)
  }

  ghost function InPrepare(p: Prepare, j: Job): nat {
    match p
    case PrepareReceived(task) => InMinutes(task.epoch, task.minutes, j)
    case PrepareHandoff(epoch, minutes, _) => InMinutes(epoch, minutes, j)
    case PrepareDelivered(epoch, rest) => InMinutes(epoch, rest, j)
    case _ => 0
  }

  ghost function InSlots(slots: seq<Slot>, j: Job): nat {
    if slots == [] then 0 else One(!slots[0].SlotIdle? && slots[0].job == j) + InSlots(slots[1..], j)
  }

  predicate CommitHasJob(c: Commit) {
    c.CommitReceived? || c.CommitHolding? || c.CommitGated? || c.CommitPersisting?
  }

  predicate InPending(pending: map<int, nat>, j: Job) {
    j.minute in pending && pending[j.minute] == j.epoch
  }

  /** How many copies of a job the stages hold, wherever they are. */
  ghost function Copies(s: State, j: Job): nat {
    InTasks(s.tasks, j) + InPrepare(s.prepare, j) + InSeq(s.ready, j) + InSlots(s.slots, j)
    + InSeq(s.computed, j) + One(CommitHasJob(s.commit) && s.commit.job == j) + One(InPending(s.pending, j))
  }

  ghost predicate InFlight(s: State, j: Job) {
    Copies(s, j) > 0
  }

  lemma {:induction false} InSeqSnoc(jobs: seq<Job>, last: Job, j: Job)
    ensures InSeq(jobs + [last], j) == InSeq(jobs, j) + One(last == j)
  {
    if jobs == [] {
      assert jobs + [last] == [last];
    } else {
      InSeqSnoc(jobs[1..], last, j);
      assert (jobs + [last])[1..] == jobs[1..] + [last];
    }
  }

  lemma {:induction false} InTasksSnoc(tasks: seq<Task>, t: Task, j: Job)
    ensures InTasks(tasks + [t], j) == InTasks(tasks, j) + InMinutes(t.epoch, t.minutes, j)
  {
    if tasks == [] {
      assert tasks + [t] == [t];
    } else {
      InTasksSnoc(tasks[1..], t, j);
      assert (tasks + [t])[1..] == tasks[1..] + [t];
    }
  }

  lemma {:induction false} InSlotsUpdate(slots: seq<Slot>, i: nat, slot: Slot, j: Job)
    requires i < |slots|
    ensures InSlots(slots[i := slot], j) + One(!slots[i].SlotIdle? && slots[i].job == j)
            == InSlots(slots, j) + One(!slot.SlotIdle? && slot.job == j)
  {
    if i == 0 {
      assert slots[i := slot][1..] == slots[1..];
    } else {
      InSlotsUpdate(slots[1..], i - 1, slot, j);
      assert slots[i := slot][1..] == slots[1..][i - 1 := slot];
    }
  }

  /** The jobs of a run of minutes: one each. */
  lemma {:induction false} InMinuteRange(epoch: nat, from: int, count: nat, j: Job)
    ensures InMinutes(epoch, MinuteSeq(from, count), j) == One(j.epoch == epoch && from <= j.minute < from + count)
    decreases count
  {
    if count == 0 {
    } else {
      InMinuteRange(epoch, from + 1, count - 1, j);
      assert MinuteSeq(from, count)[1..] == MinuteSeq(from + 1, count - 1);
    }
  }

  // ---------------------------------------------------------------- where jobs enter and leave

  ghost function MainGain(s: State, step: MainStep, j: Job): nat {
    One(step.MainEnqueue? && |s.tasks| < LIVE_PREPARE_TASK_QUEUE_CAPACITY
        && j.epoch == s.epoch && s.next <= j.minute < s.next + step.count)
  }

  lemma {:induction false} MainFlow(s: State, step: MainStep, j: Job)
    requires MainEnabled(s, step)
    ensures Copies(MainApply(s, step), j) == Copies(s, j) + MainGain(s, step, j)
  {
    if step.MainEnqueue? {
      InTasksSnoc(s.tasks, Task(s.epoch, MinuteSeq(s.next, step.count)), j);
      InMinuteRange(s.epoch, s.next, step.count, j);
    }
  }

  lemma {:induction false} RebuildFlow(s: State, step: RebuildStep, j: Job)
    requires RebuildEnabled(s, step)
    ensures Copies(RebuildApply(s, step), j) == Copies(s, j)
  {
  }

  lemma {:induction false} BatchFlow(s: State, step: BatchStep, j: Job)
    requires BatchEnabled(s, step)
    ensures Copies(BatchApply(s, step), j) == Copies(s, j)
  {
  }

  ghost function PrepareLoss(s: State, step: PrepareStep, j: Job): nat
    requires PrepareEnabled(s, step)
  {
    if step.PrepareReadEpoch? && s.prepare.task.epoch != s.epoch then InPrepare(s.prepare, j)
    else if step.PrepareSend? && |s.ready| >= LIVE_READY_JOB_QUEUE_CAPACITY then InPrepare(s.prepare, j)
    else 0
  }

  lemma {:induction false} SendFlow(s: State, j: Job)
    requires PrepareEnabled(s, PrepareSend)
    ensures Copies(PrepareApply(s, PrepareSend), j) + PrepareLoss(s, PrepareSend, j) == Copies(s, j)
  {
    hide InTasks, InSlots;
    InSeqSnoc(s.ready, Job(s.prepare.epoch, s.prepare.minutes[0]), j);
  }

  lemma {:induction false} PrepareFlow(s: State, step: PrepareStep, j: Job)
    requires PrepareEnabled(s, step)
    ensures Copies(PrepareApply(s, step), j) + PrepareLoss(s, step, j) == Copies(s, j)
  {
    if step.PrepareSend? {
      SendFlow(s, j);
    } else {
      hide InSlots, InSeq;
    }
  }

  ghost function ComputeLoss(s: State, i: nat, step: ComputeStep, j: Job): nat
    requires ComputeEnabled(s, i, step)
  {
    One((step.ComputeReadEpoch? || step.ComputeFinish?) && s.slots[i].job.epoch != s.epoch && s.slots[i].job == j)
  }

  lemma {:induction false} ComputeFlow(s: State, i: nat, step: ComputeStep, j: Job)
    requires ComputeEnabled(s, i, step)
    ensures Copies(ComputeApply(s, i, step), j) + ComputeLoss(s, i, step, j) == Copies(s, j)
  {
    hide InTasks, InPrepare, InSlots;
    InSlotsUpdate(s.slots, i, ComputeApply(s, i, step).slots[i], j);
    if step.ComputeSend? {
      InSeqSnoc(s.computed, s.slots[i].job, j);
    }
  }

  /** Copies of a job that a commit step takes out of flight: stale, below the frontier, or persisted. */
  ghost function CommitLoss(s: State, step: CommitStep, j: Job): nat
    requires CommitEnabled(s, step)
  {
    match step
    case CommitInsert => One(s.commit.job.epoch != s.epoch && s.commit.job == j)
    case CommitDropStale => One(InPending(s.pending, j) && j.epoch != s.epoch)
    case CommitResolve => One(InPending(s.pending, j) && !InPending(CommitApply(s, step).pending, j))
    case CommitReadEpoch => One(s.commit.job.epoch != s.epoch && s.commit.job == j)
    case CommitPersist => One(s.commit.job == j)
    case _ => 0
  }

  lemma {:induction false} DropFlow(s: State, step: CommitStep, j: Job)
    requires CommitEnabled(s, step) && (step.CommitDropStale? || step.CommitResolve?)
    ensures Copies(CommitApply(s, step), j) + CommitLoss(s, step, j) == Copies(s, j)
  {
    hide FirstPending, ResolvedLiveCommitNextTs, InTasks, InPrepare, InSeq, InSlots;
  }

  lemma {:induction false} MoveFlow(s: State, step: CommitStep, j: Job)
    requires CommitEnabled(s, step) && (step.CommitInsert? || step.CommitTake?)
    requires s.commit.CommitReceived? ==> s.commit.job.minute !in s.pending
    ensures Copies(CommitApply(s, step), j) + CommitLoss(s, step, j) == Copies(s, j)
  {
    hide InTasks, InPrepare, InSeq, InSlots;
  }

  lemma {:induction false} CommitFlow(s: State, step: CommitStep, j: Job)
    requires CommitEnabled(s, step)
    requires s.commit.CommitReceived? ==> s.commit.job.minute !in s.pending
    ensures Copies(CommitApply(s, step), j) + CommitLoss(s, step, j) == Copies(s, j)
  {
    if step.CommitDropStale? || step.CommitResolve? {
      DropFlow(s, step, j);
    } else if step.CommitInsert? || step.CommitTake? {
      MoveFlow(s, step, j);
    }
  }

  // ---------------------------------------------------------------- the two atomic counters

  function TaskMinutes(tasks: seq<Task>): nat {
    if tasks == [] then 0 else |tasks[0].minutes| + TaskMinutes(tasks[1..])
  }

  function PrepareLoad(p: Prepare): nat {
    match p
    case PrepareReceived(task) => |task.minutes|
    case PrepareHandoff(_, minutes, _) => |minutes|
    case PrepareDelivered(_, rest) => |rest| + 1
    case PrepareFailed(_, rest) => |rest|
    case PrepareIdle => 0
  }

  function BusySlots(slots: seq<Slot>): nat {
    if slots == [] then 0 else One(!slots[0].SlotIdle?) + BusySlots(slots[1..])
  }

  /** The head of the hand-off is in the ready counter before it is in the ready channel. */
  predicate HeadCounted(p: Prepare) {
    p.PrepareHandoff? && p.counted
  }

  /** preparePending counts the minutes queued or being prepared; a failed worker's rest stays counted. */
  predicate PrepareCounterExact(s: State) {
    s.preparePending == TaskMinutes(s.tasks) + PrepareLoad(s.prepare)
  }

  /** readyPending counts the jobs in the ready channel, compute slots, computed channel and commit map. */
  predicate ReadyCounterExact(s: State) {
    s.readyPending == |s.ready| + BusySlots(s.slots) + |s.computed| + One(CommitHasJob(s.commit))
                      + |s.pending| + One(HeadCounted(s.prepare))
  }

  predicate Shaped(s: State) {
    && |s.slots| == LIVE_MATERIALIZE_WORKER_COUNT
    && (forall t :: t in s.tasks ==> t.minutes != [])
    && (s.prepare.PrepareReceived? ==> s.prepare.task.minutes != [])
    && (s.prepare.PrepareHandoff? ==> s.prepare.minutes != [])
  }

  predicate Accounts(s: State) {
    Shaped(s) && PrepareCounterExact(s) && ReadyCounterExact(s)
  }

  lemma {:induction false} TaskMinutesSnoc(tasks: seq<Task>, t: Task)
    ensures TaskMinutes(tasks + [t]) == TaskMinutes(tasks) + |t.minutes|
  {
    if tasks == [] {
      assert tasks + [t] == [t];
    } else {
      TaskMinutesSnoc(tasks[1..], t);
      assert (tasks + [t])[1..] == tasks[1..] + [t];
    }
  }

  lemma {:induction false} BusySlotsUpdate(slots: seq<Slot>, i: nat, slot: Slot)
    requires i < |slots|
    ensures BusySlots(slots[i := slot]) + One(!slots[i].SlotIdle?) == BusySlots(slots) + One(!slot.SlotIdle?)
  {
    if i == 0 {
      assert slots[i := slot][1..] == slots[1..];
    } else {
      BusySlotsUpdate(slots[1..], i - 1, slot);
      assert slots[i := slot][1..] == slots[1..][i - 1 := slot];
    }
  }

  lemma {:induction false} PendingRemoveSize(pending: map<int, nat>, minute: int)
    requires minute in pending
    ensures |pending - {minute}| == |pending| - 1
  {
    assert (pending - {minute})[minute := pending[minute]] == pending;
  }

  lemma {:induction false} PrepareAccounts(s: State, step: PrepareStep)
    requires Accounts(s) && PrepareEnabled(s, step)
    ensures Accounts(PrepareApply(s, step))
  {
    if step.PrepareReceive? {
      assert forall t :: t in s.tasks[1..] ==> t in s.tasks;
    }
  }

  lemma {:induction false} ComputeAccounts(s: State, i: nat, step: ComputeStep)
    requires Accounts(s) && ComputeEnabled(s, i, step)
    ensures Accounts(ComputeApply(s, i, step))
  {
    BusySlotsUpdate(s.slots, i, ComputeApply(s, i, step).slots[i]);
  }

  /** The part of the ready counter that the commit worker answers for. */
  function CommitLoad(s: State): nat {
    |s.computed| + One(CommitHasJob(s.commit)) + |s.pending|
  }

  /** Dropping jobs lowers the ready counter by as many. */
  lemma {:induction false} DropCounts(s: State, step: CommitStep)
    requires CommitEnabled(s, step) && (step.CommitDropStale? || step.CommitResolve?)
    ensures var s' := CommitApply(s, step); s'.readyPending - CommitLoad(s') == s.readyPending - CommitLoad(s)
  {
    hide KeepEpoch, KeepFrom, FirstPending, ResolvedLiveCommitNextTs;
  }

  lemma {:induction false} TakeCounts(s: State)
    requires CommitEnabled(s, CommitTake)
    ensures var s' := CommitApply(s, CommitTake); s'.readyPending - CommitLoad(s') == s.readyPending - CommitLoad(s)
  {
    PendingRemoveSize(s.pending, s.nextCommit.value);
  }

  lemma {:induction false} MoveCounts(s: State, step: CommitStep)
    requires CommitEnabled(s, step) && !step.CommitDropStale? && !step.CommitResolve? && !step.CommitTake?
    requires s.commit.CommitReceived? ==> s.commit.job.minute !in s.pending
    ensures var s' := CommitApply(s, step); s'.readyPending - CommitLoad(s') == s.readyPending - CommitLoad(s)
  {
  }

  lemma {:induction false} CommitCounts(s: State, step: CommitStep)
    requires CommitEnabled(s, step)
    requires s.commit.CommitReceived? ==> s.commit.job.minute !in s.pending
    ensures var s' := CommitApply(s, step); s'.readyPending - CommitLoad(s') == s.readyPending - CommitLoad(s)
  {
    hide CommitApply;
    match step
    case CommitDropStale => DropCounts(s, step);
    case CommitResolve => DropCounts(s, step);
    case CommitTake => TakeCounts(s);
    case _ => MoveCounts(s, step);
  }

  lemma {:induction false} CommitLeavesPrepare(s: State, step: CommitStep)
    requires CommitEnabled(s, step)
    ensures var s' := CommitApply(s, step);
            && s'.tasks == s.tasks && s'.prepare == s.prepare && s'.preparePending == s.preparePending
            && s'.ready == s.ready && s'.slots == s.slots
  {
    hide KeepEpoch, KeepFrom, FirstPending, ResolvedLiveCommitNextTs;
  }

  lemma {:induction false} CommitAccounts(s: State, step: CommitStep)
    requires Accounts(s) && CommitEnabled(s, step)
    requires s.commit.CommitReceived? ==> s.commit.job.minute !in s.pending
    ensures Accounts(CommitApply(s, step))
  {
    CommitCounts(s, step);
    CommitLeavesPrepare(s, step);
    hide CommitApply, BusySlots, TaskMinutes, PrepareLoad;
  }

  lemma {:induction false} MainAccounts(s: State, step: MainStep)
    requires Accounts(s) && MainEnabled(s, step)
    ensures Accounts(MainApply(s, step))
  {
    if step.MainEnqueue? {
      TaskMinutesSnoc(s.tasks, Task(s.epoch, MinuteSeq(s.next, step.count)));
    }
  }

  lemma {:induction false} QueuedTasksCount(tasks: seq<Task>)
    requires forall t :: t in tasks ==> t.minutes != []
    ensures tasks == [] || TaskMinutes(tasks) > 0
  {
    if tasks != [] {
      assert tasks[0] in tasks;
    }
  }

  /** With the counter exact, a zero prepare counter means there is nothing to prepare. */
  lemma {:induction false} NothingToPrepare(s: State)
    requires Accounts(s) && s.preparePending == 0
    ensures s.tasks == []
    ensures s.prepare.PrepareIdle? || s.prepare.PrepareFailed?
  {
    QueuedTasksCount(s.tasks);
  }

  // ---------------------------------------------------------------- the base invariant

  predicate MidRebuild(s: State) {
    s.main.RebuildBumped? || s.main.RebuildMarked?
  }

  predicate Rebuilding(m: Main) {
    m.RebuildRequested? || m.RebuildGated? || m.RebuildBumped? || m.RebuildMarked? || m.RebuildStored?
  }

  predicate HoldsGate(m: Main) {
    Rebuilding(m) && !m.RebuildRequested?
  }

  /** No job is held twice, no two jobs share a minute, and every job is behind the scheduler. */
  ghost predicate JobsDistinct(s: State) {
    && (forall j :: Copies(s, j) <= 1)
    && (forall j, k :: InFlight(s, j) && InFlight(s, k) && j.minute == k.minute ==> j == k)
    && (forall j :: InFlight(s, j) ==> j.epoch <= s.epoch && j.minute < s.next)
  }

  /** No prepare task is stale, and no rebuild overlaps prepare work. */
  predicate PrepareCurrent(s: State) {
    && (forall t :: t in s.tasks ==> t.epoch == s.epoch)
    && (s.prepare.PrepareReceived? ==> s.prepare.task.epoch == s.epoch)
    && (s.prepare.PrepareHandoff? ==> s.prepare.epoch == s.epoch)
    && (s.prepare.PrepareDelivered? ==> s.prepare.epoch == s.epoch)
    && (Rebuilding(s.main) ==> s.preparePending == 0)
  }

  /** The gate is held by the commit worker exactly around a write, by the main loop exactly around a rebuild. */
  predicate GateHeld(s: State) {
    && (s.gate.GateCommit? <==> s.commit.CommitGated? || s.commit.CommitPersisting?)
    && (s.gate.GateRebuild? <==> HoldsGate(s.main))
    && (s.commit.CommitPersisting? ==> s.commit.job.epoch == s.epoch)
  }

  /** Jobs of the current epoch lie strictly above the last rebuilt minute; during a rebuild there are none. */
  ghost predicate Fenced(s: State) {
    && (TsFromMillis(s.override).Some? ==> s.override < s.next)
    && (forall j :: InFlight(s, j) && j.epoch == s.epoch ==>
          !MidRebuild(s) && (TsFromMillis(s.override).Some? ==> s.override < j.minute))
  }

  predicate CommitTaken(c: Commit) {
    c.CommitHolding? || c.CommitGated? || c.CommitPersisting?
  }

  /** What the commit worker's local state says about the map it is draining. */
  predicate CommitLocal(s: State) {
    && (CommitTaken(s.commit) ==>
          s.nextCommit == Some(s.commit.job.minute) && forall m :: m in s.pending ==> s.commit.job.minute < m)
    && (s.commit.CommitDraining? && s.nextCommit.Some? ==> forall m :: m in s.pending ==> s.nextCommit.value <= m)
    && ((s.commit.CommitWaiting? || s.commit.CommitReceived?) && s.nextCommit.Some? ==>
          forall m :: m in s.pending ==> s.nextCommit.value < m)
    && (s.nextCommit.None? ==>
          (s.commit.CommitDraining? || s.commit.CommitWaiting? || s.commit.CommitReceived?) ==> s.pending == map[])
  }

  /** Live minutes are persisted in strictly increasing order, all below the commit frontier. */
  predicate LogOrdered(s: State) {
    && (forall k :: 0 <= k < |s.log| ==> s.nextCommit.Some? && s.log[k].minute < s.nextCommit.value)
    && (forall k, l :: 0 <= k < l < |s.log| ==> s.log[k].minute < s.log[l].minute && s.log[k].epoch <= s.log[l].epoch)
    && (forall k :: 0 <= k < |s.log| ==> s.log[k].epoch <= s.epoch)
  }

  ghost predicate Base(s: State) {
    && Accounts(s)
    && JobsDistinct(s)
    && PrepareCurrent(s)
    && GateHeld(s)
    && Fenced(s)
    && CommitLocal(s)
    && LogOrdered(s)
  }

  // ---------------------------------------------------------------- every step keeps it

  ghost predicate Shrinks(s: State, s': State) {
    forall j :: Copies(s', j) <= Copies(s, j)
  }

  lemma {:induction false} ShrinkKeepsDistinct(s: State, s': State)
    requires JobsDistinct(s) && Shrinks(s, s') && s.epoch <= s'.epoch && s.next <= s'.next
    ensures JobsDistinct(s')
  {
    forall j ensures Copies(s', j) <= 1 && (InFlight(s', j) ==> InFlight(s, j)) {
      assert Copies(s', j) <= Copies(s, j);
    }
  }

  lemma {:induction false} ShrinkKeepsFenced(s: State, s': State)
    requires Fenced(s) && Shrinks(s, s')
    requires s'.epoch == s.epoch && s'.override == s.override && s.next <= s'.next
    requires MidRebuild(s') ==> MidRebuild(s)
    ensures Fenced(s')
  {
    forall j ensures InFlight(s', j) ==> InFlight(s, j) {
      assert Copies(s', j) <= Copies(s, j);
    }
  }

  /** The job the commit worker is about to insert is not already in its map. */
  lemma {:induction false} ReceivedIsNew(s: State)
    requires JobsDistinct(s)
    ensures s.commit.CommitReceived? ==> s.commit.job.minute !in s.pending
  {
    if s.commit.CommitReceived? {
      var j := s.commit.job;
      assert InFlight(s, j);
      forall m | m in s.pending ensures m != j.minute {
        var k := Job(s.pending[m], m);
        assert InFlight(s, k) && Copies(s, k) <= 1;
      }
    }
  }

  lemma SameLogOrdered(s: State, s': State)
    requires LogOrdered(s) && s'.log == s.log && s.epoch <= s'.epoch
    requires s.nextCommit.Some? ==> s'.nextCommit.Some? && s.nextCommit.value <= s'.nextCommit.value
    ensures LogOrdered(s')
  {
    if s.log != [] {
      var first := s.log[0];
      assert s.nextCommit.Some? && first.minute < s.nextCommit.value;
    }
    forall k | 0 <= k < |s'.log|
      ensures s'.nextCommit.Some? && s'.log[k].minute < s'.nextCommit.value && s'.log[k].epoch <= s'.epoch
    {
      assert s'.log[k] == s.log[k];
    }
  }

  /**
   Steps of the prepare, compute and batch tasks and of the main loop outside a rebuild leave the commit side
   alone.
   */
  lemma {:induction false} UntouchedCommitSide(s: State, s': State)
    requires GateHeld(s) && CommitLocal(s) && LogOrdered(s)
    requires s'.commit == s.commit && s'.pending == s.pending && s'.nextCommit == s.nextCommit
    requires s'.log == s.log && s'.epoch == s.epoch && s'.gate == s.gate
    requires HoldsGate(s'.main) == HoldsGate(s.main)
    ensures GateHeld(s') && CommitLocal(s') && LogOrdered(s')
  {
    SameLogOrdered(s, s');
  }

  /** Only the commit worker touches its job, its map, its frontier and the log. */
  lemma {:induction false} OthersLeaveCommitSide(s: State, step: Step)
    requires Enabled(s, step) && !step.CommitDoes?
    ensures var s' := Apply(s, step);
            s'.commit == s.commit && s'.pending == s.pending && s'.nextCommit == s.nextCommit && s'.log == s.log
  {
    hide TaskMinutes, BusySlots, AvailableLivePipelineSlots, MinuteRange, MinuteSeq;
    match step
    case MainDoes(m) => assert MainApply(s, m).commit == s.commit;
    case RebuildDoes(r) => assert RebuildApply(s, r).commit == s.commit;
    case PrepareDoes(p) => assert PrepareApply(s, p).commit == s.commit;
    case ComputeDoes(i, c) => assert ComputeApply(s, i, c).commit == s.commit;
    case BatchDoes(b) => BatchLeavesPipeline(s, b);
  }

  lemma {:induction false} PrepareKeepsBase(s: State, step: PrepareStep)
    requires Base(s) && PrepareEnabled(s, step)
    ensures Base(PrepareApply(s, step))
  {
    var s' := PrepareApply(s, step);
    PrepareAccounts(s, step);
    hide Copies, CommitLocal, LogOrdered, GateHeld, JobsDistinct, Fenced;
    UntouchedCommitSide(s, s');
    forall j ensures Copies(s', j) <= Copies(s, j) { PrepareFlow(s, step, j); }
    ShrinkKeepsDistinct(s, s');
    ShrinkKeepsFenced(s, s');
    if Rebuilding(s.main) { NothingToPrepare(s); }
  }

  lemma {:induction false} ComputeKeepsBase(s: State, i: nat, step: ComputeStep)
    requires Base(s) && ComputeEnabled(s, i, step)
    ensures Base(ComputeApply(s, i, step))
  {
    var s' := ComputeApply(s, i, step);
    ComputeAccounts(s, i, step);
    assert s' == s.(slots := s'.slots, ready := s'.ready, computed := s'.computed, readyPending := s'.readyPending);
    hide ComputeApply, Copies, Accounts, CommitLocal, LogOrdered, GateHeld, JobsDistinct, Fenced;
    UntouchedCommitSide(s, s');
    forall j ensures Copies(s', j) <= Copies(s, j) { ComputeFlow(s, i, step, j); }
    ShrinkKeepsDistinct(s, s');
    ShrinkKeepsFenced(s, s');
  }

  /** What the prepare and compute tasks may write. */
  lemma {:induction false} WorkersWriteOwn(s: State, step: Step)
    requires Enabled(s, step) && (step.PrepareDoes? || step.ComputeDoes?)
    ensures var s' := Apply(s, step);
            s' == s.(tasks := s'.tasks, preparePending := s'.preparePending, prepare := s'.prepare, ready := s'.ready,
                     slots := s'.slots, computed := s'.computed, readyPending := s'.readyPending,
                     finalized := s'.finalized)
  {
    match step
    case PrepareDoes(p) => assert PrepareApply(s, p).main == s.main;
    case ComputeDoes(i, c) => assert ComputeApply(s, i, c).main == s.main;
  }

  /** What the main loop may write outside a rebuild: its own books, the task queue, the minutes it takes on. */
  lemma {:induction false} MainWritesOwn(s: State, step: MainStep)
    requires MainEnabled(s, step)
    ensures var s' := MainApply(s, step);
            && s' == s.(main := s'.main, mode := s'.mode, next := s'.next, emitEnd := s'.emitEnd, tasks := s'.tasks,
                        preparePending := s'.preparePending, historical := s'.historical, owed := s'.owed,
                        finalized := s'.finalized)
            && s.next <= s'.next && !Rebuilding(s.main) && !Rebuilding(s'.main)
            && forall m :: m in s'.historical ==> s.next <= m || exists a :: a in s.historical && a <= m
  {
    if step.MainAdvanceMuted? {
      forall m ensures m in MainApply(s, step).historical ==> s.next <= m || exists a :: a in s.historical && a <= m {
        PendExactly(s.historical, s.next, s.next + step.count - 1, m);
      }
    }
  }

  lemma BatchLeavesPipeline(s: State, step: BatchStep)
    requires BatchEnabled(s, step)
    ensures var s' := BatchApply(s, step);
            s' == s.(batch := s'.batch, persisted := s'.persisted, historical := s'.historical)
  {
  }

  lemma {:induction false} BatchKeepsBase(s: State, step: BatchStep)
    requires Base(s) && BatchEnabled(s, step)
    ensures Base(BatchApply(s, step))
  {
    var s' := BatchApply(s, step);
    BatchLeavesPipeline(s, step);
    hide BatchApply, Copies, CommitLocal, LogOrdered, GateHeld, JobsDistinct, Fenced;
    UntouchedCommitSide(s, s');
    forall j ensures Copies(s', j) <= Copies(s, j) { BatchFlow(s, step, j); }
    ShrinkKeepsDistinct(s, s');
    ShrinkKeepsFenced(s, s');
  }

  lemma {:induction false} FrontierKeepsLocal(s: State, step: CommitStep)
    requires CommitLocal(s) && CommitEnabled(s, step)
    requires step.CommitResolve? || step.CommitTake? || step.CommitPersist?
    ensures CommitLocal(CommitApply(s, step))
  {
  }

  lemma {:induction false} CommitKeepsLocal(s: State, step: CommitStep)
    requires Base(s) && CommitEnabled(s, step)
    ensures CommitLocal(CommitApply(s, step))
  {
    if step.CommitResolve? || step.CommitTake? || step.CommitPersist? {
      FrontierKeepsLocal(s, step);
    }
  }

  lemma {:induction false} PersistKeepsLog(s: State)
    requires GateHeld(s) && CommitLocal(s) && LogOrdered(s) && CommitEnabled(s, CommitPersist)
    ensures LogOrdered(CommitApply(s, CommitPersist)) && GateHeld(CommitApply(s, CommitPersist))
  {
    hide KeepEpoch, KeepFrom, ResolvedLiveCommitNextTs;
  }

  lemma {:induction false} CommitKeepsLog(s: State, step: CommitStep)
    requires GateHeld(s) && CommitLocal(s) && LogOrdered(s) && CommitEnabled(s, step)
    ensures LogOrdered(CommitApply(s, step)) && GateHeld(CommitApply(s, step))
  {
    if step.CommitPersist? {
      PersistKeepsLog(s);
    } else {
      hide KeepEpoch, KeepFrom, FirstPending, LogOrdered;
      SameLogOrdered(s, CommitApply(s, step));
    }
  }

  lemma CommitLeavesOthers(s: State, step: CommitStep)
    requires CommitEnabled(s, step)
    ensures var s' := CommitApply(s, step);
            && s'.epoch == s.epoch && s'.next == s.next && s'.main == s.main && s'.override == s.override
            && s'.historical == s.historical && s'.batch == s.batch
  {
    hide KeepEpoch, KeepFrom, FirstPending, ResolvedLiveCommitNextTs;
  }

  lemma {:induction false} CommitKeepsBase(s: State, step: CommitStep)
    requires Base(s) && CommitEnabled(s, step)
    ensures Base(CommitApply(s, step))
  {
    var s' := CommitApply(s, step);
    ReceivedIsNew(s);
    CommitAccounts(s, step);
    CommitLeavesOthers(s, step);
    CommitLeavesPrepare(s, step);
    hide CommitApply, CommitEnabled, Copies, Accounts, LogOrdered, GateHeld, JobsDistinct, Fenced, CommitLocal;
    forall j ensures Copies(s', j) <= Copies(s, j) { CommitFlow(s, step, j); }
    ShrinkKeepsDistinct(s, s');
    ShrinkKeepsFenced(s, s');
    CommitKeepsLocal(s, step);
    CommitKeepsLog(s, step);
  }

  lemma {:induction false} RebuildKeepsFenced(s: State, step: RebuildStep)
    requires Base(s) && RebuildEnabled(s, step)
    ensures JobsDistinct(RebuildApply(s, step)) && Fenced(RebuildApply(s, step))
  {
    var s' := RebuildApply(s, step);
    forall j ensures Copies(s', j) == Copies(s, j) && (InFlight(s', j) <==> InFlight(s, j)) { RebuildFlow(s, step, j); }
    ShrinkKeepsDistinct(s, s');
  }

  lemma {:induction false} RebuildKeepsCommitSide(s: State, step: RebuildStep)
    requires GateHeld(s) && CommitLocal(s) && LogOrdered(s) && RebuildEnabled(s, step)
    ensures GateHeld(RebuildApply(s, step)) && CommitLocal(RebuildApply(s, step)) && LogOrdered(RebuildApply(s, step))
  {
    var s' := RebuildApply(s, step);
    assert s'.log == s.log && s'.nextCommit == s.nextCommit && s'.pending == s.pending && s'.commit == s.commit;
    assert s.epoch <= s'.epoch;
    SameLogOrdered(s, s');
  }

  lemma {:induction false} RebuildKeepsPrepare(s: State, step: RebuildStep)
    requires Accounts(s) && PrepareCurrent(s) && RebuildEnabled(s, step)
    ensures Accounts(RebuildApply(s, step)) && PrepareCurrent(RebuildApply(s, step))
  {
    var s' := RebuildApply(s, step);
    assert s'.tasks == s.tasks && s'.prepare == s.prepare && s'.preparePending == s.preparePending;
    assert Accounts(s');
    if s.preparePending == 0 {
      NothingToPrepare(s);
    }
  }

  lemma {:induction false} RebuildKeepsBase(s: State, step: RebuildStep)
    requires Base(s) && RebuildEnabled(s, step)
    ensures Base(RebuildApply(s, step))
  {
    RebuildKeepsFenced(s, step);
    RebuildKeepsCommitSide(s, step);
    RebuildKeepsPrepare(s, step);
  }

  lemma {:induction false} MainGains(s: State, step: MainStep, j: Job)
    requires JobsDistinct(s) && MainEnabled(s, step)
    ensures var s' := MainApply(s, step);
            && Copies(s', j) <= 1
            && (InFlight(s', j) ==> InFlight(s, j) || (j.epoch == s.epoch && s.next <= j.minute < s'.next))
  {
    MainFlow(s, step, j);
    assert Copies(s, j) <= 1 && (InFlight(s, j) ==> j.minute < s.next);
  }

  lemma {:induction false} MainKeepsDistinct(s: State, step: MainStep)
    requires JobsDistinct(s) && Fenced(s) && MainEnabled(s, step)
    ensures JobsDistinct(MainApply(s, step)) && Fenced(MainApply(s, step))
  {
    var s' := MainApply(s, step);
    assert s'.epoch == s.epoch && s'.override == s.override && s.next <= s'.next && !MidRebuild(s) && !MidRebuild(s');
    forall j
      ensures Copies(s', j) <= 1
      ensures InFlight(s', j) ==> InFlight(s, j) || (j.epoch == s.epoch && s.next <= j.minute < s'.next)
    {
      MainGains(s, step, j);
    }
    hide Copies, MainApply;
  }

  lemma {:induction false} MainKeepsPrepare(s: State, step: MainStep)
    requires PrepareCurrent(s) && MainEnabled(s, step)
    ensures PrepareCurrent(MainApply(s, step))
  {
    MainWritesOwn(s, step);
    assert forall t :: t in MainApply(s, step).tasks ==> t in s.tasks || t.epoch == s.epoch;
  }

  lemma {:induction false} MainKeepsBase(s: State, step: MainStep)
    requires Base(s) && MainEnabled(s, step)
    ensures Base(MainApply(s, step))
  {
    MainAccounts(s, step);
    MainKeepsDistinct(s, step);
    MainKeepsPrepare(s, step);
    MainWritesOwn(s, step);
    hide MainApply, Accounts, PrepareCurrent, CommitLocal, LogOrdered, GateHeld, JobsDistinct, Fenced;
    UntouchedCommitSide(s, MainApply(s, step));
  }

  lemma {:induction false} StepKeepsBase(s: State, step: Step)
    requires Base(s) && Enabled(s, step)
    ensures Base(Apply(s, step))
  {
    match step
    case MainDoes(m) => MainKeepsBase(s, m);
    case RebuildDoes(r) => RebuildKeepsBase(s, r);
    case PrepareDoes(p) => PrepareKeepsBase(s, p);
    case ComputeDoes(i, c) => ComputeKeepsBase(s, i, c);
    case CommitDoes(c) => CommitKeepsBase(s, c);
    case BatchDoes(b) => BatchKeepsBase(s, b);
  }

  lemma {:induction false} InitialBase(next: int, frontier: Option<int>, backlog: set<int>)
    ensures Base(InitialState(next, frontier, backlog))
  {
    var s := InitialState(next, frontier, backlog);
    assert s.slots == [SlotIdle, SlotIdle, SlotIdle];
    assert BusySlots(s.slots) == BusySlots(s.slots[1..]) == BusySlots(s.slots[1..][1..]) == 0;
    forall j ensures Copies(s, j) == 0 {
      assert InSlots(s.slots, j) == InSlots(s.slots[1..], j) == InSlots(s.slots[1..][1..], j) == 0;
    }
  }

  lemma {:induction false} RunKeepsBase(s: State, steps: seq<Step>)
    requires Base(s) && CanRun(s, steps)
    ensures Base(After(s, steps))
    decreases |steps|
  {
    if steps == [] {
    } else {
      StepKeepsBase(s, steps[0]);
      RunKeepsBase(Apply(s, steps[0]), steps[1..]);
    }
  }

  /**
   The main loop is the only producer: while it is between two reads with the prepare counter at zero, no other
   task raises either counter, so a pair of reads that finds both at zero is as good as one read of both.
   */
  lemma {:induction false} IdleReadsAsOne(s: State, step: Step)
    requires Base(s) && s.preparePending == 0
    requires Enabled(s, step) && !step.MainDoes? && !step.RebuildDoes?
    ensures var s' := Apply(s, step); s'.preparePending == 0 && s'.readyPending <= s.readyPending
  {
    NothingToPrepare(s);
    match step
    case PrepareDoes(p) =>
    case ComputeDoes(i, c) => assert ComputeApply(s, i, c).readyPending <= s.readyPending;
    case CommitDoes(c) =>
      CommitFrees(s, c);
    case BatchDoes(b) => assert BatchApply(s, b).readyPending == s.readyPending;
  }

  lemma {:induction false} CommitFrees(s: State, step: CommitStep)
    requires CommitEnabled(s, step)
    ensures CommitApply(s, step).readyPending <= s.readyPending
    ensures CommitApply(s, step).preparePending == s.preparePending
  {
    if step.CommitDropStale? || step.CommitResolve? {
      KeptIsSmaller(s.pending, CommitApply(s, step).pending);
    }
  }

  lemma {:induction false} KeptIsSmaller(pending: map<int, nat>, kept: map<int, nat>)
    requires forall m :: m in kept ==> m in pending
    ensures |kept| <= |pending|
  {
    forall m | m in kept.Keys ensures m in pending.Keys { assert m in kept; }
    SubsetSize(kept.Keys, pending.Keys);
    assert |kept| == |kept.Keys| && |pending| == |pending.Keys|;
  }
}
