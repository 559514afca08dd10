/**
 The interval theorem: what is in flight is exactly what the commit worker still has to persist.
 It needs three disciplines the code does not enforce itself, stated here as conditions on steps.
 */
module PipelineOrder {
  import opened Options
  import opened LivePipeline
  import opened PipelineAccounting
  import opened PipelineFencing

  // ---------------------------------------------------------------- slots

  /** A job being handed over sits in both counters between two of the worker's atomic steps. */
  function Overlap(p: Prepare): nat {
    One(HeadCounted(p) || p.PrepareDelivered?)
  }

  /** Minutes the pipeline really holds, read off the counters at one instant. */
  function Occupancy(s: State): int {
    s.readyPending + s.preparePending - Overlap(s.prepare)
  }

  function Planned(m: Main): nat {
    if m.MainPlanned? then m.slots else 0
  }

  predicate Roomy(s: State) {
    && !s.prepare.PrepareFailed?
    && Occupancy(s) + Planned(s.main) <= LIVE_READY_JOB_QUEUE_CAPACITY
  }

  /**
   The ready counter is loaded before the prepare counter.  The read is harmless when, at the second
   load, the first value still covers the jobs past the prepare worker.
   */
  predicate CoveringRead(s: State, step: Step) {
    step == MainDoes(MainLoadPrepare) && s.main.MainReadReady? ==>
      s.main.ready >= s.readyPending - Overlap(s.prepare)
  }

  /** The condition is exact: a plan made from the two loads fits the pipeline if and only if the read covered. */
  lemma {:induction false} PlanFitsExactly(s: State)
    requires Base(s) && s.main.MainReadReady? && s.main.ready >= 0 && !s.prepare.PrepareFailed?
    requires Occupancy(s) <= LIVE_READY_JOB_QUEUE_CAPACITY
    ensures var s' := MainApply(s, MainLoadPrepare);
            Occupancy(s') + Planned(s'.main) <= LIVE_READY_JOB_QUEUE_CAPACITY
            <==> s'.main.MainIdle? || s.main.ready >= s.readyPending - Overlap(s.prepare)
  {
  }

  /** What the channels, the workers and the commit map hold between them; a job being handed over counts twice. */
  function Held(s: State): nat {
    TaskMinutes(s.tasks) + PrepareLoad(s.prepare) + One(HeadCounted(s.prepare))
    + |s.ready| + BusySlots(s.slots) + |s.computed| + One(CommitHasJob(s.commit)) + |s.pending|
  }

  /** Two loads with nothing between them offer all the room there is, and no plan is made only when there is none. */
  lemma {:induction false} PlanOffersRoom(s: State)
    requires Base(s) && s.main.MainIdle? && !s.prepare.PrepareFailed?
    ensures var s' := MainApply(MainApply(s, MainLoadReady), MainLoadPrepare);
            && Held(s) == Occupancy(s) + Overlap(s.prepare)
            && (s'.main.MainIdle? <==> Held(s) >= LIVE_READY_JOB_QUEUE_CAPACITY)
            && (s'.main.MainPlanned? <==> Held(s) < LIVE_READY_JOB_QUEUE_CAPACITY)
            && (s'.main.MainPlanned? ==> s'.main.slots + Held(s) == LIVE_READY_JOB_QUEUE_CAPACITY)
  {
    hide JobsDistinct, PrepareCurrent, GateHeld, Fenced, CommitLocal, LogOrdered;
  }

  lemma {:induction false} ReadyChannelHasRoom(s: State)
    requires Base(s) && Roomy(s) && HeadCounted(s.prepare)
    ensures |s.ready| < LIVE_READY_JOB_QUEUE_CAPACITY
  {
  }

  lemma {:induction false} CommitKeepsRoomy(s: State, step: CommitStep)
    requires Base(s) && Roomy(s) && CommitEnabled(s, step)
    ensures Roomy(CommitApply(s, step))
  {
    if step.CommitDropStale? || step.CommitResolve? {
      KeptIsSmaller(s.pending, CommitApply(s, step).pending);
    }
  }

  lemma {:induction false} MainKeepsRoomy(s: State, step: MainStep)
    requires Base(s) && Roomy(s) && MainEnabled(s, step) && CoveringRead(s, MainDoes(step))
    ensures Roomy(MainApply(s, step))
  {
    hide JobsDistinct, PrepareCurrent, GateHeld, Fenced, CommitLocal, LogOrdered;
  }

  lemma {:induction false} PrepareKeepsRoomy(s: State, step: PrepareStep)
    requires Base(s) && Roomy(s) && PrepareEnabled(s, step)
    ensures Roomy(PrepareApply(s, step))
  {
    if step.PrepareSend? {
      ReadyChannelHasRoom(s);
    }
    hide JobsDistinct, PrepareCurrent, GateHeld, Fenced, CommitLocal, LogOrdered;
  }

  lemma {:induction false} ComputeKeepsRoomy(s: State, i: nat, step: ComputeStep)
    requires Roomy(s) && ComputeEnabled(s, i, step)
    ensures Roomy(ComputeApply(s, i, step))
  {
  }

  lemma {:induction false} RebuildKeepsRoomy(s: State, step: RebuildStep)
    requires Roomy(s) && RebuildEnabled(s, step)
    ensures Roomy(RebuildApply(s, step))
  {
  }

  lemma {:induction false} BatchKeepsRoomy(s: State, step: BatchStep)
    requires Roomy(s) && BatchEnabled(s, step)
    ensures Roomy(BatchApply(s, step))
  {
    BatchLeavesPipeline(s, step);
  }

  lemma {:induction false} StepKeepsRoomy(s: State, step: Step)
    requires Base(s) && Roomy(s) && Enabled(s, step) && CoveringRead(s, step)
    ensures Roomy(Apply(s, step))
  {
    hide Base, Roomy, MainApply, RebuildApply, PrepareApply, ComputeApply, CommitApply, BatchApply;
    match step
    case MainDoes(m) => MainKeepsRoomy(s, m);
    case RebuildDoes(r) => RebuildKeepsRoomy(s, r);
    case PrepareDoes(p) => PrepareKeepsRoomy(s, p);
    case ComputeDoes(i, c) => ComputeKeepsRoomy(s, i, c);
    case CommitDoes(c) => CommitKeepsRoomy(s, c);
    case BatchDoes(b) => BatchKeepsRoomy(s, b);
  }

  // ---------------------------------------------------------------- the interval

  /** Where the commit worker will resume: its own frontier, or just past the last rebuild. */
  function Expected(s: State): int
    requires s.nextCommit.Some?
  {
    if TsFromMillis(s.override).Some? then Max(s.nextCommit.value, s.override + 1) else s.nextCommit.value
  }

  /** No unpersisted minute given to the pipeline lies past it, and a cutover goes up to the scheduler. */
  predicate ReachesFar(s: State, kind: RebuildKind, through: int) {
    && (s.emitEnd <= through + 1 || (s.nextCommit.Some? && s.emitEnd <= s.nextCommit.value))
    && (kind.CatchupCutover? ==> s.next <= through + 1)
  }

  /** A rebuild reaches every unpersisted minute given to the pipeline, and a cutover reaches the scheduler. */
  predicate ReachingRebuild(s: State, step: Step) {
    step.RebuildDoes? && step.rebuild.RebuildRequest? ==> ReachesFar(s, step.rebuild.kind, step.rebuild.through)
  }

  /**
   A recovery from a leading gap, made while publishing, passes over no minute that live persistence waits for:
   the frontier is set and already there, or it is unset and nothing has been given to the pipeline.
   */
  ghost predicate HarmlessRecovery(s: State, step: Step) {
    step.MainDoes? && step.main.MainRecoverGap? && s.mode.Publishing? ==>
      if s.nextCommit.Some? then step.main.resume <= Expected(s) else forall j :: !InFlight(s, j)
  }

  /** The last minute of the complete run of canonical minutes starting at `from`, not past `upTo`. */
  function LatestContiguousCompleteFrom(complete: set<int>, from: int, upTo: int): Option<int>
    decreases upTo - from
  {
    if from > upTo || from !in complete then None
    else
      var rest := LatestContiguousCompleteFrom(complete, from + 1, upTo);
      if rest.Some? then rest else Some(from)
  }

  /** A rebuild through that minute reaches the scheduler exactly when no minute behind the scheduler is incomplete. */
  lemma {:induction false} RebuildReachesExactly(complete: set<int>, from: int, upTo: int, next: int)
    requires from < next
    ensures var through := LatestContiguousCompleteFrom(complete, from, upTo);
            through.Some? && next <= through.value + 1
            <==> next - 1 <= upTo && MinuteRange(from, next) <= complete
    decreases next - from
  {
    assert from in MinuteRange(from, next);
    if from + 1 < next {
      RebuildReachesExactly(complete, from + 1, upTo, next);
      assert MinuteRange(from, next) == {from} + MinuteRange(from + 1, next);
    } else {
      assert MinuteRange(from, next) == {from};
      ContiguousRunStartsAtFrom(complete, from, upTo);
    }
  }

  lemma {:induction false} ContiguousRunStartsAtFrom(complete: set<int>, from: int, upTo: int)
    ensures var through := LatestContiguousCompleteFrom(complete, from, upTo);
            through.Some? ==> from <= through.value <= upTo
    decreases upTo - from
  {
    if upTo < from {
    } else {
      ContiguousRunStartsAtFrom(complete, from + 1, upTo);
    }
  }

  predicate RebuildReaches(s: State) {
    match s.main
    case RebuildRequested(kind, _, through) => ReachesFar(s, kind, through)
    case RebuildGated(kind, _, through) => ReachesFar(s, kind, through)
    case RebuildBumped(kind, _, through) => ReachesFar(s, kind, through)
    case RebuildMarked(kind, _, through) => ReachesFar(s, kind, through)
    case RebuildStored(kind, _, _) => kind.CatchupCutover? ==> s.emitEnd == s.next
    case _ => true
  }

  /**
   From `low` on, the minutes in flight under the current epoch are exactly [Expected, emitEnd), none during a
   rebuild.  Minutes below `low` are those the frontier excluded from the start.
   */
  ghost predicate InFlightIsInterval(s: State, low: int)
    requires s.nextCommit.Some?
  {
    !MidRebuild(s) ==>
      forall j: Job :: j.epoch == s.epoch && low <= j.minute ==>
        (InFlight(s, j) <==> Expected(s) <= j.minute < s.emitEnd)
  }

  /** emitEnd >= 2 keeps every rebuilt minute positive, so that the override never reads as unset. */
  ghost predicate Ordered(s: State, low: int) {
    && s.nextCommit.Some?
    && 2 <= s.emitEnd <= s.next
    && Expected(s) <= Max(s.emitEnd, low)
    && (s.mode.Publishing? ==> s.emitEnd == s.next)
    && RebuildReaches(s)
    && (s.main.RebuildStored? ==> s.emitEnd <= Expected(s))
    && InFlightIsInterval(s, low)
  }

  // ---------------------------------------------------------------- steps keep the interval

  /** Steps that only move current jobs around, or take stale ones and those below `low` out of flight. */
  ghost predicate KeepsCurrent(s: State, s': State, low: int) {
    forall j: Job :: j.epoch == s.epoch && low <= j.minute ==> (InFlight(s', j) <==> InFlight(s, j))
  }

  lemma {:induction false} MoveKeepsOrdered(s: State, s': State, low: int)
    requires Ordered(s, low) && KeepsCurrent(s, s', low)
    requires s'.epoch == s.epoch && s'.override == s.override && s'.next == s.next && s'.emitEnd == s.emitEnd
    requires s'.mode == s.mode && s'.main == s.main
    requires s'.nextCommit.Some? && s.nextCommit.value <= s'.nextCommit.value && Expected(s') == Expected(s)
    ensures Ordered(s', low)
  {
  }

  lemma {:induction false} PrepareKeepsOrdered(s: State, low: int, step: PrepareStep)
    requires Base(s) && Roomy(s) && Ordered(s, low) && PrepareEnabled(s, step)
    ensures Ordered(PrepareApply(s, step), low)
  {
    if step.PrepareSend? { ReadyChannelHasRoom(s); }
    forall j ensures Copies(PrepareApply(s, step), j) == Copies(s, j) { PrepareFlow(s, step, j); }
    MoveKeepsOrdered(s, PrepareApply(s, step), low);
  }

  lemma {:induction false} ComputeKeepsOrdered(s: State, low: int, i: nat, step: ComputeStep)
    requires Base(s) && Ordered(s, low) && ComputeEnabled(s, i, step)
    ensures Ordered(ComputeApply(s, i, step), low)
  {
    forall j: Job | j.epoch == s.epoch ensures Copies(ComputeApply(s, i, step), j) == Copies(s, j) {
      ComputeFlow(s, i, step, j);
    }
    MoveKeepsOrdered(s, ComputeApply(s, i, step), low);
  }

  lemma {:induction false} BatchKeepsOrdered(s: State, low: int, step: BatchStep)
    requires Base(s) && Ordered(s, low) && BatchEnabled(s, step)
    ensures Ordered(BatchApply(s, step), low)
  {
    forall j ensures Copies(BatchApply(s, step), j) == Copies(s, j) { BatchFlow(s, step, j); }
    MoveKeepsOrdered(s, BatchApply(s, step), low);
  }

  /** Resolving never moves the frontier past the expected minute, so no current job from `low` on is dropped. */
  lemma {:induction false} ResolveKeepsExpected(s: State, low: int)
    requires Base(s) && Ordered(s, low) && CommitEnabled(s, CommitResolve)
    ensures var s' := CommitApply(s, CommitResolve);
            && s'.nextCommit.Some? && Expected(s') == Expected(s)
            && s.nextCommit.value <= s'.nextCommit.value <= Expected(s)
            && forall m :: m in s.pending && s.pending[m] == s.epoch && low <= m ==> m in s'.pending
  {
    forall m | m in s.pending && s.pending[m] == s.epoch && low <= m ensures m >= Expected(s) {
      assert InFlight(s, Job(s.epoch, m));
    }
  }

  /** What is being persisted is the expected minute. */
  lemma {:induction false} PersistsExpected(s: State)
    requires Base(s) && CommitEnabled(s, CommitPersist)
    ensures s.nextCommit.Some? && s.commit.job == Job(s.epoch, Expected(s)) && InFlight(s, s.commit.job)
    ensures !MidRebuild(s)
  {
    assert InFlight(s, s.commit.job);
  }

  lemma {:induction false} PersistKeepsOrdered(s: State, low: int)
    requires Base(s) && Ordered(s, low) && CommitEnabled(s, CommitPersist)
    ensures Ordered(CommitApply(s, CommitPersist), low)
  {
    var s' := CommitApply(s, CommitPersist);
    PersistsExpected(s);
    assert Expected(s') == Expected(s) + 1;
    forall j: Job | j.epoch == s.epoch && low <= j.minute
      ensures InFlight(s', j) <==> Expected(s') <= j.minute < s'.emitEnd
    {
      CommitFlow(s, CommitPersist, j);
      assert Copies(s, j) <= 1;
      assert InFlight(s, j) <==> Expected(s) <= j.minute < s.emitEnd;
    }
  }

  lemma {:induction false} ResolvedFrontierWithin(s: State)
    requires s.nextCommit.Some? && CommitEnabled(s, CommitResolve)
    ensures var s' := CommitApply(s, CommitResolve);
            && s'.nextCommit.Some? && s'.override == s.override
            && s.nextCommit.value <= s'.nextCommit.value <= Expected(s)
  {
    hide KeepFrom, FirstPending;
  }

  /** A commit step other than a persist leaves the expected minute and the main loop's books alone. */
  lemma {:induction false} KeepsExpected(s: State, step: CommitStep)
    requires s.nextCommit.Some? && CommitEnabled(s, step) && !step.CommitPersist?
    ensures var s' := CommitApply(s, step);
            && s'.nextCommit.Some? && Expected(s') == Expected(s) && s.nextCommit.value <= s'.nextCommit.value
            && s'.epoch == s.epoch && s'.override == s.override && s'.next == s.next && s'.emitEnd == s.emitEnd
            && s'.mode == s.mode && s'.main == s.main && s'.log == s.log
  {
    hide KeepEpoch, KeepFrom, FirstPending, ResolvedLiveCommitNextTs;
    if step.CommitResolve? {
      ResolvedFrontierWithin(s);
    }
  }

  lemma {:induction false} CommitKeepsOrdered(s: State, low: int, step: CommitStep)
    requires Base(s) && Ordered(s, low) && CommitEnabled(s, step)
    ensures Ordered(CommitApply(s, step), low)
  {
    var s' := CommitApply(s, step);
    if step.CommitPersist? {
      PersistKeepsOrdered(s, low);
    } else {
      ReceivedIsNew(s);
      KeepsExpected(s, step);
      if step.CommitResolve? { ResolveKeepsExpected(s, low); }
      forall j: Job | j.epoch == s.epoch && low <= j.minute ensures Copies(s', j) == Copies(s, j) {
        CommitFlow(s, step, j);
        assert CommitLoss(s, step, j) == 0;
      }
      hide CommitApply, Copies, Ordered, Base;
      MoveKeepsOrdered(s, s', low);
    }
  }

  lemma {:induction false} RebuildKeepsOrdered(s: State, low: int, step: RebuildStep)
    requires Base(s) && Ordered(s, low) && RebuildEnabled(s, step) && ReachingRebuild(s, RebuildDoes(step))
    ensures Ordered(RebuildApply(s, step), low)
  {
    var s' := RebuildApply(s, step);
    forall j ensures InFlight(s', j) <==> InFlight(s, j) { RebuildFlow(s, step, j); }
  }

  lemma {:induction false} EnqueueKeepsOrdered(s: State, low: int, step: MainStep)
    requires Ordered(s, low) && MainEnabled(s, step) && step.MainEnqueue?
    ensures Ordered(MainApply(s, step), low)
  {
    var s' := MainApply(s, step);
    forall j: Job | j.epoch == s.epoch
      ensures InFlight(s', j) <==> InFlight(s, j) || MainGain(s, step, j) == 1
    {
      MainFlow(s, step, j);
    }
    hide InFlight, Copies;
  }

  lemma {:induction false} MainKeepsOrdered(s: State, low: int, step: MainStep)
    requires Ordered(s, low) && MainEnabled(s, step) && HarmlessRecovery(s, MainDoes(step))
    ensures Ordered(MainApply(s, step), low)
  {
    var s' := MainApply(s, step);
    if step.MainEnqueue? {
      EnqueueKeepsOrdered(s, low, step);
    } else {
      forall j ensures InFlight(s', j) <==> InFlight(s, j) { MainFlow(s, step, j); }
      hide InFlight, Copies;
    }
  }

  // ---------------------------------------------------------------- runs

  /** The disciplines the interval theorem needs of a step. */
  ghost predicate Disciplined(s: State, step: Step) {
    CoveringRead(s, step) && ReachingRebuild(s, step) && HarmlessRecovery(s, step)
  }

  ghost predicate DisciplinedRun(s: State, steps: seq<Step>)
    decreases |steps|
  {
    steps == [] ||
    (Enabled(s, steps[0]) && Disciplined(s, steps[0]) && DisciplinedRun(Apply(s, steps[0]), steps[1..]))
  }

  lemma {:induction false} DisciplinedCanRun(s: State, steps: seq<Step>)
    requires DisciplinedRun(s, steps)
    ensures CanRun(s, steps)
    decreases |steps|
  {
    if steps == [] {
    } else {
      DisciplinedCanRun(Apply(s, steps[0]), steps[1..]);
    }
  }

  ghost predicate Invariant(s: State, low: int) {
    Base(s) && Roomy(s) && Ordered(s, low)
  }

  lemma {:induction false} StepKeepsInvariant(s: State, low: int, step: Step)
    requires Invariant(s, low) && Enabled(s, step) && Disciplined(s, step)
    ensures Invariant(Apply(s, step), low)
  {
    StepKeepsBase(s, step);
    StepKeepsRoomy(s, step);
    hide Base, Roomy, Ordered, MainApply, RebuildApply, PrepareApply, ComputeApply, CommitApply, BatchApply;
    match step
    case MainDoes(m) => MainKeepsOrdered(s, low, m);
    case RebuildDoes(r) => RebuildKeepsOrdered(s, low, r);
    case PrepareDoes(p) => PrepareKeepsOrdered(s, low, p);
    case ComputeDoes(i, c) => ComputeKeepsOrdered(s, low, i, c);
    case CommitDoes(c) => CommitKeepsOrdered(s, low, c);
    case BatchDoes(b) => BatchKeepsOrdered(s, low, b);
  }

  /**
   At the start, exactly: the interval holds from `low` on if and only if `low` is past both the frontier and the
   first scheduled minute, or the frontier is just below the scheduler.
   */
  lemma {:induction false} InitialOrderedExactly(next: int, frontier: int, backlog: set<int>, low: int)
    requires 2 <= next
    ensures Ordered(InitialState(next, Some(frontier), backlog), low) <==>
            Max(frontier + 1, next) <= low || frontier + 1 == next
  {
    var s := InitialState(next, Some(frontier), backlog);
    InitialIsEmpty(next, Some(frontier), backlog);
    if low < Max(frontier + 1, next) && frontier + 1 < next {
      var due := Job(s.epoch, Max(frontier + 1, low));
      assert !InFlight(s, due) && Expected(s) <= due.minute < s.emitEnd;
    }
  }

  lemma {:induction false} InitialIsEmpty(next: int, frontier: Option<int>, backlog: set<int>)
    ensures forall j :: !InFlight(InitialState(next, frontier, backlog), j)
  {
    var s := InitialState(next, frontier, backlog);
    assert s.slots == [SlotIdle, SlotIdle, SlotIdle];
    forall j ensures Copies(s, j) == 0 {
      assert InSlots(s.slots, j) == InSlots(s.slots[1..], j) == InSlots(s.slots[1..][1..], j) == 0;
    }
  }

  lemma {:induction false} InitialInvariant(next: int, frontier: int, backlog: set<int>)
    requires 2 <= next
    ensures Invariant(InitialState(next, Some(frontier), backlog), Max(frontier + 1, next))
  {
    InitialBase(next, Some(frontier), backlog);
    InitialOrderedExactly(next, frontier, backlog, Max(frontier + 1, next));
  }

  lemma {:induction false} RunKeepsInvariant(s: State, low: int, steps: seq<Step>)
    requires Invariant(s, low) && DisciplinedRun(s, steps) && CanRun(s, steps)
    ensures Invariant(After(s, steps), low)
    decreases |steps|
  {
    if steps == [] {
    } else {
      StepKeepsInvariant(s, low, steps[0]);
      RunKeepsInvariant(Apply(s, steps[0]), low, steps[1..]);
    }
  }

  /** What every disciplined run keeps from its start, whichever frontier it starts with. */
  lemma {:induction false} FromTheStart(next: int, frontier: int, backlog: set<int>, steps: seq<Step>)
    requires 2 <= next && DisciplinedRun(InitialState(next, Some(frontier), backlog), steps)
    ensures CanRun(InitialState(next, Some(frontier), backlog), steps)
    ensures var s := After(InitialState(next, Some(frontier), backlog), steps);
            Invariant(s, Max(frontier + 1, next)) && EmittedFrom(s, next) && frontier < s.nextCommit.value
  {
    var s0 := InitialState(next, Some(frontier), backlog);
    DisciplinedCanRun(s0, steps);
    InitialInvariant(next, frontier, backlog);
    RunKeepsInvariant(s0, Max(frontier + 1, next), steps);
    InitialIsEmpty(next, Some(frontier), backlog);
    RunKeepsFence(s0, steps, 0, next - 1, 0);
    RunMovesFrontierUp(s0, steps);
  }

  /**
   The interval theorem, for every set frontier.  At every point of every disciplined interleaving outside a
   rebuild, the minutes in flight under the current epoch are exactly those from max(next_commit, override + 1)
   and the first scheduled minute on, up to the end, which is the scheduler's next minute while publishing.  Only
   where the frontier starts at or past the scheduler are there others: minutes not past that frontier.
   */
  lemma {:induction false} InFlightIsExactlyTheInterval(
    next: int, frontier: int, backlog: set<int>, steps: seq<Step>)
    requires 2 <= next && DisciplinedRun(InitialState(next, Some(frontier), backlog), steps)
    ensures CanRun(InitialState(next, Some(frontier), backlog), steps)
    ensures var s := After(InitialState(next, Some(frontier), backlog), steps);
            && s.nextCommit.Some? && frontier < Expected(s)
            && (s.mode.Publishing? ==> s.emitEnd == s.next)
            && (!MidRebuild(s) ==>
                  forall m :: frontier < next || frontier < m ==>
                    (InFlight(s, Job(s.epoch, m)) <==> Max(Expected(s), next) <= m < s.emitEnd))
  {
    FromTheStart(next, frontier, backlog, steps);
    var s := After(InitialState(next, Some(frontier), backlog), steps);
    forall m | !MidRebuild(s) && (frontier < next || frontier < m)
      ensures InFlight(s, Job(s.epoch, m)) <==> Max(Expected(s), next) <= m < s.emitEnd
    {
      hide InitialState, Copies, InFlight, Base, Roomy;
      assert InFlight(s, Job(s.epoch, m)) ==> next <= m;
    }
  }

  ghost predicate CoveringReadRun(s: State, steps: seq<Step>)
    decreases |steps|
  {
    steps == [] ||
    (Enabled(s, steps[0]) && CoveringRead(s, steps[0]) && CoveringReadRun(Apply(s, steps[0]), steps[1..]))
  }

  lemma {:induction false} RunKeepsRoomy(s: State, steps: seq<Step>)
    requires Base(s) && Roomy(s) && CoveringReadRun(s, steps)
    ensures CanRun(s, steps) && Base(After(s, steps)) && Roomy(After(s, steps))
    decreases |steps|
  {
    if steps == [] {
    } else {
      StepKeepsBase(s, steps[0]);
      StepKeepsRoomy(s, steps[0]);
      RunKeepsRoomy(Apply(s, steps[0]), steps[1..]);
    }
  }

  /** With covering reads alone, whatever rebuilds do, the "unexpectedly full" hand-off failure is unreachable. */
  lemma {:induction false} HandoffNeverFull(next: int, frontier: Option<int>, backlog: set<int>, steps: seq<Step>)
    requires CoveringReadRun(InitialState(next, frontier, backlog), steps)
    ensures CanRun(InitialState(next, frontier, backlog), steps)
    ensures var s := After(InitialState(next, frontier, backlog), steps);
            && !s.prepare.PrepareFailed?
            && (HeadCounted(s.prepare) ==> |s.ready| < LIVE_READY_JOB_QUEUE_CAPACITY)
  {
    InitialBase(next, frontier, backlog);
    RunKeepsRoomy(InitialState(next, frontier, backlog), steps);
    var s := After(InitialState(next, frontier, backlog), steps);
    if HeadCounted(s.prepare) {
      ReadyChannelHasRoom(s);
    }
  }

  lemma {:induction false} TasksAtMostMinutes(tasks: seq<Task>)
    requires forall t :: t in tasks ==> t.minutes != []
    ensures |tasks| <= TaskMinutes(tasks)
  {
    if tasks == [] {
    } else {
      assert tasks[0] in tasks;
      TasksAtMostMinutes(tasks[1..]);
    }
  }

  lemma {:induction false} BusySlotCounts(slots: seq<Slot>, i: nat)
    requires i < |slots| && !slots[i].SlotIdle?
    ensures BusySlots(slots) >= 1
  {
    if i == 0 {
    } else {
      BusySlotCounts(slots[1..], i - 1);
    }
  }

  /** An enqueue that is planned puts its task in the queue. */
  predicate TakesEnqueue(s: State, count: nat) {
    MainEnabled(s, MainEnqueue(count)) ==>
      MainApply(s, MainEnqueue(count)).tasks == s.tasks + [Task(s.epoch, MinuteSeq(s.next, count))]
  }

  /** A compute worker with a finished job can hand it over. */
  predicate TakesComputed(s: State, i: nat) {
    i < |s.slots| && s.slots[i].SlotSending? ==> ComputeEnabled(s, i, ComputeSend)
  }

  /** With covering reads no plan is refused for a full task queue, and no compute worker waits on a full channel. */
  lemma {:induction false} QueuesNeverFull(
    next: int, frontier: Option<int>, backlog: set<int>, steps: seq<Step>, count: nat, i: nat)
    requires CoveringReadRun(InitialState(next, frontier, backlog), steps)
    ensures CanRun(InitialState(next, frontier, backlog), steps)
    ensures var s := After(InitialState(next, frontier, backlog), steps);
            TakesEnqueue(s, count) && TakesComputed(s, i)
  {
    InitialBase(next, frontier, backlog);
    RunKeepsRoomy(InitialState(next, frontier, backlog), steps);
    hide Base, Roomy, After, CanRun, CoveringReadRun, InitialState, TakesEnqueue, TakesComputed;
    QueuesHaveRoom(After(InitialState(next, frontier, backlog), steps), count, i);
  }

  lemma {:induction false} QueuesHaveRoom(s: State, count: nat, i: nat)
    requires Base(s) && Roomy(s)
    ensures TakesEnqueue(s, count) && TakesComputed(s, i)
  {
    TasksAtMostMinutes(s.tasks);
    if i < |s.slots| && s.slots[i].SlotSending? { BusySlotCounts(s.slots, i); }
    hide JobsDistinct, PrepareCurrent, GateHeld, Fenced, CommitLocal, LogOrdered;
  }

  // ---------------------------------------------------------------- shutdown

  /** The main loop has stopped and every stage before the commit map is empty. */
  predicate Drained(s: State) {
    && s.main.MainIdle? && s.tasks == [] && s.prepare.PrepareIdle? && s.ready == [] && s.computed == []
    && forall k :: 0 <= k < |s.slots| ==> s.slots[k].SlotIdle?
  }

  predicate CaughtUp(s: State, seenEpoch: nat, seenOverride: int) {
    && seenEpoch == s.epoch && seenOverride == s.override
    && (forall m :: m in s.pending ==> s.pending[m] == s.epoch)
    && s.nextCommit.Some? && s.nextCommit.value == Expected(s)
  }

  /** The commit worker is inside a call that began after the drain, or has returned from one. */
  ghost predicate FinalCall(s: State) {
    match s.commit
    case CommitWaiting => CaughtUp(s, s.epoch, s.override) && s.nextCommit.value !in s.pending
    case CommitReceived(_) => false
    case CommitEntering => true
    case CommitResolving(e) => e == s.epoch && forall m :: m in s.pending ==> s.pending[m] == e
    case CommitDraining(e, o) => CaughtUp(s, e, o)
    case CommitHolding(job, e, o) => CaughtUp(s, e, o) && job.epoch == s.epoch
    case CommitGated(job, e, o) => CaughtUp(s, e, o) && job.epoch == s.epoch
    case CommitPersisting(job, e, o) => CaughtUp(s, e, o)
  }

  lemma {:induction false} IdleSlotsHoldNothing(slots: seq<Slot>, j: Job)
    requires forall k :: 0 <= k < |slots| ==> slots[k].SlotIdle?
    ensures InSlots(slots, j) == 0
  {
    if slots == [] {
    } else {
      IdleSlotsHoldNothing(slots[1..], j);
    }
  }

  /** After the drain the commit map holds all that is in flight. */
  lemma {:induction false} DrainedIntoPending(s: State, j: Job)
    requires Drained(s) && s.commit.CommitWaiting?
    ensures InFlight(s, j) <==> InPending(s.pending, j)
  {
    IdleSlotsHoldNothing(s.slots, j);
  }

  /**
   What a call made after the drain returns with, exactly: nothing when the expected minute is not before `low`;
   otherwise, from `low` on, every minute given to the pipeline.
   */
  lemma {:induction false} LeftoversExactly(s: State, low: int)
    requires Invariant(s, low) && Drained(s) && s.commit.CommitWaiting? && FinalCall(s)
    ensures if low <= Expected(s) then s.pending == map[]
            else forall m :: low <= m ==> (m in s.pending <==> m < s.emitEnd)
  {
    forall j ensures InFlight(s, j) <==> InPending(s.pending, j) { DrainedIntoPending(s, j); }
    hide InFlight, Copies, Accounts, Roomy;
    forall m | low <= m ensures m in s.pending <==> Expected(s) <= m < s.emitEnd {
      assert InFlight(s, Job(s.epoch, m)) <==> Expected(s) <= m < s.emitEnd;
    }
    var expected := Expected(s);
    assert expected !in s.pending && forall m :: m in s.pending ==> expected < m;
    if low <= expected {
      assert forall m :: m !in s.pending;
    }
  }

  lemma {:induction false} FinalResolve(s: State)
    requires Base(s) && s.nextCommit.Some? && Drained(s) && FinalCall(s) && CommitEnabled(s, CommitResolve)
    ensures FinalCall(CommitApply(s, CommitResolve))
  {
    forall m | m in s.pending ensures s.override < m || TsFromMillis(s.override).None? {
      assert InFlight(s, Job(s.epoch, m));
    }
  }

  lemma {:induction false} StaysDrained(s: State, step: CommitStep)
    requires Drained(s) && CommitEnabled(s, step)
    ensures Drained(CommitApply(s, step))
  {
    CommitLeavesPrepare(s, step);
    hide KeepEpoch, KeepFrom, FirstPending, ResolvedLiveCommitNextTs;
  }

  lemma {:induction false} FinalCallStep(s: State, step: CommitStep)
    requires Base(s) && s.nextCommit.Some? && Drained(s) && FinalCall(s) && CommitEnabled(s, step)
    ensures Drained(CommitApply(s, step)) && FinalCall(CommitApply(s, step))
  {
    StaysDrained(s, step);
    assert CommitLocal(s);
    if step.CommitResolve? {
      FinalResolve(s);
    } else if step.CommitDropStale? {
      hide Base, CommitLocal;
    } else {
      hide Base, KeepEpoch, KeepFrom, FirstPending, ResolvedLiveCommitNextTs;
    }
  }

  /** Every commit call made after the drain returns with exactly those leftovers, however its steps unfold. */
  lemma {:induction false} FinalCallEmptiesPending(s: State, low: int, steps: seq<Step>)
    requires Invariant(s, low) && Drained(s) && FinalCall(s) && CanRun(s, steps)
    requires forall k :: 0 <= k < |steps| ==> steps[k].CommitDoes?
    ensures var s' := After(s, steps);
            && Drained(s') && s'.nextCommit.Some? && s'.emitEnd == s.emitEnd
            && (s'.commit.CommitWaiting? ==>
                  if low <= Expected(s') then s'.pending == map[]
                  else forall m :: low <= m ==> (m in s'.pending <==> m < s'.emitEnd))
    decreases |steps|
  {
    if steps == [] {
      if s.commit.CommitWaiting? {
        LeftoversExactly(s, low);
      }
    } else {
      var step := steps[0].commit;
      StepKeepsInvariant(s, low, steps[0]);
      FinalCallStep(s, step);
      FinalCallEmptiesPending(CommitApply(s, step), low, steps[1..]);
    }
  }

  /** The commit worker's last call of a run, begun after the drain, takes only steps of its own. */
  ghost predicate LastCall(s: State, lastCall: seq<Step>) {
    && Drained(s) && s.commit.CommitEntering? && CanRun(s, lastCall)
    && forall k :: 0 <= k < |lastCall| ==> lastCall[k].CommitDoes?
  }

  /**
   The "uncommitted minute(s)" exit, exactly, for every set frontier: whenever a disciplined run has drained, the
   commit worker's last call returns with nothing if the frontier is not behind the first scheduled minute, and
   otherwise with every minute given to the pipeline.  It is never behind if it did not start there.
   */
  lemma {:induction false} NothingUncommittedAtExit(
    next: int, frontier: int, backlog: set<int>, steps: seq<Step>, lastCall: seq<Step>)
    requires 2 <= next && DisciplinedRun(InitialState(next, Some(frontier), backlog), steps)
    requires CanRun(InitialState(next, Some(frontier), backlog), steps)
    requires LastCall(After(InitialState(next, Some(frontier), backlog), steps), lastCall)
    ensures var s' := After(After(InitialState(next, Some(frontier), backlog), steps), lastCall);
            && s'.nextCommit.Some? && frontier < Expected(s')
            && (s'.commit.CommitWaiting? ==>
                  s'.pending.Keys == if next <= Expected(s') then {} else MinuteRange(next, s'.emitEnd))
  {
    var s := After(InitialState(next, Some(frontier), backlog), steps);
    var s' := After(s, lastCall);
    var low := Max(frontier + 1, next);
    FromTheStart(next, frontier, backlog, steps);
    assert Base(s);
    hide Invariant, InitialState, Drained, Base;
    RunMovesFrontierUp(s, lastCall);
    RunKeepsFence(s, lastCall, 0, next - 1, 0);
    FinalCallEmptiesPending(s, low, lastCall);
    forall m | m in s'.pending ensures next <= m {
      assert InFlight(s', Job(s'.pending[m], m));
    }
  }
}
