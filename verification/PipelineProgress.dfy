/**
 What can always still happen: live output resumes after a cutover, a planned minute can be given to the pipeline, and
 from every disciplined state the workers alone can bring all that is in flight to the database.
 */
module PipelineProgress {
  import opened Options
  import opened LivePipeline
  import opened PipelineAccounting
  import opened PipelineFencing
  import opened PipelineLedger
  import opened PipelineOrder

  // ---------------------------------------------------------------- after a cutover

  /**
   Right after a cutover ends the engine publishes again: the pipeline ends at the scheduler's next minute, which is
   what live persistence waits for, and nothing current is in flight.
   */
  lemma {:induction false} CutoverResumes(next: int, frontier: int, backlog: set<int>, steps: seq<Step>)
    requires 2 <= next && DisciplinedRun(InitialState(next, Some(frontier), backlog), steps)
    requires steps != [] && EndsCutover(steps, |steps| - 1)
    ensures CanRun(InitialState(next, Some(frontier), backlog), steps)
    ensures var s := After(InitialState(next, Some(frontier), backlog), steps);
            && s.mode.Publishing? && s.main.MainIdle? && s.gate.GateFree?
            && s.nextCommit.Some? && s.emitEnd == s.next <= Expected(s) <= Max(s.next, frontier + 1)
            && forall m :: frontier < next || frontier < m ==> !InFlight(s, Job(s.epoch, m))
  {
    var s0 := InitialState(next, Some(frontier), backlog);
    var init := steps[..|steps| - 1];
    FromTheStart(next, frontier, backlog, steps);
    InFlightIsExactlyTheInterval(next, frontier, backlog, steps);
    LastStep(s0, steps);
    assert init + steps[|steps| - 1..] == steps;
    PrefixDisciplined(s0, init, steps[|steps| - 1..]);
    FromTheStart(next, frontier, backlog, init);
    MutedExactly(next, Some(frontier), backlog, init);
    RunAccounts(s0, steps);
    FinishResumes(After(s0, init), Max(frontier + 1, next));
  }

  lemma {:induction false} PrefixDisciplined(s: State, init: seq<Step>, rest: seq<Step>)
    requires DisciplinedRun(s, init + rest)
    ensures DisciplinedRun(s, init)
    decreases |init|
  {
    if init == [] {
    } else {
      assert (init + rest)[1..] == init[1..] + rest;
      PrefixDisciplined(Apply(s, init[0]), init[1..], rest);
    }
  }

  lemma {:induction false} FinishResumes(s: State, low: int)
    requires Ordered(s, low) && RebuildEnabled(s, RebuildFinish) && s.main.kind.CatchupCutover?
    ensures var s' := RebuildApply(s, RebuildFinish);
            && s'.mode.Publishing? && s'.main.MainIdle? && s'.gate.GateFree?
            && s'.nextCommit.Some? && s'.emitEnd == s'.next <= Expected(s') <= Max(s'.next, low)
  {
  }

  // ---------------------------------------------------------------- the next minutes can be given

  /** The main loop reads both counters and gives the next minutes to the prepare worker. */
  function Emission(count: nat): seq<Step> {
    [MainDoes(MainLoadReady), MainDoes(MainLoadPrepare), MainDoes(MainEnqueue(count))]
  }

  lemma {:induction false} ThreeSteps(s: State, a: Step, b: Step, c: Step)
    requires Enabled(s, a) && Enabled(Apply(s, a), b) && Enabled(Apply(Apply(s, a), b), c)
    requires Disciplined(s, a) && Disciplined(Apply(s, a), b) && Disciplined(Apply(Apply(s, a), b), c)
    ensures DisciplinedRun(s, [a, b, c]) && CanRun(s, [a, b, c])
    ensures After(s, [a, b, c]) == Apply(Apply(Apply(s, a), b), c)
  {
    hide Enabled, Apply, Disciplined;
    var s1, s2 := Apply(s, a), Apply(Apply(s, a), b);
    var s3 := Apply(s2, c);
    assert [a, b, c][1..] == [b, c] && [b, c][1..] == [c] && [c][1..] == [];
    assert CanRun(s3, []) && DisciplinedRun(s3, []) && After(s3, []) == s3;
    assert CanRun(s2, [c]) && DisciplinedRun(s2, [c]) && After(s2, [c]) == s3;
    assert CanRun(s1, [b, c]) && DisciplinedRun(s1, [b, c]) && After(s1, [b, c]) == s3;
  }

  /** Both counters at zero, the plan offers the whole capacity, and any part of it can be enqueued. */
  lemma {:induction false} EmptyPlan(s: State, count: nat)
    requires Base(s) && s.mode.Publishing? && s.main.MainIdle? && s.readyPending == 0 && s.preparePending == 0
    requires 0 < count <= LIVE_READY_JOB_QUEUE_CAPACITY
    ensures var planned := s.(main := MainPlanned(LIVE_READY_JOB_QUEUE_CAPACITY));
            && Apply(s, MainDoes(MainLoadReady)) == s.(main := MainReadReady(0))
            && Apply(s.(main := MainReadReady(0)), MainDoes(MainLoadPrepare)) == planned
            && Enabled(planned, MainDoes(MainEnqueue(count)))
            && Disciplined(s.(main := MainReadReady(0)), MainDoes(MainLoadPrepare))
            && var given := Apply(planned, MainDoes(MainEnqueue(count)));
               given.main.MainIdle? && given.next == s.next + count && given.epoch == s.epoch
  {
    NothingToPrepare(s);
    assert AvailableLivePipelineSlots(0, 0) == LIVE_READY_JOB_QUEUE_CAPACITY;
    hide JobsDistinct, PrepareCurrent, GateHeld, Fenced, CommitLocal, LogOrdered;
  }

  lemma {:induction false} PlanGives(s: State, count: nat, j: Job)
    requires Base(s) && s.mode.Publishing? && s.main.MainPlanned? && s.preparePending == 0
    requires MainEnabled(s, MainEnqueue(count))
    ensures InFlight(MainApply(s, MainEnqueue(count)), j) <==>
            InFlight(s, j) || (j.epoch == s.epoch && s.next <= j.minute < s.next + count)
  {
    NothingToPrepare(s);
    MainFlow(s, MainEnqueue(count), j);
  }

  /**
   With the engine publishing, idle and empty, any number of minutes up to the capacity can be given to the pipeline,
   and then exactly those are in flight besides what was.
   */
  lemma {:induction false} NextMinutesCanFollow(s: State, low: int, count: nat)
    requires Invariant(s, low) && s.mode.Publishing? && s.main.MainIdle?
    requires s.readyPending == 0 && s.preparePending == 0 && 0 < count <= LIVE_READY_JOB_QUEUE_CAPACITY
    ensures DisciplinedRun(s, Emission(count)) && CanRun(s, Emission(count))
    ensures var s' := After(s, Emission(count));
            && Invariant(s', low) && s'.main.MainIdle? && s'.next == s.next + count
            && forall j :: InFlight(s', j) <==>
                 InFlight(s, j) || (j.epoch == s.epoch && s.next <= j.minute < s.next + count)
  {
    var planned := s.(main := MainPlanned(LIVE_READY_JOB_QUEUE_CAPACITY));
    EmptyPlan(s, count);
    ThreeSteps(s, MainDoes(MainLoadReady), MainDoes(MainLoadPrepare), MainDoes(MainEnqueue(count)));
    RunKeepsInvariant(s, low, Emission(count));
    StepKeepsBase(s, MainDoes(MainLoadReady));
    StepKeepsBase(s.(main := MainReadReady(0)), MainDoes(MainLoadPrepare));
    forall j ensures InFlight(planned, j) <==> InFlight(s, j) {}
    forall j
      ensures InFlight(MainApply(planned, MainEnqueue(count)), j) <==>
              InFlight(s, j) || (j.epoch == s.epoch && s.next <= j.minute < s.next + count)
    {
      PlanGives(planned, count, j);
    }
    hide InFlight, Copies, Invariant, Base, MainApply;
  }

  /**
   Muted, idle and with both counters at zero, the scheduler can be advanced over any number of minutes up to the
   capacity; they become pending, and nothing is given to the pipeline.
   */
  lemma {:induction false} MutedCanAdvance(s: State, count: nat)
    requires Base(s) && s.mode.MutedCatchup? && s.main.MainIdle?
    requires s.readyPending == 0 && s.preparePending == 0 && 0 < count <= LIVE_READY_JOB_QUEUE_CAPACITY
    ensures var run := [MainDoes(MainLoadReady), MainDoes(MainLoadPrepare), MainDoes(MainAdvanceMuted(count))];
            && DisciplinedRun(s, run) && CanRun(s, run)
            && var s' := After(s, run);
               && s'.main.MainIdle? && s'.next == s.next + count && s'.tasks == s.tasks && s'.emitEnd == s.emitEnd
               && MinuteRange(s.next, s.next + count) <= s'.historical
  {
    NothingToPrepare(s);
    assert AvailableLivePipelineSlots(0, 0) == LIVE_READY_JOB_QUEUE_CAPACITY;
    hide JobsDistinct, PrepareCurrent, GateHeld, Fenced, CommitLocal, LogOrdered;
    var s1 := s.(main := MainReadReady(0));
    var s2 := s.(main := MainPlanned(LIVE_READY_JOB_QUEUE_CAPACITY));
    assert Apply(s, MainDoes(MainLoadReady)) == s1 && Apply(s1, MainDoes(MainLoadPrepare)) == s2;
    ThreeSteps(s, MainDoes(MainLoadReady), MainDoes(MainLoadPrepare), MainDoes(MainAdvanceMuted(count)));
  }

  // ---------------------------------------------------------------- the workers can always drain the pipeline

  /** A step of the prepare worker, a compute worker or the commit worker. */
  predicate IsWork(step: Step) { step.PrepareDoes? || step.ComputeDoes? || step.CommitDoes? }

  predicate AllWork(steps: seq<Step>) { forall k :: 0 <= k < |steps| ==> IsWork(steps[k]) }

  function TaskWork(tasks: seq<Task>): nat {
    if tasks == [] then 0 else 17 * |tasks[0].minutes| + 2 + TaskWork(tasks[1..])
  }

  function PrepareWork(p: Prepare): nat {
    match p
    case PrepareReceived(task) => 17 * |task.minutes| + 1
    case PrepareHandoff(_, minutes, counted) => if minutes == [] then 0 else 17 * |minutes| - One(counted)
    case PrepareDelivered(_, rest) => 17 * |rest| + 1
    case _ => 0
  }

  function SlotWork(slot: Slot): nat {
    match slot
    case SlotIdle => 0
    case SlotReceived(_) => 12
    case SlotComputing(_) => 11
    case SlotSending(_) => 10
  }

  function SlotsWork(slots: seq<Slot>): nat {
    if slots == [] then 0 else SlotWork(slots[0]) + SlotsWork(slots[1..])
  }

  function CommitWork(c: Commit): nat {
    match c
    case CommitWaiting => 0
    case CommitReceived(_) => 8
    case CommitEntering => 3
    case CommitResolving(_) => 2
    case CommitDraining(_, _) => 1
    case CommitHolding(_, _, _) => 4
    case CommitGated(_, _, _) => 3
    case CommitPersisting(_, _, _) => 2
  }

  /** How many steps the workers still have in front of them, at most. */
  function Work(s: State): nat {
    TaskWork(s.tasks) + PrepareWork(s.prepare) + 13 * |s.ready| + SlotsWork(s.slots) + 9 * |s.computed|
    + CommitWork(s.commit) + 4 * |s.pending|
  }

  /** Every stage before the commit map is empty, and the commit worker waits. */
  predicate Quiet(s: State) {
    && s.tasks == [] && s.prepare.PrepareIdle? && s.ready == [] && s.computed == [] && s.commit.CommitWaiting?
    && forall k :: 0 <= k < |s.slots| ==> s.slots[k].SlotIdle?
  }

  function CommitNext(s: State): CommitStep
    requires !s.commit.CommitWaiting?
  {
    match s.commit
    case CommitReceived(_) => CommitInsert
    case CommitEntering => CommitDropStale
    case CommitResolving(_) => CommitResolve
    case CommitDraining(_, _) =>
      if s.nextCommit.Some? && s.nextCommit.value in s.pending then CommitTake else CommitReturn
    case CommitHolding(_, _, _) => CommitLockGate
    case CommitGated(_, _, _) => CommitReadEpoch
    case CommitPersisting(_, _, _) => CommitPersist
  }

  /** The commit worker's share of it. */
  function CommitShare(s: State): nat { 9 * |s.computed| + CommitWork(s.commit) + 4 * |s.pending| }

  lemma {:induction false} DropLowersShare(s: State, step: CommitStep)
    requires CommitEnabled(s, step) && (step.CommitDropStale? || step.CommitResolve?)
    ensures CommitShare(CommitApply(s, step)) < CommitShare(s)
  {
    KeptIsSmaller(s.pending, CommitApply(s, step).pending);
    hide KeepEpoch, KeepFrom, FirstPending, ResolvedLiveCommitNextTs;
  }

  lemma {:induction false} CommitLowersShare(s: State)
    requires !s.commit.CommitWaiting? && CommitEnabled(s, CommitNext(s))
    ensures CommitShare(CommitApply(s, CommitNext(s))) < CommitShare(s)
  {
    var step := CommitNext(s);
    if step.CommitDropStale? || step.CommitResolve? {
      DropLowersShare(s, step);
    } else if step.CommitTake? {
      PendingRemoveSize(s.pending, s.nextCommit.value);
    }
  }

  lemma {:induction false} CommitLowersWork(s: State)
    requires !s.commit.CommitWaiting? && CommitEnabled(s, CommitNext(s))
    ensures Work(CommitApply(s, CommitNext(s))) < Work(s)
  {
    CommitLowersShare(s);
    CommitLeavesPrepare(s, CommitNext(s));
    hide CommitApply, CommitNext, TaskWork, SlotsWork, PrepareWork, CommitWork;
  }

  lemma {:induction false} CommitCanMove(s: State)
    requires GateHeld(s) && !HoldsGate(s.main) && !s.commit.CommitWaiting?
    ensures CommitEnabled(s, CommitNext(s)) && Work(CommitApply(s, CommitNext(s))) < Work(s)
  {
    hide Work;
    CommitLowersWork(s);
  }

  lemma {:induction false} SlotsWorkUpdate(slots: seq<Slot>, i: nat, slot: Slot)
    requires i < |slots|
    ensures SlotsWork(slots[i := slot]) + SlotWork(slots[i]) == SlotsWork(slots) + SlotWork(slot)
  {
    if i == 0 {
      assert slots[i := slot][1..] == slots[1..];
    } else {
      SlotsWorkUpdate(slots[1..], i - 1, slot);
      assert slots[i := slot][1..] == slots[1..][i - 1 := slot];
    }
  }

  lemma {:induction false} ComputeLowersWork(s: State, i: nat, step: ComputeStep)
    requires ComputeEnabled(s, i, step)
    ensures Work(ComputeApply(s, i, step)) < Work(s)
  {
    var s' := ComputeApply(s, i, step);
    SlotsWorkUpdate(s.slots, i, s'.slots[i]);
    assert s'.tasks == s.tasks && s'.prepare == s.prepare && s'.commit == s.commit && s'.pending == s.pending;
    hide TaskWork, SlotsWork, PrepareWork, CommitWork;
  }

  lemma {:induction false} ComputeCanMove(s: State, i: nat) returns (step: ComputeStep)
    requires i < |s.slots| && (s.slots[i].SlotIdle? ==> s.ready != []) && s.computed == []
    ensures ComputeEnabled(s, i, step) && Work(ComputeApply(s, i, step)) < Work(s)
  {
    step := match s.slots[i]
      case SlotIdle => ComputeReceive
      case SlotReceived(_) => ComputeReadEpoch
      case SlotComputing(_) => ComputeFinish
      case SlotSending(_) => ComputeSend;
    hide Work;
    ComputeLowersWork(s, i, step);
  }

  lemma {:induction false} PrepareCanMove(s: State) returns (step: PrepareStep)
    requires Base(s) && !s.prepare.PrepareFailed? && s.ready == [] && (s.prepare.PrepareIdle? ==> s.tasks != [])
    ensures PrepareEnabled(s, step) && Work(PrepareApply(s, step)) < Work(s)
  {
    step := match s.prepare
      case PrepareReceived(_) => PrepareReadEpoch
      case PrepareHandoff(_, _, counted) => if counted then PrepareSend else PrepareCount
      case PrepareDelivered(_, _) => PrepareSettle
      case _ => PrepareReceive;
    hide SlotsWork;
  }

  /** Unless all is quiet some worker can take a step that leaves less to do. */
  lemma {:induction false} WorkCanGoOn(s: State) returns (step: Step)
    requires Base(s) && Roomy(s) && !HoldsGate(s.main) && !Quiet(s)
    ensures IsWork(step) && Enabled(s, step) && Work(Apply(s, step)) < Work(s)
  {
    assert GateHeld(s);
    hide Work, Base, GateHeld;
    if !s.commit.CommitWaiting? {
      CommitCanMove(s);
      step := CommitDoes(CommitNext(s));
    } else if s.computed != [] {
      step := CommitDoes(CommitReceive);
      ReceiveLowersWork(s);
    } else if i: nat :| i < |s.slots| && !s.slots[i].SlotIdle? {
      var c := ComputeCanMove(s, i);
      step := ComputeDoes(i, c);
    } else if s.ready != [] {
      assert |s.slots| == LIVE_MATERIALIZE_WORKER_COUNT by { SlotsAreThree(s); }
      var c := ComputeCanMove(s, 0);
      step := ComputeDoes(0, c);
    } else {
      var p := PrepareCanMove(s);
      step := PrepareDoes(p);
    }
  }

  lemma SlotsAreThree(s: State)
    requires Base(s)
    ensures |s.slots| == LIVE_MATERIALIZE_WORKER_COUNT
  {
  }

  lemma {:induction false} ReceiveLowersWork(s: State)
    requires s.commit.CommitWaiting? && s.computed != []
    ensures CommitEnabled(s, CommitReceive) && Work(CommitApply(s, CommitReceive)) < Work(s)
  {
  }

  /** What work leaves alone, and that a current minute it takes out of flight is persisted. */
  ghost predicate Delivers(s: State, s': State, low: int) {
    && s'.main == s.main && s'.next == s.next && s'.emitEnd == s.emitEnd && s'.mode == s.mode
    && s'.epoch == s.epoch && s'.override == s.override && s.persisted <= s'.persisted && s'.historical == s.historical
    && s'.batch == s.batch && s'.owed == s.owed
    && forall m :: low <= m && InFlight(s, Job(s.epoch, m)) ==> InFlight(s', Job(s.epoch, m)) || m in s'.persisted
  }

  lemma {:induction false} CommitDelivers(s: State, low: int, step: CommitStep)
    requires Base(s) && Ordered(s, low) && CommitEnabled(s, step)
    ensures Delivers(s, CommitApply(s, step), low)
  {
    var s' := CommitApply(s, step);
    ReceivedIsNew(s);
    if step.CommitResolve? { ResolveKeepsExpected(s, low); }
    assert s'.main == s.main && s'.next == s.next && s'.emitEnd == s.emitEnd && s'.mode == s.mode;
    assert s'.epoch == s.epoch && s'.override == s.override && s'.historical == s.historical;
    assert s'.batch == s.batch && s'.owed == s.owed;
    assert s.persisted <= s'.persisted && (step.CommitPersist? ==> s.commit.job.minute in s'.persisted);
    forall m | low <= m && InFlight(s, Job(s.epoch, m))
      ensures InFlight(s', Job(s.epoch, m)) || m in s'.persisted
    {
      CommitFlow(s, step, Job(s.epoch, m));
      assert step.CommitPersist? || CommitLoss(s, step, Job(s.epoch, m)) == 0;
    }
  }

  lemma {:induction false} StagesKeepJobs(s: State, low: int, step: Step, j: Job)
    requires Invariant(s, low) && (step.PrepareDoes? || step.ComputeDoes?) && Enabled(s, step) && j.epoch == s.epoch
    ensures Copies(Apply(s, step), j) == Copies(s, j)
  {
    hide Copies;
    match step
    case PrepareDoes(p) => if p.PrepareSend? { ReadyChannelHasRoom(s); } PrepareFlow(s, p, j);
    case ComputeDoes(i, c) => ComputeFlow(s, i, c, j);
  }

  lemma {:induction false} WorkDelivers(s: State, low: int, step: Step)
    requires Invariant(s, low) && IsWork(step) && Enabled(s, step)
    ensures Delivers(s, Apply(s, step), low) && Disciplined(s, step)
  {
    if step.CommitDoes? {
      hide CommitApply, Delivers;
      CommitDelivers(s, low, step.commit);
    } else {
      hide Apply, Copies, Invariant, Enabled;
      WorkersWriteOwn(s, step);
      forall j: Job | j.epoch == s.epoch ensures Copies(Apply(s, step), j) == Copies(s, j) {
        StagesKeepJobs(s, low, step, j);
      }
    }
  }

  lemma {:induction false} DeliversTrans(s: State, m: State, s': State, low: int)
    requires Delivers(s, m, low) && Delivers(m, s', low)
    ensures Delivers(s, s', low)
  {
  }

  /** From every disciplined state outside a rebuild some work alone brings the pipeline to rest. */
  lemma {:induction false} CanComeToRest(s: State, low: int) returns (steps: seq<Step>)
    requires Invariant(s, low) && !HoldsGate(s.main)
    ensures AllWork(steps) && DisciplinedRun(s, steps) && CanRun(s, steps)
    ensures Quiet(After(s, steps)) && Invariant(After(s, steps), low) && Delivers(s, After(s, steps), low)
    decreases Work(s)
  {
    if Quiet(s) {
      steps := [];
    } else {
      var step := WorkCanGoOn(s);
      var s1 := Apply(s, step);
      WorkDelivers(s, low, step);
      StepKeepsInvariant(s, low, step);
      assert s1.main == s.main;
      hide Invariant, Quiet, Work, Apply, Delivers, Disciplined, Enabled;
      var rest := CanComeToRest(s1, low);
      steps := [step] + rest;
      assert steps[1..] == rest;
      DeliversTrans(s, s1, After(s1, rest), low);
    }
  }

  predicate AllCommit(steps: seq<Step>) { forall k :: 0 <= k < |steps| ==> steps[k].CommitDoes? }

  /** A commit call comes back. */
  lemma {:induction false} CallCanReturn(s: State, low: int) returns (steps: seq<Step>)
    requires Invariant(s, low) && !HoldsGate(s.main)
    ensures AllCommit(steps) && DisciplinedRun(s, steps) && CanRun(s, steps)
    ensures var s' := After(s, steps); s'.commit.CommitWaiting? && Invariant(s', low) && Delivers(s, s', low)
    decreases Work(s)
  {
    if s.commit.CommitWaiting? {
      steps := [];
    } else {
      assert GateHeld(s);
      CommitCanMove(s);
      var step := CommitDoes(CommitNext(s));
      var s1 := Apply(s, step);
      WorkDelivers(s, low, step);
      StepKeepsInvariant(s, low, step);
      assert s1.main == s.main;
      hide Invariant, Work, Apply, Delivers, Disciplined, Enabled;
      var rest := CallCanReturn(s1, low);
      steps := [step] + rest;
      assert steps[1..] == rest;
      DeliversTrans(s, s1, After(s1, rest), low);
    }
  }

  /** From rest one more commit call can be made, and it comes back with what is left over. */
  lemma {:induction false} OneMoreCall(s: State, low: int) returns (steps: seq<Step>)
    requires Invariant(s, low) && s.main.MainIdle? && Quiet(s) && low <= Expected(s)
    ensures AllCommit(steps) && DisciplinedRun(s, steps) && CanRun(s, steps)
    ensures var s' := After(s, steps);
            && Invariant(s', low) && Delivers(s, s', low)
            && Drained(s') && s'.commit.CommitWaiting? && s'.pending == map[]
  {
    var step := CommitDoes(CommitNotified);
    var s1 := Apply(s, step);
    assert s1 == s.(commit := CommitEntering) && Drained(s1) && FinalCall(s1);
    WorkDelivers(s, low, step);
    StepKeepsInvariant(s, low, step);
    assert Base(s1) && Expected(s1) == Expected(s) && Enabled(s, step) && Disciplined(s, step);
    hide Invariant, Base, Apply, Delivers, Disciplined, Enabled, Drained, FinalCall;
    var rest := CallCanReturn(s1, low);
    FinalCallEmptiesPending(s1, low, rest);
    RunMovesFrontierUp(s1, rest);
    SameOverride(s1, After(s1, rest), low);
    steps := [step] + rest;
    assert steps[1..] == rest;
    DeliversTrans(s, s1, After(s1, rest), low);
  }

  lemma SameOverride(s: State, s': State, low: int)
    requires Delivers(s, s', low)
    ensures s'.override == s.override
  {
  }

  /**
   Nothing current ever gets stuck: from every disciplined state with the main loop idle and the frontier not behind,
   there is a run of the workers alone after which every stage and the commit map are empty, and every current minute
   that was in flight is persisted.
   */
  lemma {:induction false} CanDeliverAll(s: State, low: int) returns (steps: seq<Step>)
    requires Invariant(s, low) && s.main.MainIdle? && low <= Expected(s)
    ensures AllWork(steps) && CanRun(s, steps)
    ensures var s' := After(s, steps);
            && Invariant(s', low) && Drained(s') && s'.commit.CommitWaiting? && s'.pending == map[]
            && s'.readyPending == 0 && s'.preparePending == 0
            && Delivers(s, s', low)
            && forall m :: low <= m && InFlight(s, Job(s.epoch, m)) ==> m in s'.persisted
  {
    var work := CanComeToRest(s, low);
    var s1 := After(s, work);
    assert Base(s) && s1.main == s.main;
    hide Invariant, Base, Quiet, Drained;
    RunMovesFrontierUp(s, work);
    SameOverride(s, s1, low);
    var call := OneMoreCall(s1, low);
    var s2 := After(s1, call);
    steps := work + call;
    RunConcat(s, work, call);
    DeliversTrans(s, s1, s2, low);
    EmptyPipeline(s2, low);
    NothingInFlight(s, s2, low);
  }

  lemma {:induction false} EmptyPipeline(s: State, low: int)
    requires Invariant(s, low) && Drained(s) && s.commit.CommitWaiting? && s.pending == map[]
    ensures s.readyPending == 0 && s.preparePending == 0
  {
    NoSlotBusy(s.slots);
  }

  lemma {:induction false} NoSlotBusy(slots: seq<Slot>)
    requires forall k :: 0 <= k < |slots| ==> slots[k].SlotIdle?
    ensures BusySlots(slots) == 0
  {
    if slots == [] {
    } else {
      NoSlotBusy(slots[1..]);
    }
  }

  lemma {:induction false} NothingInFlight(s: State, s': State, low: int)
    requires Delivers(s, s', low) && Drained(s') && s'.commit.CommitWaiting? && s'.pending == map[]
    ensures s'.next == s.next && s'.mode == s.mode && s'.epoch == s.epoch
    ensures forall m :: low <= m && InFlight(s, Job(s.epoch, m)) ==> m in s'.persisted
  {
    forall m ensures !InFlight(s', Job(s.epoch, m)) { DrainedIntoPending(s', Job(s.epoch, m)); }
    hide InFlight, Copies;
  }

  /**
   From the start: after every disciplined run that has the main loop idle and the frontier not behind the scheduler,
   all minutes in flight can still be persisted, and then, while publishing, the next ones can follow.
   */
  lemma {:induction false} PublishingNeverSticks(
    next: int, frontier: int, backlog: set<int>, steps: seq<Step>, count: nat) returns (work: seq<Step>)
    requires 2 <= next && DisciplinedRun(InitialState(next, Some(frontier), backlog), steps)
    requires CanRun(InitialState(next, Some(frontier), backlog), steps)
    requires var s := After(InitialState(next, Some(frontier), backlog), steps);
             s.main.MainIdle? && s.nextCommit.Some? && next <= Expected(s)
    requires 0 < count <= LIVE_READY_JOB_QUEUE_CAPACITY
    ensures AllWork(work) && CanRun(After(InitialState(next, Some(frontier), backlog), steps), work)
    ensures var s := After(InitialState(next, Some(frontier), backlog), steps);
            var s' := After(s, work);
            && (forall m :: (frontier < next || frontier < m) && InFlight(s, Job(s.epoch, m)) ==> m in s'.persisted)
            && (forall j :: !InFlight(s', j))
            && (s.mode.Publishing? ==>
                  && CanRun(s', Emission(count))
                  && forall j :: InFlight(After(s', Emission(count)), j) <==>
                       j.epoch == s.epoch && s.next <= j.minute < s.next + count)
  {
    var s := After(InitialState(next, Some(frontier), backlog), steps);
    var low := Max(frontier + 1, next);
    FromTheStart(next, frontier, backlog, steps);
    assert forall m :: InFlight(s, Job(s.epoch, m)) ==> next <= m;
    assert low <= Expected(s);
    hide InitialState, Invariant, EmittedFrom, InFlight, Drained;
    work := CanDeliverAll(s, low);
    var s' := After(s, work);
    forall j ensures !InFlight(s', j) { EmptyMeansNone(s', j); }
    if s.mode.Publishing? {
      NextMinutesCanFollow(s', low, count);
    }
  }

  lemma EmptyMeansNone(s: State, j: Job)
    requires Drained(s) && s.commit.CommitWaiting? && s.pending == map[]
    ensures !InFlight(s, j)
  {
    DrainedIntoPending(s, j);
  }

  // ---------------------------------------------------------------- muted catch-up can always end

  /** The steps of one catch-up cutover. */
  function Cutover(from: int, through: int): seq<Step> {
    [RebuildDoes(RebuildRequest(CatchupCutover, from, through)), RebuildDoes(RebuildLockGate),
     RebuildDoes(RebuildBumpEpoch), RebuildDoes(RebuildMarkHistorical), RebuildDoes(RebuildStoreFrontier),
     RebuildDoes(RebuildFinish)]
  }

  lemma {:induction false} RunOn(s: State, step: Step, rest: seq<Step>)
    requires Enabled(s, step) && Disciplined(s, step) && DisciplinedRun(Apply(s, step), rest)
    requires CanRun(Apply(s, step), rest)
    ensures DisciplinedRun(s, [step] + rest) && CanRun(s, [step] + rest)
    ensures After(s, [step] + rest) == After(Apply(s, step), rest)
  {
    hide Enabled, Disciplined, Apply;
    assert ([step] + rest)[1..] == rest;
  }

  lemma {:induction false} CutoverToMark(s: State, from: int, through: int)
    requires s.main.MainIdle? && s.mode.MutedCatchup? && s.gate.GateFree? && s.preparePending == 0
    requires from <= through && s.emitEnd <= s.next <= through + 1
    ensures var run := Cutover(from, through)[..4];
            && DisciplinedRun(s, run) && CanRun(s, run)
            && After(s, run) == s.(main := RebuildMarked(CatchupCutover, from, through), gate := GateRebuild,
                                   epoch := s.epoch + 1, finalized := true,
                                   historical := Pend(s.historical, from, through))
  {
    var run := Cutover(from, through);
    var s1 := s.(main := RebuildRequested(CatchupCutover, from, through));
    var s2 := s.(main := RebuildGated(CatchupCutover, from, through), gate := GateRebuild);
    var s3 := s2.(main := RebuildBumped(CatchupCutover, from, through), epoch := s.epoch + 1);
    var s4 := s3.(main := RebuildMarked(CatchupCutover, from, through), finalized := true,
                  historical := Pend(s.historical, from, through));
    assert Apply(s, run[0]) == s1 && Apply(s1, run[1]) == s2 && Apply(s2, run[2]) == s3 && Apply(s3, run[3]) == s4;
    assert CanRun(s4, []) && DisciplinedRun(s4, []) && After(s4, []) == s4;
    RunOn(s3, run[3], []);
    RunOn(s2, run[2], [run[3]] + []);
    RunOn(s1, run[1], [run[2]] + ([run[3]] + []));
    RunOn(s, run[0], [run[1]] + ([run[2]] + ([run[3]] + [])));
    assert run[..4] == [run[0]] + ([run[1]] + ([run[2]] + ([run[3]] + [])));
  }

  lemma {:induction false} CutoverFromMark(s: State, from: int, through: int)
    requires s.main == RebuildMarked(CatchupCutover, from, through) && s.next <= through + 1
    ensures var run := Cutover(from, through)[4..];
            && DisciplinedRun(s, run) && CanRun(s, run)
            && var s' := After(s, run);
               && s'.mode.Publishing? && s'.main.MainIdle? && s'.next == through + 1
               && s' == s.(main := MainIdle, gate := GateFree, mode := Publishing, next := through + 1,
                           emitEnd := s'.emitEnd, owed := s'.owed, override := through)
  {
    var run := Cutover(from, through);
    var s5 := Apply(s, run[4]);
    var s6 := Apply(s5, run[5]);
    assert CanRun(s6, []) && DisciplinedRun(s6, []) && After(s6, []) == s6;
    RunOn(s5, run[5], []);
    RunOn(s, run[4], [run[5]] + []);
    assert run[4..] == [run[4]] + ([run[5]] + []);
  }

  lemma {:induction false} DisciplinedConcat(s: State, a: seq<Step>, b: seq<Step>)
    requires DisciplinedRun(s, a) && CanRun(s, a) && DisciplinedRun(After(s, a), b) && CanRun(After(s, a), b)
    ensures DisciplinedRun(s, a + b) && CanRun(s, a + b) && After(s, a + b) == After(After(s, a), b)
    decreases |a|
  {
    if a == [] {
      assert a + b == b;
    } else {
      assert (a + b)[1..] == a[1..] + b;
      DisciplinedConcat(Apply(s, a[0]), a[1..], b);
    }
  }

  /** No output is deleted, none stops being pending, and no job is counted. */
  predicate OutputsKept(s: State, s': State) {
    && s'.persisted == s.persisted && s.historical <= s'.historical && s'.batch == s.batch
    && s'.preparePending == s.preparePending && s'.readyPending == s.readyPending
  }

  /** Under a free gate nothing stands in the way of a cutover. */
  lemma {:induction false} CutoverRuns(s: State, from: int, through: int)
    requires s.main.MainIdle? && s.mode.MutedCatchup? && s.gate.GateFree? && s.preparePending == 0
    requires from <= through && s.emitEnd <= s.next <= through + 1
    ensures DisciplinedRun(s, Cutover(from, through)) && CanRun(s, Cutover(from, through))
    ensures var s' := After(s, Cutover(from, through));
            && s'.mode.Publishing? && s'.main.MainIdle? && s'.next == through + 1
            && MinuteRange(from, through + 1) <= s'.historical
            && OutputsKept(s, s')
  {
    hide DisciplinedRun, CanRun, After, MinuteRange;
    var run := Cutover(from, through);
    CutoverToMark(s, from, through);
    CutoverFromMark(After(s, run[..4]), from, through);
    DisciplinedConcat(s, run[..4], run[4..]);
    assert run[..4] + run[4..] == run;
  }

  /**
   Muted catch-up can always end: from every disciplined state with the main loop idle and the frontier not behind,
   the workers can empty the pipeline, and any cutover that reaches the scheduler can then run to its end, after which
   the engine publishes from the minute after it.
   */
  lemma {:induction false} MutedCanResume(s: State, low: int, from: int, through: int) returns (steps: seq<Step>)
    requires Invariant(s, low) && s.main.MainIdle? && low <= Expected(s) && s.mode.MutedCatchup?
    requires from <= through && s.next <= through + 1
    ensures CanRun(s, steps)
    ensures var s' := After(s, steps);
            && s'.mode.Publishing? && s'.main.MainIdle? && s'.next == through + 1
            && MinuteRange(from, through + 1) <= s'.historical
  {
    var work := CanDeliverAll(s, low);
    var s1 := After(s, work);
    assert Base(s1) && s1.emitEnd <= s1.next;
    GateIsFree(s1);
    CutoverRuns(s1, from, through);
    RunConcat(s, work, Cutover(from, through));
    steps := work + Cutover(from, through);
  }

  lemma GateIsFree(s: State)
    requires Base(s) && Drained(s) && s.commit.CommitWaiting?
    ensures s.gate.GateFree?
  {
  }
}
