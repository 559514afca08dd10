/**
 The coverage theorem: a minute the engine has taken on is never silently lost, whatever the
 interleaving of live work, rebuilds and (possibly aborted) historical materialization batches.
 */
module PipelineCoverage {
  import opened Options
  import opened LivePipeline
  import opened PipelineAccounting
  import opened PipelineLedger
  import opened PipelineOrder

  ghost predicate Covered(s: State, m: int) {
    || m in s.persisted
    || m in s.historical
    || InFlight(s, Job(s.epoch, m))
    || (s.main.RebuildBumped? && s.main.from <= m <= s.main.through)
  }

  /** The minute's outputs depend on its job in flight. */
  ghost predicate OnlyInFlight(s: State, m: int) {
    InFlight(s, Job(s.epoch, m)) && m !in s.persisted && m !in s.historical
  }

  /** A rebuild starts no later than the oldest minute that only the jobs its epoch bump makes stale cover. */
  ghost predicate EarlyRebuild(s: State, step: Step) {
    step.RebuildDoes? && step.rebuild.RebuildRequest? ==>
      forall m :: OnlyInFlight(s, m) ==> step.rebuild.from <= m
  }

  ghost predicate RebuildCoversStale(s: State, low: int) {
    s.main.RebuildRequested? || s.main.RebuildGated? ==>
      forall m :: low <= m && OnlyInFlight(s, m) ==> s.main.from <= m <= s.main.through
  }

  /** A running batch works on pending minutes, and everything owed before it, from `low` on, is already persisted. */
  predicate BatchSound(s: State, low: int) {
    match s.batch
    case NoBatch => true
    case BatchClearing(from, last) =>
      && from <= last < s.next && MinuteRange(from, last + 1) <= s.historical
      && forall m :: m in s.owed && low <= m < from ==> m in s.persisted
    case BatchWriting(from, last, next) =>
      && from <= last < s.next && MinuteRange(from, last + 1) <= s.historical
      && (forall m :: m in s.owed && low <= m < from ==> m in s.persisted)
      && from <= next <= last + 1 && MinuteRange(from, next) <= s.persisted
  }

  predicate HistoricalBehind(s: State) {
    forall m :: m in s.historical ==> m < s.next || (s.main.RebuildMarked? && m <= s.main.through)
  }

  /** A rebuild's range is pending from its mark to its end. */
  predicate MarkedPending(s: State) {
    s.main.RebuildMarked? ==> MinuteRange(s.main.from, s.main.through + 1) <= s.historical
  }

  ghost predicate Coverage(s: State, low: int) {
    && (forall m :: m in s.owed && low <= m ==> Covered(s, m))
    && RebuildCoversStale(s, low)
    && BatchSound(s, low)
    && HistoricalBehind(s)
    && MarkedPending(s)
  }

  lemma {:induction false} MoveKeepsCoverage(s: State, s': State, low: int)
    requires Coverage(s, low) && KeepsCurrent(s, s', low)
    requires s'.epoch == s.epoch && s'.next == s.next && s'.main == s.main && s'.batch == s.batch
    requires s'.owed == s.owed && s'.historical == s.historical && s'.persisted == s.persisted
    ensures Coverage(s', low)
  {
    forall m | m in s'.owed && low <= m ensures Covered(s', m) {
      assert Covered(s, m);
    }
    forall m | low <= m && OnlyInFlight(s', m) ensures OnlyInFlight(s, m) {
      assert InFlight(s', Job(s.epoch, m));
    }
  }

  lemma {:induction false} PrepareKeepsCoverage(s: State, low: int, step: PrepareStep)
    requires Invariant(s, low) && Coverage(s, low) && PrepareEnabled(s, step)
    ensures Coverage(PrepareApply(s, step), low)
  {
    if step.PrepareSend? { ReadyChannelHasRoom(s); }
    forall j ensures Copies(PrepareApply(s, step), j) == Copies(s, j) { PrepareFlow(s, step, j); }
    MoveKeepsCoverage(s, PrepareApply(s, step), low);
  }

  lemma {:induction false} ComputeKeepsCoverage(s: State, low: int, i: nat, step: ComputeStep)
    requires Invariant(s, low) && Coverage(s, low) && ComputeEnabled(s, i, step)
    ensures Coverage(ComputeApply(s, i, step), low)
  {
    var s' := ComputeApply(s, i, step);
    assert s' == s.(slots := s'.slots, ready := s'.ready, computed := s'.computed, readyPending := s'.readyPending);
    forall j: Job | j.epoch == s.epoch && low <= j.minute ensures Copies(s', j) == Copies(s, j) {
      ComputeFlow(s, i, step, j);
    }
    hide ComputeApply, Copies, Invariant, Coverage;
    MoveKeepsCoverage(s, s', low);
  }

  lemma {:induction false} PersistKeepsCoverage(s: State, low: int)
    requires Invariant(s, low) && Coverage(s, low) && CommitEnabled(s, CommitPersist)
    ensures Coverage(CommitApply(s, CommitPersist), low)
  {
    var s' := CommitApply(s, CommitPersist);
    var done := s.commit.job.minute;
    assert s' == s.(commit := s'.commit, gate := s'.gate, persisted := s.persisted + {done}, log := s'.log,
                    readyPending := s'.readyPending, nextCommit := s'.nextCommit);
    forall j ensures InFlight(s', j) ==> InFlight(s, j) { CommitFlow(s, CommitPersist, j); }
    forall m | m != done ensures InFlight(s', Job(s.epoch, m)) <==> InFlight(s, Job(s.epoch, m)) {
      CommitFlow(s, CommitPersist, Job(s.epoch, m));
    }
    hide CommitApply, InFlight, Copies, Invariant;
    forall m | m in s'.owed && low <= m ensures Covered(s', m) {
      assert Covered(s, m);
    }
    forall m | low <= m && OnlyInFlight(s', m) ensures OnlyInFlight(s, m) {
      assert InFlight(s', Job(s.epoch, m));
    }
  }

  lemma {:induction false} CommitKeepsCoverage(s: State, low: int, step: CommitStep)
    requires Invariant(s, low) && Coverage(s, low) && CommitEnabled(s, step)
    ensures Coverage(CommitApply(s, step), low)
  {
    if step.CommitPersist? {
      PersistKeepsCoverage(s, low);
    } else {
      var s' := CommitApply(s, step);
      assert s'.epoch == s.epoch && s'.next == s.next && s'.main == s.main && s'.batch == s.batch;
      assert s'.owed == s.owed && s'.historical == s.historical && s'.persisted == s.persisted;
      ReceivedIsNew(s);
      if step.CommitResolve? { ResolveKeepsExpected(s, low); }
      forall j: Job | j.epoch == s.epoch && low <= j.minute ensures Copies(s', j) == Copies(s, j) {
        CommitFlow(s, step, j);
      }
      hide CommitApply, Copies, Invariant, Coverage;
      MoveKeepsCoverage(s, s', low);
    }
  }

  lemma {:induction false} NoBusySlots(slots: seq<Slot>, j: Job)
    requires BusySlots(slots) == 0
    ensures InSlots(slots, j) == 0
  {
    if slots == [] {
    } else {
      NoBusySlots(slots[1..], j);
    }
  }

  /** Two zero counters mean an empty pipeline. */
  lemma {:induction false} ZeroCountersNothingInFlight(s: State, j: Job)
    requires Base(s) && Roomy(s) && s.preparePending == 0 && s.readyPending == 0
    ensures !InFlight(s, j)
  {
    NothingToPrepare(s);
    NoBusySlots(s.slots, j);
  }

  lemma {:induction false} SpawnKeepsCoverage(s: State, low: int, step: BatchStep)
    requires Invariant(s, low) && Coverage(s, low) && BatchEnabled(s, step) && step.BatchSpawn?
    ensures Coverage(BatchApply(s, step), low)
  {
    forall m | m in s.owed && low <= m < step.from ensures m in s.persisted {
      assert Covered(s, m);
      ZeroCountersNothingInFlight(s, Job(s.epoch, m));
    }
    assert step.to in MinuteRange(step.from, step.to + 1);
    forall m | m in s.owed && low <= m ensures Covered(BatchApply(s, step), m) {
      assert Covered(s, m);
      BatchFlow(s, step, Job(s.epoch, m));
    }
    forall j ensures InFlight(BatchApply(s, step), j) <==> InFlight(s, j) { BatchFlow(s, step, j); }
  }

  lemma {:induction false} BatchKeepsCovered(s: State, low: int, step: BatchStep)
    requires Coverage(s, low) && BatchEnabled(s, step) && !step.BatchSpawn?
    ensures forall m :: m in s.owed && low <= m ==> Covered(BatchApply(s, step), m)
  {
    var s' := BatchApply(s, step);
    BatchLeavesPipeline(s, step);
    forall m | m in s.owed && low <= m ensures Covered(s', m) {
      BatchFlow(s, step, Job(s.epoch, m));
      hide Copies;
      assert Covered(s, m);
      assert s.batch.BatchWriting? && m in MinuteRange(s.batch.from, s.batch.next) ==> m in s.persisted;
      assert s.batch.BatchClearing? && m in MinuteRange(s.batch.from, s.batch.to + 1) ==> m in s.historical;
    }
  }

  lemma {:induction false} BatchKeepsCoverage(s: State, low: int, step: BatchStep)
    requires Invariant(s, low) && Coverage(s, low) && BatchEnabled(s, step) && !step.BatchSpawn?
    ensures Coverage(BatchApply(s, step), low)
  {
    var s' := BatchApply(s, step);
    BatchLeavesPipeline(s, step);
    forall j ensures InFlight(s', j) <==> InFlight(s, j) { BatchFlow(s, step, j); }
    BatchKeepsCovered(s, low, step);
    hide Copies, InFlight, Invariant, Covered;
    forall m | s.main.RebuildRequested? || s.main.RebuildGated?
      ensures OnlyInFlight(s', m) ==> OnlyInFlight(s, m)
    {
      assert s.batch.BatchClearing? && m in MinuteRange(s.batch.from, s.batch.to + 1) ==> m in s.historical;
    }
  }

  /** A rebuild that starts reaches all that only jobs in flight cover. */
  lemma {:induction false} RequestCoversStale(s: State, low: int, step: RebuildStep)
    requires Ordered(s, low) && RebuildEnabled(s, step) && step.RebuildRequest?
    requires ReachingRebuild(s, RebuildDoes(step)) && EarlyRebuild(s, RebuildDoes(step))
    ensures forall m :: low <= m && OnlyInFlight(s, m) ==> step.from <= m <= step.through
  {
    forall m | low <= m && OnlyInFlight(s, m) ensures m <= step.through {
      assert InFlight(s, Job(s.epoch, m));
    }
  }

  lemma {:induction false} RebuildKeepsCovered(s: State, low: int, step: RebuildStep, m: int)
    requires Coverage(s, low) && RebuildEnabled(s, step) && m in RebuildApply(s, step).owed && low <= m
    ensures Covered(RebuildApply(s, step), m)
  {
    var s' := RebuildApply(s, step);
    RebuildFlow(s, step, Job(s.epoch, m));
    assert m in s.owed ==> Covered(s, m);
    assert m !in s.owed ==> step.RebuildStoreFrontier? && m in MinuteRange(s.main.from, s.main.through + 1);
    assert InFlight(s, Job(s.epoch, m)) && m !in s.persisted && m !in s.historical ==> OnlyInFlight(s, m);
    hide InFlight, Copies;
  }

  lemma {:induction false} RebuildKeepsBooks(s: State, low: int, step: RebuildStep)
    requires BatchSound(s, low) && HistoricalBehind(s) && MarkedPending(s) && RebuildEnabled(s, step)
    ensures var s' := RebuildApply(s, step); BatchSound(s', low) && HistoricalBehind(s') && MarkedPending(s')
  {
    var s' := RebuildApply(s, step);
    if step.RebuildMarkHistorical? && s.main.from <= s.main.through {
      forall m ensures m in s'.historical ==> m < s.next || m <= s.main.through {
        PendExactly(s.historical, s.main.from, s.main.through, m);
      }
    }
    assert s'.persisted == s.persisted && s'.batch == s.batch && s.historical <= s'.historical && s.next <= s'.next;
    assert forall m :: m in s'.owed ==> m in s.owed || s.next <= m;
  }

  lemma {:induction false} RebuildKeepsStale(s: State, low: int, step: RebuildStep)
    requires Ordered(s, low) && RebuildCoversStale(s, low) && RebuildEnabled(s, step)
    requires ReachingRebuild(s, RebuildDoes(step)) && EarlyRebuild(s, RebuildDoes(step))
    ensures RebuildCoversStale(RebuildApply(s, step), low)
  {
    var s' := RebuildApply(s, step);
    forall j ensures InFlight(s', j) <==> InFlight(s, j) { RebuildFlow(s, step, j); }
    if step.RebuildRequest? {
      RequestCoversStale(s, low, step);
    }
    hide InFlight, Copies, Ordered;
    forall m | s'.main.RebuildRequested? || s'.main.RebuildGated?
      ensures OnlyInFlight(s', m) ==> OnlyInFlight(s, m)
    {
    }
  }

  lemma {:induction false} RebuildKeepsCoverage(s: State, low: int, step: RebuildStep)
    requires Invariant(s, low) && Coverage(s, low) && RebuildEnabled(s, step)
    requires ReachingRebuild(s, RebuildDoes(step)) && EarlyRebuild(s, RebuildDoes(step))
    ensures Coverage(RebuildApply(s, step), low)
  {
    var s' := RebuildApply(s, step);
    forall m | m in s'.owed && low <= m ensures Covered(s', m) { RebuildKeepsCovered(s, low, step, m); }
    RebuildKeepsBooks(s, low, step);
    RebuildKeepsStale(s, low, step);
    hide Covered, RebuildApply, BatchSound, HistoricalBehind, MarkedPending, RebuildCoversStale;
  }

  lemma {:induction false} MainKeepsCovered(s: State, low: int, step: MainStep, m: int)
    requires Coverage(s, low) && MainEnabled(s, step) && m in MainApply(s, step).owed && low <= m
    ensures Covered(MainApply(s, step), m)
  {
    var s' := MainApply(s, step);
    var j := Job(s.epoch, m);
    MainFlow(s, step, j);
    assert InFlight(s', j) <==> InFlight(s, j) || MainGain(s, step, j) > 0;
    MainLeavesOutputs(s, step);
    assert m in s.owed ==> Covered(s, m);
    hide Copies, InFlight, MainApply, MainEnabled, Coverage;
  }

  /** What a step of the main loop outside rebuilds adds to its books. */
  lemma {:induction false} MainLeavesOutputs(s: State, step: MainStep)
    requires MainEnabled(s, step)
    ensures var s' := MainApply(s, step);
            && s'.epoch == s.epoch && s'.persisted == s.persisted && s.historical <= s'.historical
            && !s.main.RebuildBumped? && !s'.main.RebuildBumped?
            && forall m :: m in s'.owed && m !in s.owed ==>
                 m in s'.historical || MainGain(s, step, Job(s.epoch, m)) > 0
  {
  }

  lemma {:induction false} MainKeepsCoverage(s: State, low: int, step: MainStep)
    requires Invariant(s, low) && Coverage(s, low) && MainEnabled(s, step)
    ensures Coverage(MainApply(s, step), low)
  {
    forall m | m in MainApply(s, step).owed && low <= m ensures Covered(MainApply(s, step), m) {
      MainKeepsCovered(s, low, step, m);
    }
    MainKeepsBooks(s, low, step);
    hide Covered, MainApply, Invariant;
  }

  lemma {:induction false} MainKeepsBooks(s: State, low: int, step: MainStep)
    requires BatchSound(s, low) && HistoricalBehind(s) && MainEnabled(s, step)
    ensures var s' := MainApply(s, step); RebuildCoversStale(s', low) && BatchSound(s', low) && HistoricalBehind(s')
  {
    if step.MainAdvanceMuted? {
      forall m ensures m in MainApply(s, step).historical ==> m < s.next + step.count {
        PendExactly(s.historical, s.next, s.next + step.count - 1, m);
      }
    }
  }

  /**
   At the bump, exactly: everything owed from `low` on stays covered if and only if the rebuild takes in all that
   only jobs in flight cover.
   */
  lemma {:induction false} BumpCoversExactly(s: State, low: int)
    requires Base(s) && s.main.RebuildGated? && forall m :: m in s.owed && low <= m ==> Covered(s, m)
    ensures (forall m :: m in s.owed && low <= m ==> Covered(RebuildApply(s, RebuildBumpEpoch), m)) <==>
            (forall m :: m in s.owed && low <= m && OnlyInFlight(s, m) ==> s.main.from <= m <= s.main.through)
  {
    var s' := RebuildApply(s, RebuildBumpEpoch);
    forall m ensures !InFlight(s', Job(s'.epoch, m)) {
      RebuildFlow(s, RebuildBumpEpoch, Job(s'.epoch, m));
      assert InFlight(s, Job(s'.epoch, m)) ==> s'.epoch <= s.epoch;
    }
    assert forall m :: Covered(s', m) <==> m in s.persisted || m in s.historical || s.main.from <= m <= s.main.through;
    hide InFlight, Copies, Base, RebuildApply;
  }

  ghost predicate CoveringRun(s: State, steps: seq<Step>)
    decreases |steps|
  {
    steps == [] ||
    (Enabled(s, steps[0]) && Disciplined(s, steps[0]) && EarlyRebuild(s, steps[0])
     && CoveringRun(Apply(s, steps[0]), steps[1..]))
  }

  lemma {:induction false} CoveringIsDisciplined(s: State, steps: seq<Step>)
    requires CoveringRun(s, steps)
    ensures DisciplinedRun(s, steps)
    decreases |steps|
  {
    if steps == [] {
    } else {
      CoveringIsDisciplined(Apply(s, steps[0]), steps[1..]);
    }
  }

  lemma {:induction false} StepKeepsCoverage(s: State, low: int, step: Step)
    requires Invariant(s, low) && Coverage(s, low) && Enabled(s, step) && Disciplined(s, step) && EarlyRebuild(s, step)
    ensures Coverage(Apply(s, step), low)
  {
    hide Invariant, Coverage, MainApply, RebuildApply, PrepareApply, ComputeApply, CommitApply, BatchApply;
    match step
    case MainDoes(m) => MainKeepsCoverage(s, low, m);
    case RebuildDoes(r) => RebuildKeepsCoverage(s, low, r);
    case PrepareDoes(p) => PrepareKeepsCoverage(s, low, p);
    case ComputeDoes(i, c) => ComputeKeepsCoverage(s, low, i, c);
    case CommitDoes(c) => CommitKeepsCoverage(s, low, c);
    case BatchDoes(b) => if b.BatchSpawn? { SpawnKeepsCoverage(s, low, b); } else { BatchKeepsCoverage(s, low, b); }
  }

  lemma {:induction false} RunKeepsCoverage(s: State, low: int, steps: seq<Step>)
    requires Invariant(s, low) && Coverage(s, low) && CoveringRun(s, steps)
    ensures CanRun(s, steps) && Coverage(After(s, steps), low)
    decreases |steps|
  {
    if steps == [] {
    } else {
      StepKeepsInvariant(s, low, steps[0]);
      StepKeepsCoverage(s, low, steps[0]);
      RunKeepsCoverage(Apply(s, steps[0]), low, steps[1..]);
    }
  }

  lemma {:induction false} CoverageFromTheStart(next: int, frontier: int, backlog: set<int>, steps: seq<Step>)
    requires 2 <= next && (forall m :: m in backlog ==> m < next)
    requires CoveringRun(InitialState(next, Some(frontier), backlog), steps)
    ensures CanRun(InitialState(next, Some(frontier), backlog), steps)
    ensures Coverage(After(InitialState(next, Some(frontier), backlog), steps), Max(frontier + 1, next))
  {
    InitialInvariant(next, frontier, backlog);
    RunKeepsCoverage(InitialState(next, Some(frontier), backlog), Max(frontier + 1, next), steps);
  }

  /** A minute the scheduler has moved past, that no step passed over and the starting frontier does not exclude. */
  ghost predicate Due(next: int, frontier: int, backlog: set<int>, steps: seq<Step>, m: int)
    requires CanRun(InitialState(next, Some(frontier), backlog), steps)
  {
    var s0 := InitialState(next, Some(frontier), backlog);
    next <= m < After(s0, steps).next && m !in Passed(s0, steps) && (frontier < next || frontier < m)
  }

  lemma {:induction false} DueIsOwed(next: int, frontier: int, backlog: set<int>, steps: seq<Step>, m: int)
    requires CanRun(InitialState(next, Some(frontier), backlog), steps)
    requires Due(next, frontier, backlog, steps, m)
    ensures m in After(InitialState(next, Some(frontier), backlog), steps).owed && Max(frontier + 1, next) <= m
  {
    EveryMinuteAccounted(next, Some(frontier), backlog, steps);
    hide InitialState, Taken, Passed;
  }

  /**
   The coverage theorem, for every set frontier.  Every minute from the first scheduled one to where the scheduler
   stands is persisted, pending historical materialization, in flight under the current epoch, or inside the rebuild
   that is under way, unless a step passed it over, or the frontier started at or past it.
   */
  lemma {:induction false} NoMinuteLost(next: int, frontier: int, backlog: set<int>, steps: seq<Step>)
    requires 2 <= next && (forall m :: m in backlog ==> m < next)
    requires CoveringRun(InitialState(next, Some(frontier), backlog), steps)
    ensures CanRun(InitialState(next, Some(frontier), backlog), steps)
    ensures forall m :: Due(next, frontier, backlog, steps, m) ==>
              Covered(After(InitialState(next, Some(frontier), backlog), steps), m)
  {
    CoverageFromTheStart(next, frontier, backlog, steps);
    hide Due, Covered, CoveringRun;
    forall m | Due(next, frontier, backlog, steps, m)
      ensures Covered(After(InitialState(next, Some(frontier), backlog), steps), m)
    {
      DueIsOwed(next, frontier, backlog, steps, m);
    }
  }

  /**
   What retiring a finished batch may rely on: all of it pending and written, and nothing owed from `low` on lost
   below it.
   */
  ghost predicate SafeToRetire(s: State, low: int)
    requires BatchEnabled(s, BatchPoll)
  {
    && MinuteRange(s.batch.from, s.batch.to + 1) <= s.persisted * s.historical
    && forall m :: m in s.owed && low <= m && m in s.historical && m !in BatchApply(s, BatchPoll).historical ==>
         m in s.persisted
  }

  lemma {:induction false} FinishedBatchIsSafe(s: State, low: int)
    requires Coverage(s, low) && BatchEnabled(s, BatchPoll)
    ensures SafeToRetire(s, low)
  {
    assert s.batch.next == s.batch.to + 1;
    forall m | m in s.owed && low <= m && m in s.historical && m <= s.batch.to ensures m in s.persisted {
      assert m >= s.batch.from ==> m in MinuteRange(s.batch.from, s.batch.next);
    }
  }

  /**
   A batch retires its minutes only after writing every one of them, and retires no other minute of the run that is
   not written, however many batches were aborted before.
   */
  lemma {:induction false} BatchRetiresAfterWriting(
    next: int, frontier: int, backlog: set<int>, steps: seq<Step>)
    requires 2 <= next && (forall m :: m in backlog ==> m < next)
    requires CoveringRun(InitialState(next, Some(frontier), backlog), steps)
    ensures CanRun(InitialState(next, Some(frontier), backlog), steps)
    ensures var s := After(InitialState(next, Some(frontier), backlog), steps);
            BatchEnabled(s, BatchPoll) ==>
              && MinuteRange(s.batch.from, s.batch.to + 1) <= s.persisted * s.historical
              && forall m ::
                   Due(next, frontier, backlog, steps, m) && m in s.historical - BatchApply(s, BatchPoll).historical ==>
                     m in s.persisted
  {
    CoverageFromTheStart(next, frontier, backlog, steps);
    var s := After(InitialState(next, Some(frontier), backlog), steps);
    if BatchEnabled(s, BatchPoll) {
      FinishedBatchIsSafe(s, Max(frontier + 1, next));
      hide Due, CoveringRun, Coverage;
      forall m | Due(next, frontier, backlog, steps, m) ensures m in s.owed && Max(frontier + 1, next) <= m {
        DueIsOwed(next, frontier, backlog, steps, m);
      }
    }
  }
}
