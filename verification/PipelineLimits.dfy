/**
 Where the pipeline's guarantees end.  Each discipline of PipelineOrder is shown to be needed: what
 the code does on runs that break it, and the exact point at which the guarantee is lost.
 */
module PipelineLimits {
  import opened Options
  import opened LivePipeline
  import opened PipelineAccounting
  import opened PipelineOrder
  import opened PipelineFencing
  import opened PipelineCoverage
  import opened PipelineLedger

  // ---------------------------------------------------------------- building runs

  ghost predicate Reaches(s: State, s': State) {
    exists steps :: CanRun(s, steps) && After(s, steps) == s'
  }

  lemma {:induction false} ReachesTrans(s: State, m: State, s': State)
    requires Reaches(s, m) && Reaches(m, s')
    ensures Reaches(s, s')
  {
    var a :| CanRun(s, a) && After(s, a) == m;
    var b :| CanRun(m, b) && After(m, b) == s';
    RunConcat(s, a, b);
  }

  lemma {:induction false} ReachesStep(s: State, step: Step)
    requires Enabled(s, step)
    ensures Reaches(s, Apply(s, step))
  {
    hide Enabled, Apply;
    assert [step][1..] == [];
    assert CanRun(Apply(s, step), []) && After(Apply(s, step), []) == Apply(s, step);
    assert CanRun(s, [step]) && After(s, [step]) == Apply(s, step);
  }

  /** One more step on the way. */
  lemma {:induction false} Then(s: State, m: State, step: Step) returns (s': State)
    requires Reaches(s, m) && Enabled(m, step)
    ensures s' == Apply(m, step) && Reaches(s, s')
  {
    s' := Apply(m, step);
    ReachesStep(m, step);
    ReachesTrans(s, m, s');
  }

  lemma {:induction false} ReachesItself(s: State)
    ensures Reaches(s, s)
  {
    assert CanRun(s, []) && After(s, []) == s;
  }

  // ---------------------------------------------------------------- the two counter loads

  function JobSeq(epoch: nat, minutes: seq<int>): (jobs: seq<Job>)
    ensures |jobs| == |minutes|
  {
    if minutes == [] then [] else [Job(epoch, minutes[0])] + JobSeq(epoch, minutes[1..])
  }

  function HandedOff(s: State): State
    requires s.prepare.PrepareHandoff?
  {
    s.(prepare := PrepareIdle,
       ready := s.ready + JobSeq(s.prepare.epoch, s.prepare.minutes),
       readyPending := s.readyPending + |s.prepare.minutes|,
       preparePending := s.preparePending - |s.prepare.minutes|)
  }

  lemma {:induction false} HandOffAll(s0: State, s: State)
    requires Reaches(s0, s)
    requires s.prepare.PrepareHandoff? && !s.prepare.counted && s.prepare.minutes != []
    requires |s.ready| + |s.prepare.minutes| <= LIVE_READY_JOB_QUEUE_CAPACITY
    ensures Reaches(s0, HandedOff(s))
    decreases |s.prepare.minutes|
  {
    var minutes, epoch := s.prepare.minutes, s.prepare.epoch;
    var s1 := Then(s0, s, PrepareDoes(PrepareCount));
    var s2 := Then(s0, s1, PrepareDoes(PrepareSend));
    var s3 := Then(s0, s2, PrepareDoes(PrepareSettle));
    assert JobSeq(epoch, minutes) == [Job(epoch, minutes[0])] + JobSeq(epoch, minutes[1..]);
    if |minutes| == 1 {
      assert JobSeq(epoch, minutes[1..]) == [];
      assert s3 == HandedOff(s);
    } else {
      HandOffAll(s0, s3);
      assert s.ready + JobSeq(epoch, minutes) == s3.ready + JobSeq(epoch, minutes[1..]);
      assert HandedOff(s3) == HandedOff(s);
    }
  }

  /**
   The two loads are not one: if a whole prepared batch is handed over between them, the plan counts
   neither side, and the pipeline reaches the "unexpectedly full" failure.
   */
  lemma {:induction false} SplitLoadsOverfill()
    ensures exists s :: Reaches(InitialState(100, Some(99), {}), s) && s.prepare.PrepareFailed?
  {
    var s0 := InitialState(100, Some(99), {});
    ReachesItself(s0);
    var a1 := Then(s0, s0, MainDoes(MainLoadReady));
    var a2 := Then(s0, a1, MainDoes(MainLoadPrepare));
    var a3 := Then(s0, a2, MainDoes(MainEnqueue(8)));
    var a4 := Then(s0, a3, MainDoes(MainLoadReady));
    var a5 := Then(s0, a4, PrepareDoes(PrepareReceive));
    var a6 := Then(s0, a5, PrepareDoes(PrepareReadEpoch));
    HandOffAll(s0, a6);
    SecondBatchOverfills(s0, HandedOff(a6));
  }

  lemma {:induction false} SecondBatchOverfills(s0: State, s: State)
    requires Reaches(s0, s) && s.main == MainReadReady(0) && s.preparePending == 0
    requires s.mode.Publishing? && s.tasks == [] && s.prepare.PrepareIdle?
    requires |s.ready| == LIVE_READY_JOB_QUEUE_CAPACITY
    ensures exists f :: Reaches(s0, f) && f.prepare.PrepareFailed?
  {
    var b1 := Then(s0, s, MainDoes(MainLoadPrepare));
    var b2 := Then(s0, b1, MainDoes(MainEnqueue(8)));
    var b3 := Then(s0, b2, PrepareDoes(PrepareReceive));
    var b4 := Then(s0, b3, PrepareDoes(PrepareReadEpoch));
    var b5 := Then(s0, b4, PrepareDoes(PrepareCount));
    var b6 := Then(s0, b5, PrepareDoes(PrepareSend));
  }

  // ---------------------------------------------------------------- an unset frontier

  lemma {:induction false} LaterPersistsAtOrAbove(s: State, steps: seq<Step>)
    requires Base(s) && CanRun(s, steps) && s.nextCommit.Some?
    ensures var s' := After(s, steps);
            s.log <= s'.log && forall k :: |s.log| <= k < |s'.log| ==> s.nextCommit.value <= s'.log[k].minute
    decreases |steps|
  {
    if steps == [] {
    } else {
      OneEntryPerStep(s, steps[0]);
      StepMovesFrontierUp(s, steps[0]);
      StepKeepsBase(s, steps[0]);
      LaterPersistsAtOrAbove(Apply(s, steps[0]), steps[1..]);
    }
  }

  lemma {:induction false} OneEntryPerStep(s: State, step: Step)
    requires Base(s) && Enabled(s, step)
    ensures Apply(s, step).log == s.log
            || (s.nextCommit.Some? && s.commit.CommitPersisting? && s.commit.job.minute == s.nextCommit.value
                && Apply(s, step).log == s.log + [s.commit.job])
  {
    if step.CommitDoes? {
      var c := step.commit;
      assert c.CommitPersist? || CommitApply(s, c).log == s.log;
    } else {
      OthersLeaveCommitSide(s, step);
    }
  }

  /**
   With no initial frontier the first minute to finish becomes the frontier: a minute below it,
   still being computed, is never persisted by the commit worker in any continuation of the run.
   */
  lemma {:induction false} UnsetFrontierSkipsEarlierMinutes(s: State, first: int, steps: seq<Step>)
    requires Base(s) && s.commit.CommitResolving? && s.nextCommit.None? && TsFromMillis(s.override).None?
    requires FirstPending(s.pending) == Some(first)
    requires CanRun(CommitApply(s, CommitResolve), steps)
    ensures var s' := After(CommitApply(s, CommitResolve), steps);
            forall k :: 0 <= k < |s'.log| ==> first <= s'.log[k].minute
  {
    StepKeepsBase(s, CommitDoes(CommitResolve));
    LaterPersistsAtOrAbove(CommitApply(s, CommitResolve), steps);
  }

  /** From the start, whatever the frontier: two minutes given to the pipeline. */
  lemma {:induction false} TwoMinutesGiven(frontier: Option<int>) returns (s: State)
    ensures Reaches(InitialState(100, frontier, {}), s)
    ensures s == InitialState(100, frontier, {}).(tasks := [Task(1, [100, 101])], preparePending := 2,
                   next := 102, emitEnd := 102, owed := {100, 101})
  {
    var s0 := InitialState(100, frontier, {});
    ReachesItself(s0);
    var a1 := Then(s0, s0, MainDoes(MainLoadReady));
    var a2 := Then(s0, a1, MainDoes(MainLoadPrepare));
    assert MinuteSeq(100, 2) == [100, 101] && MinuteRange(100, 102) == {100, 101};
    s := Then(s0, a2, MainDoes(MainEnqueue(2)));
  }

  /** The two minutes handed to the compute workers. */
  lemma {:induction false} TwoMinutesHandedOver(frontier: Option<int>) returns (s: State)
    ensures Reaches(InitialState(100, frontier, {}), s)
    ensures s == InitialState(100, frontier, {}).(ready := [Job(1, 100), Job(1, 101)], readyPending := 2,
                   next := 102, emitEnd := 102, owed := {100, 101}, finalized := true)
  {
    var s0 := InitialState(100, frontier, {});
    var given := TwoMinutesGiven(frontier);
    hide Reaches, MinuteRange, MinuteSeq;
    var taken := Then(s0, given, PrepareDoes(PrepareReceive));
    var prepared := Then(s0, taken, PrepareDoes(PrepareReadEpoch));
    HandOffAll(s0, prepared);
    s := HandedOff(prepared);
    assert JobSeq(1, [100, 101]) == [Job(1, 100), Job(1, 101)] by {
      assert [100, 101][1..] == [101];
      assert JobSeq(1, [101]) == [Job(1, 101)] + JobSeq(1, [101][1..]);
    }
  }

  /** Such a state is reachable: the later of two minutes finishes first. */
  lemma {:induction false} UnsetFrontierReachable()
    ensures exists s :: Reaches(InitialState(100, None, {}), s)
                        && s.commit.CommitResolving? && s.nextCommit.None? && TsFromMillis(s.override).None?
                        && FirstPending(s.pending) == Some(101) && InFlight(s, Job(s.epoch, 100))
  {
    var s0 := InitialState(100, None, {});
    assert s0.slots == [SlotIdle, SlotIdle, SlotIdle];
    var h := TwoMinutesHandedOver(None);
    LaterMinuteFinishesFirst(s0, h);
  }

  lemma {:induction false} LaterMinuteFinishesFirst(s0: State, h: State)
    requires Reaches(s0, h) && h.ready == [Job(1, 100), Job(1, 101)] && h.epoch == 1
    requires h.slots == [SlotIdle, SlotIdle, SlotIdle] && h.computed == [] && h.commit.CommitWaiting?
    requires h.pending == map[] && h.nextCommit.None? && h.override == 0
    ensures exists s :: Reaches(s0, s)
                        && s.commit.CommitResolving? && s.nextCommit.None? && TsFromMillis(s.override).None?
                        && FirstPending(s.pending) == Some(101) && InFlight(s, Job(s.epoch, 100))
  {
    var c1 := Then(s0, h, ComputeDoes(0, ComputeReceive));
    var c2 := Then(s0, c1, ComputeDoes(1, ComputeReceive));
    var c3 := Then(s0, c2, ComputeDoes(1, ComputeReadEpoch));
    var c4 := Then(s0, c3, ComputeDoes(1, ComputeFinish));
    var c5 := Then(s0, c4, ComputeDoes(1, ComputeSend));
    LaterMinuteCommitsFirst(s0, c5);
  }

  lemma {:induction false} LaterMinuteCommitsFirst(s0: State, c5: State)
    requires Reaches(s0, c5) && c5.epoch == 1 && c5.computed == [Job(1, 101)] && c5.commit.CommitWaiting?
    requires |c5.slots| == 3 && c5.slots[0] == SlotReceived(Job(1, 100))
    requires c5.pending == map[] && c5.nextCommit.None? && c5.override == 0
    ensures exists s :: Reaches(s0, s)
                        && s.commit.CommitResolving? && s.nextCommit.None? && TsFromMillis(s.override).None?
                        && FirstPending(s.pending) == Some(101) && InFlight(s, Job(s.epoch, 100))
  {
    var d1 := Then(s0, c5, CommitDoes(CommitReceive));
    var d2 := Then(s0, d1, CommitDoes(CommitInsert));
    var d3 := Then(s0, d2, CommitDoes(CommitDropStale));
    assert d3.pending == map[101 := 1];
    assert InSlots(d3.slots, Job(1, 100)) >= 1;
  }

  // ---------------------------------------------------------------- a rebuild that stops short

  /**
   After a rebuild, live persistence is up with the scheduler exactly when no unpersisted minute lies past the
   rebuilt range, and not ahead of it unless it was before.
   */
  lemma {:induction false} RebuildResumesExactly(s: State)
    requires Base(s) && s.main.RebuildMarked? && 0 < s.main.through
    requires s.nextCommit.Some? && s.emitEnd == s.next
    ensures var s' := RebuildApply(s, RebuildStoreFrontier);
            && (s'.next <= Expected(s') <==> s.emitEnd <= Max(s.nextCommit.value, s.main.through + 1))
            && (Expected(s) <= s.emitEnd ==> Expected(s') <= s'.next)
  {
  }

  /**
   The commit worker is on its way to minute `hole`, which nothing in flight carries and the scheduler has
   passed.
   */
  ghost predicate Stalled(s: State, hole: int) {
    && s.nextCommit.Some? && Expected(s) <= hole < s.next
    && (s.main.RebuildStored? || !Rebuilding(s.main))
    && !InFlight(s, Job(s.epoch, hole))
  }

  /** What is persisted lies before the hole, and once the hole is reached nothing is. */
  ghost predicate StaysBefore(s: State, s': State, hole: int)
    requires s.nextCommit.Some?
  {
    && s.log <= s'.log
    && (forall k :: |s.log| <= k < |s'.log| ==> s'.log[k].minute < hole)
    && (Expected(s) == hole ==> s'.log == s.log && s'.nextCommit.Some? && Expected(s') == hole)
  }

  lemma {:induction false} ShrinkKeepsStall(s: State, s': State, hole: int)
    requires Stalled(s, hole) && Copies(s', Job(s.epoch, hole)) <= Copies(s, Job(s.epoch, hole))
    requires s'.epoch == s.epoch && s'.next == s.next && s'.main == s.main && s'.log == s.log
    requires s'.nextCommit.Some? && Expected(s') == Expected(s)
    ensures Stalled(s', hole) && StaysBefore(s, s', hole)
  {
  }

  lemma {:induction false} PersistKeepsStall(s: State, hole: int)
    requires Base(s) && Stalled(s, hole) && CommitEnabled(s, CommitPersist)
    ensures Stalled(CommitApply(s, CommitPersist), hole) && StaysBefore(s, CommitApply(s, CommitPersist), hole)
  {
    PersistsExpected(s);
    CommitFlow(s, CommitPersist, Job(s.epoch, hole));
    assert s.commit.job != Job(s.epoch, hole);
    hide InFlight, Copies;
  }

  lemma {:induction false} CommitKeepsStall(s: State, step: CommitStep, hole: int)
    requires Base(s) && Stalled(s, hole) && CommitEnabled(s, step)
    ensures Stalled(CommitApply(s, step), hole) && StaysBefore(s, CommitApply(s, step), hole)
  {
    if step.CommitPersist? {
      PersistKeepsStall(s, hole);
    } else {
      ReceivedIsNew(s);
      CommitFlow(s, step, Job(s.epoch, hole));
      KeepsExpected(s, step);
      hide CommitApply, Copies;
      ShrinkKeepsStall(s, CommitApply(s, step), hole);
    }
  }

  lemma {:induction false} MainKeepsStall(s: State, step: MainStep, hole: int)
    requires Stalled(s, hole) && MainEnabled(s, step)
    ensures Stalled(MainApply(s, step), hole) && StaysBefore(s, MainApply(s, step), hole)
  {
    MainFlow(s, step, Job(s.epoch, hole));
    MainWritesOwn(s, step);
    hide Copies, MainApply;
  }

  lemma {:induction false} RebuildKeepsStall(s: State, step: RebuildStep, hole: int)
    requires Stalled(s, hole) && RebuildEnabled(s, step) && !step.RebuildRequest?
    ensures Stalled(RebuildApply(s, step), hole) && StaysBefore(s, RebuildApply(s, step), hole)
  {
    RebuildFlow(s, step, Job(s.epoch, hole));
    hide Copies;
  }

  lemma {:induction false} WorkersKeepStall(s: State, step: Step, hole: int)
    requires Stalled(s, hole) && Enabled(s, step) && (step.PrepareDoes? || step.ComputeDoes? || step.BatchDoes?)
    ensures Stalled(Apply(s, step), hole) && StaysBefore(s, Apply(s, step), hole)
  {
    var j := Job(s.epoch, hole);
    match step {
      case PrepareDoes(p) => PrepareFlow(s, p, j); WorkersWriteOwn(s, step);
      case ComputeDoes(i, c) => ComputeFlow(s, i, c, j); WorkersWriteOwn(s, step);
      case BatchDoes(b) => BatchFlow(s, b, j); BatchLeavesPipeline(s, b);
    }
    hide Copies, PrepareApply, ComputeApply, BatchApply;
    ShrinkKeepsStall(s, Apply(s, step), hole);
  }

  lemma {:induction false} StepKeepsStall(s: State, step: Step, hole: int)
    requires Base(s) && Stalled(s, hole) && Enabled(s, step)
    requires step.RebuildDoes? ==> !step.rebuild.RebuildRequest?
    ensures Stalled(Apply(s, step), hole) && StaysBefore(s, Apply(s, step), hole)
  {
    hide Base, Stalled, StaysBefore, MainApply, RebuildApply, PrepareApply, ComputeApply, CommitApply, BatchApply;
    match step
    case MainDoes(m) => MainKeepsStall(s, m, hole);
    case RebuildDoes(r) => RebuildKeepsStall(s, r, hole);
    case CommitDoes(c) => CommitKeepsStall(s, c, hole);
    case _ => WorkersKeepStall(s, step, hole);
  }

  /** No rebuild starts among the steps. */
  predicate NoRebuild(steps: seq<Step>) {
    forall k :: 0 <= k < |steps| && steps[k].RebuildDoes? ==> !steps[k].rebuild.RebuildRequest?
  }

  lemma {:induction false} StaysBeforeTrans(s: State, m: State, s': State, hole: int)
    requires s.nextCommit.Some? && m.nextCommit.Some?
    requires StaysBefore(s, m, hole) && StaysBefore(m, s', hole)
    ensures StaysBefore(s, s', hole)
  {
    forall k | |s.log| <= k < |s'.log| ensures s'.log[k].minute < hole {
      assert k < |m.log| ==> s'.log[k] == m.log[k];
    }
  }

  /** Without another rebuild the hole is never filled, so live persistence ends there. */
  lemma {:induction false} StallLasts(s: State, hole: int, steps: seq<Step>)
    requires Base(s) && Stalled(s, hole) && CanRun(s, steps) && NoRebuild(steps)
    ensures Stalled(After(s, steps), hole) && StaysBefore(s, After(s, steps), hole)
    decreases |steps|
  {
    if steps == [] {
    } else {
      StepKeepsStall(s, steps[0], hole);
      StepKeepsBase(s, steps[0]);
      hide Base, Apply, InFlight, StaysBefore;
      StallLasts(Apply(s, steps[0]), hole, steps[1..]);
      StaysBeforeTrans(s, Apply(s, steps[0]), After(s, steps), hole);
    }
  }

  lemma {:induction false} ShortRebuildLeavesHole(s: State)
    requires Base(s) && s.main.RebuildMarked? && 0 < s.main.through
    requires s.nextCommit.Some? && s.emitEnd <= s.next
    requires Max(s.nextCommit.value, s.main.through + 1) < s.emitEnd
    ensures var s' := RebuildApply(s, RebuildStoreFrontier);
            s'.log == s.log && s'.nextCommit.Some? && Stalled(s', Expected(s'))
  {
    forall j ensures InFlight(RebuildApply(s, RebuildStoreFrontier), j) <==> InFlight(s, j) {
      RebuildFlow(s, RebuildStoreFrontier, j);
    }
  }

  /**
   A rebuild that stops short of an unpersisted minute stalls live persistence: the scheduler never
   moves back, so no continuation without another rebuild persists anything.
   */
  lemma {:induction false} ShortRebuildStalls(s: State, steps: seq<Step>)
    requires Base(s) && s.main.RebuildMarked? && 0 < s.main.through
    requires s.nextCommit.Some? && s.emitEnd <= s.next
    requires Max(s.nextCommit.value, s.main.through + 1) < s.emitEnd
    requires CanRun(RebuildApply(s, RebuildStoreFrontier), steps) && NoRebuild(steps)
    ensures After(RebuildApply(s, RebuildStoreFrontier), steps).log == s.log
  {
    var s' := RebuildApply(s, RebuildStoreFrontier);
    ShortRebuildLeavesHole(s);
    StepKeepsBase(s, RebuildDoes(RebuildStoreFrontier));
    hide Base, RebuildApply;
    StallLasts(s', Expected(s'), steps);
  }

  // ---------------------------------------------------------------- runs that break a rebuild discipline

  /** Two minutes handed to the compute workers, none of them persisted. */
  ghost predicate TwoHandedOver(s: State) {
    && s.main.MainIdle? && s.preparePending == 0 && s.gate.GateFree? && s.epoch == 1
    && s.nextCommit == Some(100) && s.emitEnd == s.next == 102
    && s.override == 0 && s.ready == [Job(1, 100), Job(1, 101)]
    && s.batch.NoBatch? && s.owed == {100, 101} && s.persisted == {} && s.historical == {}
  }

  lemma {:induction false} TwoHandedOverReachable() returns (s: State)
    ensures Reaches(InitialState(100, Some(99), {}), s) && TwoHandedOver(s)
  {
    s := TwoMinutesHandedOver(Some(99));
  }

  /** The rebuild of one range up to the point where its minutes are marked pending. */
  lemma {:induction false} RebuildUpToMark(s0: State, s: State, from: int, through: int) returns (m: State)
    requires Reaches(s0, s) && s.main.MainIdle? && s.preparePending == 0 && s.gate.GateFree? && from <= through
    ensures Reaches(s0, m) && m.main == RebuildMarked(ConfirmedRepair, from, through)
    ensures m == s.(main := m.main, gate := GateRebuild, epoch := s.epoch + 1,
                    historical := Pend(s.historical, from, through), finalized := true)
  {
    var b1 := Then(s0, s, RebuildDoes(RebuildRequest(ConfirmedRepair, from, through)));
    var b2 := Then(s0, b1, RebuildDoes(RebuildLockGate));
    var b3 := Then(s0, b2, RebuildDoes(RebuildBumpEpoch));
    m := Then(s0, b3, RebuildDoes(RebuildMarkHistorical));
  }

  /** A rebuild that stops short of a minute in flight is reached from the start. */
  lemma {:induction false} ShortRebuildReachable()
    ensures exists s :: Reaches(InitialState(100, Some(99), {}), s) && Base(s)
                        && s.main.RebuildMarked? && 0 < s.main.through && s.nextCommit.Some?
                        && Expected(s) <= s.emitEnd <= s.next
                        && Max(s.nextCommit.value, s.main.through + 1) < s.emitEnd
  {
    var s0 := InitialState(100, Some(99), {});
    var s := TwoHandedOverReachable();
    var m := RebuildUpToMark(s0, s, 100, 100);
    ReachableBase(100, Some(99), {}, m);
  }

  /** Nothing holds the minute, and nothing under way will. */
  ghost predicate Lost(s: State, m: int) {
    && m < s.next && m !in s.persisted && (forall p :: p in s.historical ==> m < p)
    && !InFlight(s, Job(s.epoch, m))
    && (Rebuilding(s.main) ==> m < s.main.from)
    && (!s.batch.NoBatch? ==> !(s.batch.from <= m <= s.batch.to))
  }

  lemma {:induction false} MainKeepsLost(s: State, step: MainStep, m: int)
    requires Lost(s, m) && MainEnabled(s, step)
    ensures Lost(MainApply(s, step), m)
  {
    var s' := MainApply(s, step);
    MainFlow(s, step, Job(s.epoch, m));
    MainWritesOwn(s, step);
    hide MainApply, Copies;
  }

  lemma {:induction false} RebuildKeepsLost(s: State, step: RebuildStep, m: int)
    requires Base(s) && Lost(s, m) && RebuildEnabled(s, step)
    requires step.RebuildRequest? ==> m < step.from
    ensures Lost(RebuildApply(s, step), m)
  {
    var s' := RebuildApply(s, step);
    if step.RebuildMarkHistorical? && s.main.from <= s.main.through {
      forall p ensures p in s'.historical ==> m < p { PendExactly(s.historical, s.main.from, s.main.through, p); }
    }
    RebuildFlow(s, step, Job(s'.epoch, m));
    assert InFlight(s, Job(s'.epoch, m)) ==> s'.epoch <= s.epoch;
  }

  lemma {:induction false} WorkersKeepLost(s: State, step: Step, m: int)
    requires Lost(s, m) && Enabled(s, step) && (step.PrepareDoes? || step.ComputeDoes?)
    ensures Lost(Apply(s, step), m)
  {
    WorkersWriteOwn(s, step);
    match step {
      case PrepareDoes(p) => PrepareFlow(s, p, Job(s.epoch, m));
      case ComputeDoes(i, c) => ComputeFlow(s, i, c, Job(s.epoch, m));
    }
    hide Copies, PrepareApply, ComputeApply;
  }

  lemma {:induction false} CommitKeepsLost(s: State, step: CommitStep, m: int)
    requires Base(s) && Lost(s, m) && CommitEnabled(s, step)
    ensures Lost(CommitApply(s, step), m)
  {
    var s' := CommitApply(s, step);
    ReceivedIsNew(s);
    CommitFlow(s, step, Job(s.epoch, m));
    assert step.CommitPersist? ==> InFlight(s, s.commit.job) && s.commit.job.epoch == s.epoch;
    assert s'.persisted == s.persisted || (step.CommitPersist? && s'.persisted == s.persisted + {s.commit.job.minute});
    CommitLeavesOthers(s, step);
    hide CommitApply, Copies, Base;
  }

  lemma {:induction false} BatchKeepsLost(s: State, step: BatchStep, m: int)
    requires Lost(s, m) && BatchEnabled(s, step)
    requires s.batch.BatchWriting? ==> s.batch.from <= s.batch.next
    ensures Lost(BatchApply(s, step), m)
  {
    BatchFlow(s, step, Job(s.epoch, m));
    if step.BatchSpawn? {
      assert m !in MinuteRange(step.from, step.to + 1);
    }
  }

  /** The batch writes upwards from its start. */
  predicate BatchForward(s: State) { s.batch.BatchWriting? ==> s.batch.from <= s.batch.next }

  lemma {:induction false} StepKeepsLost(s: State, step: Step, m: int)
    requires Base(s) && BatchForward(s) && Lost(s, m) && Enabled(s, step)
    requires step.RebuildDoes? && step.rebuild.RebuildRequest? ==> m < step.rebuild.from
    ensures Lost(Apply(s, step), m) && BatchForward(Apply(s, step))
  {
    hide Base, Lost;
    match step
    case MainDoes(x) => MainKeepsLost(s, x, m);
    case RebuildDoes(r) => RebuildKeepsLost(s, r, m);
    case CommitDoes(c) => CommitKeepsLost(s, c, m);
    case BatchDoes(b) => BatchKeepsLost(s, b, m);
    case _ => WorkersKeepLost(s, step, m);
  }

  /** Every rebuild among the steps starts past the minute. */
  predicate PassOver(steps: seq<Step>, m: int) {
    forall k :: 0 <= k < |steps| && steps[k].RebuildDoes? && steps[k].rebuild.RebuildRequest? ==>
      m < steps[k].rebuild.from
  }

  lemma {:induction false} LostForGood(s: State, steps: seq<Step>, m: int)
    requires Base(s) && BatchForward(s) && Lost(s, m) && CanRun(s, steps)
    requires PassOver(steps, m)
    ensures m !in After(s, steps).persisted && m !in After(s, steps).historical
    decreases |steps|
  {
    if steps == [] {
    } else {
      StepKeepsLost(s, steps[0], m);
      StepKeepsBase(s, steps[0]);
      LostForGood(Apply(s, steps[0]), steps[1..], m);
    }
  }

  /**
   A rebuild that starts after a minute in flight loses it: from the start a state is reached in which an
   emitted minute is covered by nothing, and no continuation whose rebuilds all start past it persists it.
   */
  lemma {:induction false} LateRebuildLosesMinute() returns (s: State)
    ensures Reaches(InitialState(100, Some(99), {}), s) && 100 in s.owed && !Covered(s, 100)
    ensures forall steps :: CanRun(s, steps) && PassOver(steps, 100) ==>
              100 !in After(s, steps).persisted && 100 !in After(s, steps).historical
  {
    var s0 := InitialState(100, Some(99), {});
    var h := TwoHandedOverReachable();
    s := RebuildUpToMark(s0, h, 101, 101);
    ReachableBase(100, Some(99), {}, s);
    forall p ensures p in s.historical ==> 100 < p { PendExactly({}, 101, 101, p); }
    assert Lost(s, 100);
    forall steps | CanRun(s, steps) && PassOver(steps, 100)
      ensures 100 !in After(s, steps).persisted && 100 !in After(s, steps).historical
    {
      LostForGood(s, steps, 100);
    }
  }

  lemma {:induction false} ReachableBase(next: int, frontier: Option<int>, backlog: set<int>, s: State)
    requires Reaches(InitialState(next, frontier, backlog), s)
    ensures Base(s)
  {
    var steps :| CanRun(InitialState(next, frontier, backlog), steps)
      && After(InitialState(next, frontier, backlog), steps) == s;
    InitialBase(next, frontier, backlog);
    RunKeepsBase(InitialState(next, frontier, backlog), steps);
  }
}
