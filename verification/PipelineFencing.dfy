/**
 Theorems about every run of the pipeline from its initial state, whatever the initial frontier and
 whatever the rebuilds do.
 */
module PipelineFencing {
  import opened Options
  import opened LivePipeline
  import opened PipelineAccounting
  import opened PipelineLedger

  /** The two atomic counters count exactly the minutes and jobs held by the stages, and never underflow. */
  lemma {:induction false} CounterAccounting(next: int, frontier: Option<int>, backlog: set<int>, steps: seq<Step>)
    requires CanRun(InitialState(next, frontier, backlog), steps)
    ensures var s := After(InitialState(next, frontier, backlog), steps);
            && PrepareCounterExact(s) && ReadyCounterExact(s)
            && 0 <= s.preparePending && 0 <= s.readyPending
  {
    InitialBase(next, frontier, backlog);
    RunKeepsBase(InitialState(next, frontier, backlog), steps);
  }

  /** No minute is ever in flight twice: neither as two copies of a job nor under two epochs. */
  lemma {:induction false} MinuteInFlightOnce(
    next: int, frontier: Option<int>, backlog: set<int>, steps: seq<Step>, j: Job, k: Job)
    requires CanRun(InitialState(next, frontier, backlog), steps)
    ensures var s := After(InitialState(next, frontier, backlog), steps);
            Copies(s, j) <= 1 && (InFlight(s, j) && InFlight(s, k) && j.minute == k.minute ==> j == k)
  {
    InitialBase(next, frontier, backlog);
    RunKeepsBase(InitialState(next, frontier, backlog), steps);
  }

  /** The stale-task branch of the prepare worker is dead, and a rebuild never overlaps prepare work. */
  lemma {:induction false} PrepareTaskNeverStale(next: int, frontier: Option<int>, backlog: set<int>, steps: seq<Step>)
    requires CanRun(InitialState(next, frontier, backlog), steps)
    ensures var s := After(InitialState(next, frontier, backlog), steps);
            && (s.prepare.PrepareReceived? ==> s.prepare.task.epoch == s.epoch)
            && (Rebuilding(s.main) ==> s.tasks == [] && (s.prepare.PrepareIdle? || s.prepare.PrepareFailed?))
  {
    var s := After(InitialState(next, frontier, backlog), steps);
    InitialBase(next, frontier, backlog);
    RunKeepsBase(InitialState(next, frontier, backlog), steps);
    if Rebuilding(s.main) {
      NothingToPrepare(s);
    }
  }

  // ---------------------------------------------------------------- epoch fencing

  /**
   Since an epoch bump to `epoch` by a rebuild through `through`, when n minutes had been persisted:
   whatever carries the new epoch, in flight or persisted, lies strictly after the rebuilt range.
   */
  ghost predicate BehindFence(s: State, epoch: nat, through: int, n: nat) {
    && epoch <= s.epoch
    && (s.next > through || (MidRebuild(s) && s.main.through == through))
    && (forall j :: InFlight(s, j) && epoch <= j.epoch ==> through < j.minute)
    && n <= |s.log|
    && (forall k :: n <= k < |s.log| ==> epoch <= s.log[k].epoch && through < s.log[k].minute)
  }

  /** Everything in flight or persisted lies at or after `first`. */
  ghost predicate EmittedFrom(s: State, first: int) {
    BehindFence(s, 0, first - 1, 0)
  }

  lemma {:induction false} ShrinkKeepsFence(s: State, s': State, epoch: nat, through: int, n: nat)
    requires BehindFence(s, epoch, through, n) && Shrinks(s, s')
    requires s.epoch <= s'.epoch && s'.log == s.log && s.next <= s'.next
    requires s'.next > through || (MidRebuild(s') && s'.main.through == through)
    ensures BehindFence(s', epoch, through, n)
  {
    forall j ensures InFlight(s', j) ==> InFlight(s, j) {
      assert Copies(s', j) <= Copies(s, j);
    }
  }

  lemma {:induction false} PersistKeepsFence(s: State, epoch: nat, through: int, n: nat)
    requires GateHeld(s) && BehindFence(s, epoch, through, n) && CommitEnabled(s, CommitPersist)
    requires s.nextCommit == Some(s.commit.job.minute)
    ensures BehindFence(CommitApply(s, CommitPersist), epoch, through, n)
  {
    var s' := CommitApply(s, CommitPersist);
    assert InFlight(s, s.commit.job);
    forall j ensures InFlight(s', j) ==> InFlight(s, j) { CommitFlow(s, CommitPersist, j); }
    assert s' == s.(commit := s'.commit, gate := s'.gate, persisted := s'.persisted, log := s.log + [s.commit.job],
                    readyPending := s'.readyPending, nextCommit := s'.nextCommit);
    hide CommitApply, Copies, InFlight;
  }

  lemma {:induction false} CommitKeepsFence(s: State, step: CommitStep, epoch: nat, through: int, n: nat)
    requires Base(s) && BehindFence(s, epoch, through, n) && CommitEnabled(s, step)
    ensures BehindFence(CommitApply(s, step), epoch, through, n)
  {
    if step.CommitPersist? {
      PersistKeepsFence(s, epoch, through, n);
    } else {
      var s' := CommitApply(s, step);
      assert s'.epoch == s.epoch && s'.log == s.log && s'.next == s.next && s'.main == s.main;
      ReceivedIsNew(s);
      forall j ensures Copies(s', j) <= Copies(s, j) { CommitFlow(s, step, j); }
      hide CommitApply, Copies, Base;
      ShrinkKeepsFence(s, s', epoch, through, n);
    }
  }

  lemma {:induction false} MainKeepsFence(s: State, step: MainStep, epoch: nat, through: int, n: nat)
    requires Base(s) && BehindFence(s, epoch, through, n) && MainEnabled(s, step)
    ensures BehindFence(MainApply(s, step), epoch, through, n)
  {
    var s' := MainApply(s, step);
    forall j
      ensures InFlight(s', j) ==> InFlight(s, j) || (j.epoch == s.epoch && s.next <= j.minute < s'.next)
    {
      MainFlow(s, step, j);
    }
  }

  lemma {:induction false} RebuildKeepsFence(s: State, step: RebuildStep, epoch: nat, through: int, n: nat)
    requires BehindFence(s, epoch, through, n) && RebuildEnabled(s, step)
    ensures BehindFence(RebuildApply(s, step), epoch, through, n)
  {
    forall j ensures Copies(RebuildApply(s, step), j) == Copies(s, j) { RebuildFlow(s, step, j); }
    hide Copies;
    ShrinkKeepsFence(s, RebuildApply(s, step), epoch, through, n);
  }

  lemma {:induction false} WorkersKeepFence(s: State, step: Step, epoch: nat, through: int, n: nat)
    requires BehindFence(s, epoch, through, n) && Enabled(s, step)
    requires step.PrepareDoes? || step.ComputeDoes? || step.BatchDoes?
    ensures BehindFence(Apply(s, step), epoch, through, n)
  {
    var s' := Apply(s, step);
    assert s'.epoch == s.epoch && s'.log == s.log && s'.next == s.next && s'.main == s.main;
    forall j ensures Copies(s', j) <= Copies(s, j) {
      match step
      case PrepareDoes(p) => PrepareFlow(s, p, j);
      case ComputeDoes(i, c) => ComputeFlow(s, i, c, j);
      case BatchDoes(b) => BatchFlow(s, b, j);
    }
    hide Apply, Copies;
    ShrinkKeepsFence(s, s', epoch, through, n);
  }

  lemma {:induction false} StepKeepsFence(s: State, step: Step, epoch: nat, through: int, n: nat)
    requires Base(s) && BehindFence(s, epoch, through, n) && Enabled(s, step)
    ensures BehindFence(Apply(s, step), epoch, through, n)
  {
    hide Base, BehindFence, MainApply, RebuildApply, CommitApply;
    match step
    case MainDoes(m) => MainKeepsFence(s, m, epoch, through, n);
    case RebuildDoes(r) => RebuildKeepsFence(s, r, epoch, through, n);
    case CommitDoes(c) => CommitKeepsFence(s, c, epoch, through, n);
    case _ => WorkersKeepFence(s, step, epoch, through, n);
  }

  lemma {:induction false} RunKeepsFence(s: State, steps: seq<Step>, epoch: nat, through: int, n: nat)
    requires Base(s) && BehindFence(s, epoch, through, n) && CanRun(s, steps)
    ensures BehindFence(After(s, steps), epoch, through, n)
    decreases |steps|
  {
    if steps == [] {
    } else {
      StepKeepsFence(s, steps[0], epoch, through, n);
      StepKeepsBase(s, steps[0]);
      RunKeepsFence(Apply(s, steps[0]), steps[1..], epoch, through, n);
    }
  }

  /** At the bump everything in flight is stale. */
  lemma {:induction false} BumpSetsFence(s: State)
    requires JobsDistinct(s) && s.main.RebuildGated?
    ensures BehindFence(RebuildApply(s, RebuildBumpEpoch), s.epoch + 1, s.main.through, |s.log|)
  {
    var bumped := RebuildApply(s, RebuildBumpEpoch);
    forall j ensures InFlight(bumped, j) ==> j.epoch < bumped.epoch { RebuildFlow(s, RebuildBumpEpoch, j); }
    hide InFlight, Copies;
  }

  /** What a continuation of the run persists after a bump carries a newer epoch and lies past the rebuilt range. */
  lemma {:induction false} BumpFences(s: State, steps: seq<Step>)
    requires Base(s) && s.main.RebuildGated?
    requires CanRun(RebuildApply(s, RebuildBumpEpoch), steps)
    ensures var s' := After(RebuildApply(s, RebuildBumpEpoch), steps);
            && |s.log| <= |s'.log|
            && forall k :: |s.log| <= k < |s'.log| ==> s.epoch < s'.log[k].epoch && s.main.through < s'.log[k].minute
  {
    StepKeepsBase(s, RebuildDoes(RebuildBumpEpoch));
    BumpSetsFence(s);
    hide InFlight, Base, RebuildApply;
    RunKeepsFence(RebuildApply(s, RebuildBumpEpoch), steps, s.epoch + 1, s.main.through, |s.log|);
  }

  /**
   Nothing computed before an epoch bump is persisted after it: wherever a run has taken the gate for a
   rebuild, whatever any continuation persists after the bump carries a newer epoch and is a minute
   strictly after the rebuilt range.
   */
  lemma {:induction false} NoPersistAcrossBump(
    next: int, frontier: Option<int>, backlog: set<int>, before: seq<Step>, afterwards: seq<Step>)
    requires CanRun(InitialState(next, frontier, backlog), before)
    requires var s := After(InitialState(next, frontier, backlog), before);
             s.main.RebuildGated? && CanRun(RebuildApply(s, RebuildBumpEpoch), afterwards)
    ensures var s := After(InitialState(next, frontier, backlog), before);
            var s' := After(RebuildApply(s, RebuildBumpEpoch), afterwards);
            && |s.log| <= |s'.log|
            && forall k :: |s.log| <= k < |s'.log| ==> s.epoch < s'.log[k].epoch && s.main.through < s'.log[k].minute
  {
    hide Base, InitialState, RebuildApply;
    InitialBase(next, frontier, backlog);
    RunKeepsBase(InitialState(next, frontier, backlog), before);
    BumpFences(After(InitialState(next, frontier, backlog), before), afterwards);
  }

  // ---------------------------------------------------------------- commit frontier

  ghost predicate FrontierUp(s: State, s': State) {
    && s.log <= s'.log
    && (s.nextCommit.Some? ==> s'.nextCommit.Some? && s.nextCommit.value <= s'.nextCommit.value)
  }

  lemma {:induction false} CommitMovesFrontierUp(s: State, step: CommitStep)
    requires CommitLocal(s) && CommitEnabled(s, step)
    ensures FrontierUp(s, CommitApply(s, step))
  {
    hide KeepEpoch, KeepFrom, FirstPending;
  }

  lemma {:induction false} StepMovesFrontierUp(s: State, step: Step)
    requires Base(s) && Enabled(s, step)
    ensures FrontierUp(s, Apply(s, step))
  {
    hide MainApply, RebuildApply, PrepareApply, ComputeApply, CommitApply, BatchApply;
    if step.CommitDoes? {
      CommitMovesFrontierUp(s, step.commit);
    } else {
      OthersLeaveCommitSide(s, step);
    }
  }

  lemma {:induction false} RunMovesFrontierUp(s: State, steps: seq<Step>)
    requires Base(s) && CanRun(s, steps)
    ensures FrontierUp(s, After(s, steps)) && LogOrdered(After(s, steps))
    decreases |steps|
  {
    if steps == [] {
    } else {
      StepMovesFrontierUp(s, steps[0]);
      StepKeepsBase(s, steps[0]);
      RunMovesFrontierUp(Apply(s, steps[0]), steps[1..]);
    }
  }

  /**
   Between any two moments of a run the commit frontier does not decrease; live minutes persist strictly
   increasing.
   */
  lemma {:induction false} FrontierMonotone(
    next: int, frontier: Option<int>, backlog: set<int>, before: seq<Step>, afterwards: seq<Step>)
    requires CanRun(InitialState(next, frontier, backlog), before)
    requires CanRun(After(InitialState(next, frontier, backlog), before), afterwards)
    ensures var s := After(InitialState(next, frontier, backlog), before);
            var s' := After(s, afterwards);
            && FrontierUp(s, s')
            && (forall k, l :: 0 <= k < l < |s'.log| ==> s'.log[k].minute < s'.log[l].minute)
  {
    hide Base, InitialState, FrontierUp;
    InitialBase(next, frontier, backlog);
    RunKeepsBase(InitialState(next, frontier, backlog), before);
    RunMovesFrontierUp(After(InitialState(next, frontier, backlog), before), afterwards);
  }

  // ---------------------------------------------------------------- what finalizes a minute

  /** Preparing a minute, advancing over it muted and marking it rebuilt all finalize it in the state store. */
  predicate Finalizes(step: Step) {
    || step == PrepareDoes(PrepareReadEpoch) || step == RebuildDoes(RebuildMarkHistorical)
    || (step.MainDoes? && step.main.MainAdvanceMuted?)
  }

  lemma {:induction false} StepFinalizes(s: State, step: Step)
    requires Base(s) && Enabled(s, step)
    ensures Apply(s, step).finalized <==> s.finalized || Finalizes(step)
  {
    match step
    case MainDoes(m) => assert MainApply(s, m).finalized == (s.finalized || m.MainAdvanceMuted?);
    case RebuildDoes(r) => assert RebuildApply(s, r).finalized == (s.finalized || r.RebuildMarkHistorical?);
    case PrepareDoes(p) => assert PrepareApply(s, p).finalized == (s.finalized || p.PrepareReadEpoch?);
    case ComputeDoes(i, c) => assert ComputeApply(s, i, c).finalized == s.finalized;
    case CommitDoes(c) => assert CommitApply(s, c).finalized == s.finalized;
    case BatchDoes(b) => assert BatchApply(s, b).finalized == s.finalized;
  }

  ghost predicate SomeFinalizes(steps: seq<Step>) { exists k :: 0 <= k < |steps| && Finalizes(steps[k]) }

  lemma {:induction false} SomeFinalizesFirst(steps: seq<Step>)
    requires steps != []
    ensures SomeFinalizes(steps) <==> Finalizes(steps[0]) || SomeFinalizes(steps[1..])
  {
    hide Finalizes;
    var rest := steps[1..];
    if k :| 0 <= k < |rest| && Finalizes(rest[k]) {
      assert Finalizes(steps[k + 1]);
    }
    if k :| 0 <= k < |steps| && Finalizes(steps[k]) {
      assert k > 0 ==> Finalizes(rest[k - 1]);
    }
  }

  lemma {:induction false} RunFinalizes(s: State, steps: seq<Step>)
    requires Base(s) && CanRun(s, steps)
    ensures After(s, steps).finalized <==> s.finalized || SomeFinalizes(steps)
    decreases |steps|
  {
    if steps == [] {
    } else {
      StepFinalizes(s, steps[0]);
      StepKeepsBase(s, steps[0]);
      SomeFinalizesFirst(steps);
      hide Base, Apply, Enabled, Finalizes, SomeFinalizes;
      RunFinalizes(Apply(s, steps[0]), steps[1..]);
    }
  }

  /** Over every run: some minute is finalized once a step has finalized one; only until then is a gap recovered. */
  lemma {:induction false} FinalizedExactly(next: int, frontier: Option<int>, backlog: set<int>, steps: seq<Step>)
    requires CanRun(InitialState(next, frontier, backlog), steps)
    ensures var s := After(InitialState(next, frontier, backlog), steps);
            && (s.finalized <==> SomeFinalizes(steps))
            && forall resume :: MainEnabled(s, MainRecoverGap(resume)) ==> !SomeFinalizes(steps)
  {
    InitialBase(next, frontier, backlog);
    hide Base, SomeFinalizes, After, CanRun;
    RunFinalizes(InitialState(next, frontier, backlog), steps);
  }
}
