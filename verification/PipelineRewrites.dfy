/**
 Rebuilds against running materialization batches.  A batch writes from a snapshot taken when it was spawned;
 stamps on the side tell which rebuild last marked a minute and which epoch the running batch was spawned in.
 */
module PipelineRewrites {
  import opened Options
  import opened LivePipeline
  import opened PipelineAccounting

  /**
   marked: the epoch of the last rebuild that marked a minute pending. spawned: the epoch of the last batch's
   snapshot.
   */
  datatype Stamped = Stamped(state: State, marked: map<int, nat>, spawned: nat)

  function MarkOf(t: Stamped, m: int): nat { if m in t.marked then t.marked[m] else 0 }

  function StampRange(marked: map<int, nat>, from: int, end: int, epoch: nat): map<int, nat> {
    marked + (map m | m in MinuteRange(from, end) :: epoch)
  }

  function StampedApply(t: Stamped, step: Step): Stamped
    requires Enabled(t.state, step)
  {
    Stamped(Apply(t.state, step),
            if step == RebuildDoes(RebuildMarkHistorical)
            then StampRange(t.marked, t.state.main.from, t.state.main.through + 1, t.state.epoch)
            else t.marked,
            if step.BatchDoes? && step.batch.BatchSpawn? then t.state.epoch else t.spawned)
  }

  ghost predicate StampedRun(t: Stamped, steps: seq<Step>)
    decreases |steps|
  {
    steps == [] || (Enabled(t.state, steps[0]) && StampedRun(StampedApply(t, steps[0]), steps[1..]))
  }

  ghost function StampedAfter(t: Stamped, steps: seq<Step>): Stamped
    requires StampedRun(t, steps)
    decreases |steps|
  {
    if steps == [] then t else StampedAfter(StampedApply(t, steps[0]), steps[1..])
  }

  /** Some step of the run marks the minute. */
  ghost predicate MarkedDuring(t: Stamped, steps: seq<Step>, m: int)
    requires StampedRun(t, steps)
    decreases |steps|
  {
    steps != [] &&
    (|| (steps[0] == RebuildDoes(RebuildMarkHistorical) && t.state.main.from <= m <= t.state.main.through)
     || MarkedDuring(StampedApply(t, steps[0]), steps[1..], m))
  }

  predicate SpawnsNone(steps: seq<Step>) {
    forall k :: 0 <= k < |steps| ==> !(steps[k].BatchDoes? && steps[k].batch.BatchSpawn?)
  }

  /** Marks carry past epochs, and a rebuild past its bump is in an epoch newer than a batch spawned before it. */
  ghost predicate StampsPast(t: Stamped) {
    && t.spawned <= t.state.epoch
    && (forall m :: m in t.marked ==> t.marked[m] <= t.state.epoch)
    && (t.state.main.RebuildBumped? ==> t.spawned < t.state.epoch)
  }

  lemma {:induction false} StepKeepsStampsPast(t: Stamped, step: Step)
    requires StampsPast(t) && Enabled(t.state, step)
    ensures StampsPast(StampedApply(t, step))
    ensures t.state.epoch <= StampedApply(t, step).state.epoch
  {
    var s, s' := t.state, Apply(t.state, step);
    match step
    case MainDoes(x) => assert s'.epoch == s.epoch && !s'.main.RebuildBumped?;
    case RebuildDoes(r) => assert s.epoch <= s'.epoch && (s'.main.RebuildBumped? ==> s.epoch < s'.epoch);
    case PrepareDoes(p) => assert s'.epoch == s.epoch && s'.main == s.main;
    case ComputeDoes(i, c) => assert s'.epoch == s.epoch && s'.main == s.main;
    case CommitDoes(c) => assert s'.epoch == s.epoch && s'.main == s.main;
    case BatchDoes(b) => assert s'.epoch == s.epoch && s'.main == s.main;
  }

  lemma {:induction false} StepStamps(t: Stamped, step: Step, m: int)
    requires Enabled(t.state, step)
    ensures var t' := StampedApply(t, step);
            MarkOf(t', m) ==
              if step == RebuildDoes(RebuildMarkHistorical) && t.state.main.from <= m <= t.state.main.through
              then t.state.epoch else MarkOf(t, m)
  {
  }

  lemma {:induction false} RunStamps(t: Stamped, steps: seq<Step>, m: int)
    requires StampsPast(t) && StampedRun(t, steps) && SpawnsNone(steps)
    ensures var t' := StampedAfter(t, steps);
            && t'.spawned == t.spawned && StampsPast(t')
            && (MarkedDuring(t, steps, m) ==> t.spawned < MarkOf(t', m))
            && (!MarkedDuring(t, steps, m) ==> MarkOf(t', m) == MarkOf(t, m))
            && MarkOf(t, m) <= MarkOf(t', m)
    decreases |steps|
  {
    if steps == [] {
    } else {
      var t1 := StampedApply(t, steps[0]);
      assert !(steps[0].BatchDoes? && steps[0].batch.BatchSpawn?);
      StepKeepsStampsPast(t, steps[0]);
      StepStamps(t, steps[0], m);
      assert SpawnsNone(steps[1..]) by {
        assert forall k :: 0 <= k < |steps[1..]| ==> steps[1..][k] == steps[k + 1];
      }
      assert t1.spawned == t.spawned;
      hide StampedApply, Enabled, Apply;
      RunStamps(t1, steps[1..], m);
    }
  }

  /**
   What a batch writes for a minute comes from a snapshot at least as new as the last rebuild that marked the
   minute, if and only if no rebuild has marked it since the batch was spawned.
   */
  lemma {:induction false} RewrittenExactly(t: Stamped, spawn: BatchStep, steps: seq<Step>, m: int)
    requires StampsPast(t) && spawn.BatchSpawn? && BatchEnabled(t.state, spawn)
    requires StampedRun(StampedApply(t, BatchDoes(spawn)), steps) && SpawnsNone(steps)
    ensures var spawned := StampedApply(t, BatchDoes(spawn));
            var t' := StampedAfter(spawned, steps);
            MarkOf(t', m) <= t'.spawned <==> !MarkedDuring(spawned, steps, m)
  {
    StepKeepsStampsPast(t, BatchDoes(spawn));
    hide Apply;
    RunStamps(StampedApply(t, BatchDoes(spawn)), steps, m);
  }

  // ---------------------------------------------------------------- rebuilds that abort the batch first

  /** As a confirmed repair does, and a cutover entered through the backlog: no batch is left when a rebuild starts. */
  predicate AbortsFirst(s: State, step: Step) {
    step.RebuildDoes? && step.rebuild.RebuildRequest? ==> s.batch.NoBatch?
  }

  ghost predicate AbortingRun(t: Stamped, steps: seq<Step>)
    decreases |steps|
  {
    steps == [] ||
    (Enabled(t.state, steps[0]) && AbortsFirst(t.state, steps[0]) && AbortingRun(StampedApply(t, steps[0]), steps[1..]))
  }

  /** A batch and a rebuild exclude each other, and every mark is older than the running batch's snapshot. */
  ghost predicate BatchUpToDate(t: Stamped) {
    !t.state.batch.NoBatch? ==> !Rebuilding(t.state.main) && forall m :: m in t.marked ==> t.marked[m] <= t.spawned
  }

  lemma {:induction false} StepKeepsUpToDate(t: Stamped, step: Step)
    requires StampsPast(t) && BatchUpToDate(t) && Enabled(t.state, step) && AbortsFirst(t.state, step)
    ensures BatchUpToDate(StampedApply(t, step))
  {
    var s, s' := t.state, Apply(t.state, step);
    match step
    case MainDoes(x) => assert s'.batch == s.batch && !Rebuilding(s'.main);
    case RebuildDoes(r) => assert s'.batch == s.batch;
    case PrepareDoes(p) => assert s'.batch == s.batch && s'.main == s.main;
    case ComputeDoes(i, c) => assert s'.batch == s.batch && s'.main == s.main;
    case CommitDoes(c) => assert s'.batch == s.batch && s'.main == s.main;
    case BatchDoes(b) => assert s'.main == s.main;
  }

  lemma {:induction false} RunKeepsUpToDate(t: Stamped, steps: seq<Step>)
    requires StampsPast(t) && BatchUpToDate(t) && AbortingRun(t, steps)
    ensures StampedRun(t, steps) && StampsPast(StampedAfter(t, steps)) && BatchUpToDate(StampedAfter(t, steps))
    decreases |steps|
  {
    if steps == [] {
    } else {
      StepKeepsStampsPast(t, steps[0]);
      StepKeepsUpToDate(t, steps[0]);
      hide StampedApply, StampsPast, BatchUpToDate, Enabled;
      RunKeepsUpToDate(StampedApply(t, steps[0]), steps[1..]);
    }
  }

  function InitialStamped(next: int, frontier: Option<int>, backlog: set<int>): Stamped {
    Stamped(InitialState(next, frontier, backlog), map[], 0)
  }

  /**
   If every rebuild finds no batch running, a marked minute is only retired on outputs from after its last
   rebuild.
   */
  lemma {:induction false} RetiredAfterRebuild(
    next: int, frontier: Option<int>, backlog: set<int>, steps: seq<Step>, m: int)
    requires AbortingRun(InitialStamped(next, frontier, backlog), steps)
    ensures StampedRun(InitialStamped(next, frontier, backlog), steps)
    ensures var t := StampedAfter(InitialStamped(next, frontier, backlog), steps);
            BatchEnabled(t.state, BatchPoll) ==> MarkOf(t, m) <= t.spawned
  {
    RunKeepsUpToDate(InitialStamped(next, frontier, backlog), steps);
  }

  // ---------------------------------------------------------------- a cutover over a running batch

  ghost predicate StampedReaches(t: Stamped, t': Stamped) {
    exists steps :: StampedRun(t, steps) && StampedAfter(t, steps) == t'
  }

  lemma {:induction false} StampedConcat(t: Stamped, steps: seq<Step>, step: Step)
    requires StampedRun(t, steps) && Enabled(StampedAfter(t, steps).state, step)
    ensures StampedRun(t, steps + [step])
    ensures StampedAfter(t, steps + [step]) == StampedApply(StampedAfter(t, steps), step)
    decreases |steps|
  {
    hide StampedApply, Enabled;
    if steps == [] {
      assert [] + [step] == [step] && [step][1..] == [];
    } else {
      assert (steps + [step])[1..] == steps[1..] + [step];
      StampedConcat(StampedApply(t, steps[0]), steps[1..], step);
    }
  }

  lemma {:induction false} Next(t0: Stamped, t: Stamped, step: Step) returns (t': Stamped)
    requires StampedReaches(t0, t) && Enabled(t.state, step)
    ensures t' == StampedApply(t, step) && StampedReaches(t0, t')
  {
    var steps :| StampedRun(t0, steps) && StampedAfter(t0, steps) == t;
    StampedConcat(t0, steps, step);
    t' := StampedApply(t, step);
  }

  /**
   Muted catch-up entered through a skipped gap leaves the batch running: from the start a state is reached in
   which a batch is about to retire a minute that a later cutover has rebuilt and marked.
   */
  lemma {:induction false} CutoverOverBatch() returns (t: Stamped)
    ensures StampedReaches(InitialStamped(100, Some(99), {50}), t)
    ensures BatchEnabled(t.state, BatchPoll) && t.state.batch.from <= 50 <= t.state.batch.to
    ensures 50 in t.state.historical && t.spawned < MarkOf(t, 50)
    ensures 50 !in BatchApply(t.state, BatchPoll).historical
  {
    var t0 := InitialStamped(100, Some(99), {50});
    assert StampedRun(t0, []) && StampedAfter(t0, []) == t0;
    OneMinute(50);
    var a1 := Next(t0, t0, BatchDoes(BatchSpawn(50, 50)));
    var a2 := Next(t0, a1, MainDoes(MainSkipGap));
    var a6 := RebuildOverBatch(t0, a2);
    t := FinishOverBatch(t0, a6);
  }

  lemma {:induction false} RebuildOverBatch(t0: Stamped, a2: Stamped) returns (a6: Stamped)
    requires StampedReaches(t0, a2) && a2.state.main.MainIdle? && a2.state.mode.MutedCatchup?
    requires a2.state.preparePending == 0 && a2.state.gate.GateFree? && a2.spawned == a2.state.epoch
    ensures StampedReaches(t0, a6) && a6.state.main == RebuildMarked(CatchupCutover, 50, 100)
    ensures a6.state.batch == a2.state.batch && a2.state.historical <= a6.state.historical
    ensures a6.spawned < MarkOf(a6, 50)
  {
    var a3 := Next(t0, a2, RebuildDoes(RebuildRequest(CatchupCutover, 50, 100)));
    var a4 := Next(t0, a3, RebuildDoes(RebuildLockGate));
    var a5 := Next(t0, a4, RebuildDoes(RebuildBumpEpoch));
    a6 := Next(t0, a5, RebuildDoes(RebuildMarkHistorical));
  }

  lemma {:induction false} FinishOverBatch(t0: Stamped, a6: Stamped) returns (t: Stamped)
    requires StampedReaches(t0, a6) && a6.state.main == RebuildMarked(CatchupCutover, 50, 100)
    requires a6.state.batch == BatchClearing(50, 50) && 50 in a6.state.historical && a6.spawned < MarkOf(a6, 50)
    ensures StampedReaches(t0, t) && BatchEnabled(t.state, BatchPoll) && t.state.batch.from == 50 == t.state.batch.to
    ensures 50 in t.state.historical && t.spawned < MarkOf(t, 50)
    ensures 50 !in BatchApply(t.state, BatchPoll).historical
  {
    var a7 := Next(t0, a6, RebuildDoes(RebuildStoreFrontier));
    var a8 := Next(t0, a7, RebuildDoes(RebuildFinish));
    var a9 := Next(t0, a8, BatchDoes(BatchClear));
    t := Next(t0, a9, BatchDoes(BatchWrite));
  }

  lemma OneMinute(m: int)
    ensures MinuteRange(m, m + 1) == {m}
  {
    assert MinuteRange(m + 1, m + 1) == {};
  }
}
