/**
 Minutes pending historical materialization: they are always one range, batches take it from its start, and from
 every reachable state in which the main loop rests every minute due can still be brought to the database.
 */
module PipelineHistory {
  import opened Options
  import opened LivePipeline
  import opened PipelineAccounting
  import opened PipelineCoverage
  import opened PipelineLedger
  import opened PipelineOrder
  import opened PipelineProgress

  // ---------------------------------------------------------------- one range

  ghost predicate IsRange(minutes: set<int>) {
    forall a, b, m :: a in minutes && b in minutes && a <= m <= b ==> m in minutes
  }

  lemma {:induction false} StepKeepsRange(s: State, step: Step)
    requires IsRange(s.historical) && Enabled(s, step)
    ensures IsRange(Apply(s, step).historical)
  {
    match step
    case MainDoes(m) =>
      if m.MainAdvanceMuted? { PendIsRange(s.historical, s.next, s.next + m.count - 1); }
    case RebuildDoes(r) =>
      if r.RebuildMarkHistorical? { PendIsRange(s.historical, s.main.from, s.main.through); }
    case PrepareDoes(p) => assert PrepareApply(s, p).historical == s.historical;
    case ComputeDoes(i, c) => assert ComputeApply(s, i, c).historical == s.historical;
    case CommitDoes(c) => assert CommitApply(s, c).historical == s.historical;
    case BatchDoes(b) => assert b.BatchPoll? || BatchApply(s, b).historical == s.historical;
  }

  lemma PendIsRange(pending: set<int>, from: int, through: int)
    requires IsRange(pending)
    ensures IsRange(Pend(pending, from, through))
  {
  }

  /** What is pending is one range of minutes throughout every run that starts with one. */
  lemma {:induction false} PendingStaysRange(next: int, frontier: Option<int>, backlog: set<int>, steps: seq<Step>)
    requires IsRange(backlog) && CanRun(InitialState(next, frontier, backlog), steps)
    ensures IsRange(After(InitialState(next, frontier, backlog), steps).historical)
    decreases |steps|
  {
    if steps == [] {
    } else {
      var init := steps[..|steps| - 1];
      LastStep(InitialState(next, frontier, backlog), steps);
      PendingStaysRange(next, frontier, backlog, init);
      StepKeepsRange(After(InitialState(next, frontier, backlog), init), steps[|steps| - 1]);
    }
  }

  /** A batch takes the first hour of what is pending, or all of it when there is less. */
  lemma {:induction false} BatchTakesFirstHour(s: State, from: int, to: int)
    requires IsRange(s.historical) && BatchEnabled(s, BatchSpawn(from, to))
    ensures forall m :: from <= m <= to <==> m in s.historical && m < from + 60
  {
    forall m ensures from <= m <= to <==> m in s.historical && m < from + 60 {
      assert from in MinuteRange(from, to + 1);
      assert from <= m <= to ==> m in MinuteRange(from, to + 1);
      assert m in s.historical && to < m ==> from <= to + 1 <= m;
    }
  }

  // ---------------------------------------------------------------- what a batch has cleared

  /** A batch keeps clear of the jobs in flight, and what it has cleared and not yet written has no outputs. */
  ghost predicate BatchApart(s: State) {
    !s.batch.NoBatch? ==>
      && s.batch.to < s.next && (forall j :: InFlight(s, j) ==> s.batch.to < j.minute)
      && (s.batch.BatchWriting? ==> MinuteRange(s.batch.next, s.batch.to + 1) !! s.persisted)
  }

  lemma {:induction false} FlowKeepsApart(s: State, s': State)
    requires BatchApart(s) && s'.batch == s.batch && s'.persisted == s.persisted && s.next <= s'.next
    requires forall j :: InFlight(s', j) ==> InFlight(s, j) || s.next <= j.minute
    ensures BatchApart(s')
  {
    hide InFlight;
  }

  lemma {:induction false} MainKeepsApart(s: State, step: MainStep)
    requires BatchApart(s) && MainEnabled(s, step)
    ensures BatchApart(MainApply(s, step))
  {
    var s' := MainApply(s, step);
    MainWritesOwn(s, step);
    forall j ensures InFlight(s', j) ==> InFlight(s, j) || s.next <= j.minute { MainFlow(s, step, j); }
    hide MainApply, InFlight, BatchApart;
    FlowKeepsApart(s, s');
  }

  lemma {:induction false} StagesKeepApart(s: State, low: int, step: Step)
    requires Invariant(s, low) && BatchApart(s) && Enabled(s, step) && (step.PrepareDoes? || step.ComputeDoes?)
    ensures BatchApart(Apply(s, step))
  {
    var s' := Apply(s, step);
    WorkersWriteOwn(s, step);
    forall j ensures InFlight(s', j) ==> InFlight(s, j) {
      match step {
        case PrepareDoes(p) => PrepareFlow(s, p, j);
        case ComputeDoes(i, c) => ComputeFlow(s, i, c, j);
      }
    }
    hide Apply, InFlight, BatchApart, Invariant;
    FlowKeepsApart(s, s');
  }

  lemma {:induction false} CommitKeepsApart(s: State, step: CommitStep)
    requires Base(s) && BatchApart(s) && CommitEnabled(s, step)
    ensures BatchApart(CommitApply(s, step))
  {
    var s' := CommitApply(s, step);
    ReceivedIsNew(s);
    forall j ensures InFlight(s', j) ==> InFlight(s, j) { CommitFlow(s, step, j); }
    assert step.CommitPersist? ==> InFlight(s, s.commit.job);
    assert s'.persisted == s.persisted || (step.CommitPersist? && s'.persisted == s.persisted + {s.commit.job.minute});
    assert s'.batch == s.batch && s'.next == s.next;
    hide CommitApply, InFlight, Copies, Base;
  }

  lemma {:induction false} BatchKeepsApart(s: State, low: int, step: BatchStep)
    requires Invariant(s, low) && HistoricalBehind(s) && BatchApart(s) && BatchEnabled(s, step)
    ensures BatchApart(BatchApply(s, step))
  {
    var s' := BatchApply(s, step);
    forall j ensures InFlight(s', j) <==> InFlight(s, j) { BatchFlow(s, step, j); }
    if step.BatchSpawn? {
      forall j ensures !InFlight(s, j) { ZeroCountersNothingInFlight(s, j); }
      assert step.to in MinuteRange(step.from, step.to + 1);
    }
    hide InFlight, Copies, Invariant;
  }

  lemma {:induction false} RebuildKeepsApart(s: State, step: RebuildStep)
    requires BatchApart(s) && RebuildEnabled(s, step)
    ensures BatchApart(RebuildApply(s, step))
  {
    var s' := RebuildApply(s, step);
    forall j ensures InFlight(s', j) ==> InFlight(s, j) { RebuildFlow(s, step, j); }
    assert s'.batch == s.batch && s'.persisted == s.persisted && s.next <= s'.next;
    hide RebuildApply, InFlight, BatchApart;
    FlowKeepsApart(s, s');
  }

  lemma {:induction false} StepKeepsApart(s: State, low: int, step: Step)
    requires Invariant(s, low) && HistoricalBehind(s) && BatchApart(s) && Enabled(s, step)
    ensures BatchApart(Apply(s, step))
  {
    assert Base(s);
    hide Invariant, Base, HistoricalBehind, BatchApart;
    match step
    case MainDoes(m) => MainKeepsApart(s, m);
    case RebuildDoes(r) => RebuildKeepsApart(s, r);
    case CommitDoes(c) => CommitKeepsApart(s, c);
    case BatchDoes(b) => BatchKeepsApart(s, low, b);
    case _ => StagesKeepApart(s, low, step);
  }

  lemma {:induction false} RunKeepsApart(s: State, low: int, steps: seq<Step>)
    requires Invariant(s, low) && Coverage(s, low) && BatchApart(s) && CoveringRun(s, steps)
    ensures CanRun(s, steps) && BatchApart(After(s, steps))
    decreases |steps|
  {
    if steps == [] {
    } else {
      assert HistoricalBehind(s);
      StepKeepsApart(s, low, steps[0]);
      StepKeepsInvariant(s, low, steps[0]);
      StepKeepsCoverage(s, low, steps[0]);
      hide Invariant, Coverage, BatchApart, Enabled, Apply, HistoricalBehind;
      RunKeepsApart(Apply(s, steps[0]), low, steps[1..]);
    }
  }

  /**
   A batch deletes what it is going to write, and nothing else writes it meanwhile: until it has written a minute
   itself, the minute has no outputs and no job in flight, and it is still pending.
   */
  lemma {:induction false} ClearedUntilWritten(next: int, frontier: int, backlog: set<int>, steps: seq<Step>, m: int)
    requires 2 <= next && (forall k :: k in backlog ==> k < next)
    requires CoveringRun(InitialState(next, Some(frontier), backlog), steps)
    ensures CanRun(InitialState(next, Some(frontier), backlog), steps)
    ensures var s := After(InitialState(next, Some(frontier), backlog), steps);
            s.batch.BatchWriting? && s.batch.next <= m <= s.batch.to ==>
              m !in s.persisted && m in s.historical && forall epoch: nat :: !InFlight(s, Job(epoch, m))
  {
    var s0, low := InitialState(next, Some(frontier), backlog), Max(frontier + 1, next);
    InitialInvariant(next, frontier, backlog);
    CoverageFromTheStart(next, frontier, backlog, []);
    RunKeepsApart(s0, low, steps);
    CoverageFromTheStart(next, frontier, backlog, steps);
    var s := After(s0, steps);
    hide InFlight, Invariant, CoveringRun, After;
    if s.batch.BatchWriting? && s.batch.next <= m <= s.batch.to {
      assert m in MinuteRange(s.batch.next, s.batch.to + 1);
      assert BatchSound(s, low) && m in MinuteRange(s.batch.from, s.batch.to + 1);
    }
  }

  // ---------------------------------------------------------------- batches can always write it all

  lemma {:induction false} FirstThen(s: State, step: Step, rest: seq<Step>)
    requires Enabled(s, step) && CanRun(Apply(s, step), rest)
    ensures CanRun(s, [step] + rest) && After(s, [step] + rest) == After(Apply(s, step), rest)
  {
    hide Enabled, Apply;
    assert ([step] + rest)[1..] == rest;
  }

  /** The pending minutes left when those up to the given one are retired. */
  function PendingPast(pending: set<int>, through: int): set<int> { set m | m in pending && m > through }

  /** What a batch leaves behind when it writes its minutes and retires them. */
  function Retired(s: State, persisted: set<int>, through: int): State {
    s.(batch := NoBatch, persisted := persisted, historical := PendingPast(s.historical, through))
  }

  lemma {:induction false} CanFinishBatch(s: State) returns (steps: seq<Step>)
    requires s.main.MainIdle? && s.batch.BatchWriting? && s.batch.next <= s.batch.to + 1
    ensures CanRun(s, steps)
    ensures After(s, steps) == Retired(s, s.persisted + MinuteRange(s.batch.next, s.batch.to + 1), s.batch.to)
    decreases s.batch.to + 1 - s.batch.next
  {
    var step := BatchDoes(if s.batch.next > s.batch.to then BatchPoll else BatchWrite);
    var s1 := Apply(s, step);
    var rest := [];
    if s.batch.next <= s.batch.to {
      rest := CanFinishBatch(s1);
      assert s.persisted + MinuteRange(s.batch.next, s.batch.to + 1) ==
             s1.persisted + MinuteRange(s1.batch.next, s.batch.to + 1);
    } else {
      assert CanRun(s1, []) && After(s1, []) == s1;
      assert s.persisted + MinuteRange(s.batch.next, s.batch.to + 1) == s.persisted;
    }
    FirstThen(s, step, rest);
    steps := [step] + rest;
  }

  /** A running batch has written what lies before its position. */
  predicate WritesUpwards(s: State) {
    && (s.batch.BatchClearing? ==> s.batch.from <= s.batch.to)
    && (s.batch.BatchWriting? ==>
          s.batch.from <= s.batch.next <= s.batch.to + 1 && MinuteRange(s.batch.from, s.batch.next) <= s.persisted)
  }

  /** A running batch can write all its minutes and retire them, and ends having deleted none. */
  lemma {:induction false} CanEndBatch(s: State) returns (steps: seq<Step>)
    requires s.main.MainIdle? && !s.batch.NoBatch? && WritesUpwards(s)
    ensures CanRun(s, steps)
    ensures After(s, steps) == Retired(s, s.persisted + MinuteRange(s.batch.from, s.batch.to + 1), s.batch.to)
  {
    var range := MinuteRange(s.batch.from, s.batch.to + 1);
    if s.batch.BatchClearing? {
      var s1 := Apply(s, BatchDoes(BatchClear));
      var rest := CanFinishBatch(s1);
      FirstThen(s, BatchDoes(BatchClear), rest);
      steps := [BatchDoes(BatchClear)] + rest;
      assert s1.persisted + range == s.persisted + range;
    } else {
      steps := CanFinishBatch(s);
      assert s.persisted + MinuteRange(s.batch.next, s.batch.to + 1) == s.persisted + range;
    }
  }

  /** The last minute of the batch that starts with the range's first. */
  lemma {:induction false} LastOfBatch(pending: set<int>, from: int, so: int) returns (to: int)
    requires from <= so < from + 60 && MinuteRange(from, so + 1) <= pending
    ensures so <= to < from + 60 && MinuteRange(from, to + 1) <= pending
    ensures to + 1 !in pending || to + 1 == from + 60
    decreases from + 60 - so
  {
    to := so;
    if so + 1 in pending && so + 1 < from + 60 {
      to := LastOfBatch(pending, from, so + 1);
    }
  }

  /** With the engine publishing and the pipeline empty, the first batch of what is pending can be written. */
  lemma {:induction false} CanWriteBatch(s: State) returns (steps: seq<Step>, written: set<int>)
    requires s.main.MainIdle? && s.mode.Publishing? && s.batch.NoBatch?
    requires s.preparePending == 0 && s.readyPending == 0 && s.historical != {}
    ensures CanRun(s, steps) && written != {} && written <= s.historical
    ensures After(s, steps) == s.(persisted := s.persisted + written, historical := s.historical - written)
  {
    var from := Lowest(s.historical);
    var to := LastOfBatch(s.historical, from, from);
    written := MinuteRange(from, to + 1);
    var spawn := BatchDoes(BatchSpawn(from, to));
    var s1 := Apply(s, spawn);
    assert Enabled(s, spawn) && s1 == s.(batch := BatchClearing(from, to));
    var write := CanEndBatch(s1);
    RetiresSome(s.historical, from, to);
    hide Enabled, Apply;
    FirstThen(s, spawn, write);
    steps := [spawn] + write;
  }

  lemma {:induction false} CanWriteHistory(s: State) returns (steps: seq<Step>)
    requires s.main.MainIdle? && s.mode.Publishing? && s.batch.NoBatch?
    requires s.preparePending == 0 && s.readyPending == 0
    ensures CanRun(s, steps)
    ensures After(s, steps) == s.(persisted := s.persisted + s.historical, historical := {})
    decreases |s.historical|
  {
    hide CanRun, After;
    if s.historical == {} {
      steps := NoSteps(s);
      assert s.persisted + s.historical == s.persisted;
    } else {
      var first, written := CanWriteBatch(s);
      var s1 := After(s, first);
      assert |s1.historical| < |s.historical| by { Fewer(s.historical, written); }
      var rest := CanWriteHistory(s1);
      RunConcat(s, first, rest);
      steps := first + rest;
      assert s1.persisted + s1.historical == s.persisted + s.historical;
    }
  }

  lemma NoSteps(s: State) returns (steps: seq<Step>)
    ensures CanRun(s, steps) && After(s, steps) == s
  {
    steps := [];
  }

  lemma Fewer(minutes: set<int>, some: set<int>)
    requires some != {} && some <= minutes
    ensures |minutes - some| < |minutes|
  {
    assert |minutes| == |minutes - some| + |some|;
  }

  lemma {:induction false} RetiresSome(pending: set<int>, from: int, to: int)
    requires (forall m :: m in pending ==> from <= m) && MinuteRange(from, to + 1) <= pending && from <= to
    ensures PendingPast(pending, to) == pending - MinuteRange(from, to + 1)
    ensures from in MinuteRange(from, to + 1)
  {
  }

  // ---------------------------------------------------------------- everything due can be persisted

  /** After the running batch, if any, all other pending minutes can be written. */
  lemma {:induction false} CanWriteAll(s: State) returns (steps: seq<Step>)
    requires s.main.MainIdle? && s.mode.Publishing? && s.preparePending == 0 && s.readyPending == 0
    requires WritesUpwards(s)
    ensures CanRun(s, steps)
    ensures var s' := After(s, steps);
            && s'.batch.NoBatch? && s'.historical == {} && s.persisted <= s'.persisted
            && s' == s.(batch := NoBatch, persisted := s'.persisted, historical := {})
            && forall m :: m in s.historical ==> m in s'.persisted || (!s.batch.NoBatch? && m < s.batch.from)
  {
    if s.batch.NoBatch? {
      steps := CanWriteHistory(s);
    } else {
      var end := CanEndBatch(s);
      var s1 := After(s, end);
      var rest := CanWriteHistory(s1);
      RunConcat(s, end, rest);
      steps := end + rest;
    }
  }

  /** If the engine is muted, a cutover over the last minute makes it publish again. */
  lemma {:induction false} CanPublish(s: State) returns (steps: seq<Step>)
    requires s.main.MainIdle? && s.gate.GateFree? && s.preparePending == 0 && s.emitEnd <= s.next
    ensures CanRun(s, steps)
    ensures var s' := After(s, steps);
            && s'.mode.Publishing? && s'.main.MainIdle? && s'.next == s.next && OutputsKept(s, s')
  {
    if s.mode.Publishing? {
      steps := [];
    } else {
      steps := Cutover(s.next - 1, s.next - 1);
      CutoverRuns(s, s.next - 1, s.next - 1);
    }
  }

  /** Drain the pipeline, publish again if muted, and write what is pending. */
  lemma {:induction false} CanSettle(s: State, low: int) returns (steps: seq<Step>)
    requires Invariant(s, low) && BatchSound(s, low) && s.main.MainIdle? && low <= Expected(s)
    ensures CanRun(s, steps)
    ensures var s' := After(s, steps);
            && s'.next == s.next && s'.historical == {}
            && forall m :: m in s.owed && low <= m && Covered(s, m) ==> m in s'.persisted
  {
    var work := CanDeliverAll(s, low);
    var s1 := After(s, work);
    DrainedGate(s1, low);
    hide Invariant, Delivers, Drained, CanRun, After, MinuteRange;
    StillSound(s, s1, low);
    var resume := CanPublish(s1);
    var s2 := After(s1, resume);
    var write := CanWriteAll(s2);
    RunConcat(s1, resume, write);
    RunConcat(s, work, resume + write);
    steps := work + (resume + write);
    forall m | m in s.owed && low <= m && Covered(s, m) ensures m in After(s2, write).persisted {
      SettledMinute(s, s1, low, m);
    }
  }

  lemma {:induction false} DrainedGate(s: State, low: int)
    requires Invariant(s, low) && Drained(s) && s.commit.CommitWaiting?
    ensures s.gate.GateFree? && s.emitEnd <= s.next
  {
  }

  lemma {:induction false} StillSound(s: State, s': State, low: int)
    requires BatchSound(s, low) && Delivers(s, s', low)
    ensures WritesUpwards(s') && s'.main == s.main && s'.next == s.next
  {
  }

  lemma {:induction false} SettledMinute(s: State, s': State, low: int, m: int)
    requires BatchSound(s, low) && Delivers(s, s', low) && s.main.MainIdle?
    requires m in s.owed && low <= m && Covered(s, m) && (InFlight(s, Job(s.epoch, m)) ==> m in s'.persisted)
    ensures m in s'.persisted || (m in s'.historical && (!s'.batch.NoBatch? ==> s'.batch.from <= m))
  {
  }

  /**
   The closing theorem: whatever a disciplined run has done, once the main loop rests there is a continuation after
   which nothing is pending any more and every minute due is persisted.
   */
  lemma {:induction false} DueCanBePersisted(next: int, frontier: int, backlog: set<int>, steps: seq<Step>)
    returns (more: seq<Step>)
    requires 2 <= next && (forall m :: m in backlog ==> m < next)
    requires CoveringRun(InitialState(next, Some(frontier), backlog), steps)
    requires CanRun(InitialState(next, Some(frontier), backlog), steps)
    requires var s := After(InitialState(next, Some(frontier), backlog), steps);
             s.main.MainIdle? && s.nextCommit.Some? && next <= Expected(s)
    ensures var s := After(InitialState(next, Some(frontier), backlog), steps);
            && CanRun(s, more) && After(s, more).next == s.next && After(s, more).historical == {}
            && forall m :: Due(next, frontier, backlog, steps, m) ==> m in After(s, more).persisted
  {
    var s := After(InitialState(next, Some(frontier), backlog), steps);
    var low := Max(frontier + 1, next);
    CoveringIsDisciplined(InitialState(next, Some(frontier), backlog), steps);
    FromTheStart(next, frontier, backlog, steps);
    CoverageFromTheStart(next, frontier, backlog, steps);
    NoMinuteLost(next, frontier, backlog, steps);
    assert low <= Expected(s);
    hide InitialState, Invariant, CoveringRun, Covered, Due;
    more := CanSettle(s, low);
    forall m | Due(next, frontier, backlog, steps, m) ensures m in After(s, more).persisted {
      DueIsOwed(next, frontier, backlog, steps, m);
    }
  }
}
