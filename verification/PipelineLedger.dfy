/**
 A ledger kept beside the steps, for every run: what becomes of each minute the scheduler moves past, and which
 steps leave live publishing muted.
 */
module PipelineLedger {
  import opened Options
  import opened LivePipeline

  // ---------------------------------------------------------------- runs end to end

  lemma {:induction false} RunConcat(s: State, a: seq<Step>, b: seq<Step>)
    requires CanRun(s, a) && CanRun(After(s, a), b)
    ensures CanRun(s, a + b) && After(s, a + b) == After(After(s, a), b)
    decreases |a|
  {
    if a == [] {
      assert a + b == b;
    } else {
      RunConcat(Apply(s, a[0]), a[1..], b);
      assert (a + b)[1..] == a[1..] + b;
    }
  }

  /** A run is its steps but the last, and the last. */
  lemma {:induction false} LastStep(s: State, steps: seq<Step>)
    requires CanRun(s, steps) && steps != []
    ensures var (init, last) := (steps[..|steps| - 1], steps[|steps| - 1]);
            CanRun(s, init) && Enabled(After(s, init), last) && After(s, steps) == Apply(After(s, init), last)
    decreases |steps|
  {
    var init, last := steps[..|steps| - 1], steps[|steps| - 1];
    if |steps| == 1 {
      assert init == [] && steps[1..] == [];
      assert CanRun(s, []) && After(s, []) == s;
    } else {
      assert steps[1..][..|steps| - 2] == init[1..] && steps[1..][|steps| - 2] == last;
      LastStep(Apply(s, steps[0]), steps[1..]);
    }
  }

  // ---------------------------------------------------------------- the minutes the scheduler moves past

  /** The minutes a step takes on: emitted, advanced in muted catch-up, or rebuilt ahead of the scheduler. */
  function TakenBy(s: State, step: Step): set<int>
    requires Enabled(s, step)
  {
    match step
    case MainDoes(MainEnqueue(count)) =>
      if |s.tasks| < LIVE_PREPARE_TASK_QUEUE_CAPACITY then MinuteRange(s.next, s.next + count) else {}
    case MainDoes(MainAdvanceMuted(count)) => MinuteRange(s.next, s.next + count)
    case RebuildDoes(RebuildStoreFrontier) => MinuteRange(Max(s.next, s.main.from), s.main.through + 1)
    case _ => {}
  }

  /** The minutes a step passes over: a skipped gap, a recovery, or a rebuild that starts past the scheduler. */
  function PassedBy(s: State, step: Step): set<int>
    requires Enabled(s, step)
  {
    match step
    case MainDoes(MainSkipGap) => {s.next}
    case MainDoes(MainRecoverGap(resume)) => MinuteRange(s.next, resume)
    case RebuildDoes(RebuildStoreFrontier) => MinuteRange(s.next, Min(s.main.from, s.main.through + 1))
    case _ => {}
  }

  ghost function Taken(s: State, steps: seq<Step>): set<int>
    requires CanRun(s, steps)
    decreases |steps|
  {
    if steps == [] then {} else TakenBy(s, steps[0]) + Taken(Apply(s, steps[0]), steps[1..])
  }

  ghost function Passed(s: State, steps: seq<Step>): set<int>
    requires CanRun(s, steps)
    decreases |steps|
  {
    if steps == [] then {} else PassedBy(s, steps[0]) + Passed(Apply(s, steps[0]), steps[1..])
  }

  lemma {:induction false} StepAccounts(s: State, step: Step)
    requires Enabled(s, step)
    ensures var s' := Apply(s, step);
            && s.next <= s'.next && s'.owed == s.owed + TakenBy(s, step)
            && TakenBy(s, step) !! PassedBy(s, step)
            && forall m :: s.next <= m < s'.next <==> m in TakenBy(s, step) || m in PassedBy(s, step)
  {
    match step
    case MainDoes(x) => assert MainApply(s, x).owed == s.owed + TakenBy(s, step);
    case RebuildDoes(r) => assert RebuildApply(s, r).owed == s.owed + TakenBy(s, step);
    case PrepareDoes(p) => assert PrepareApply(s, p).next == s.next && PrepareApply(s, p).owed == s.owed;
    case ComputeDoes(i, c) => assert ComputeApply(s, i, c).next == s.next && ComputeApply(s, i, c).owed == s.owed;
    case CommitDoes(c) => assert CommitApply(s, c).next == s.next && CommitApply(s, c).owed == s.owed;
    case BatchDoes(b) => assert BatchApply(s, b).next == s.next && BatchApply(s, b).owed == s.owed;
  }

  lemma {:induction false} RunAccounts(s: State, steps: seq<Step>)
    requires CanRun(s, steps)
    ensures var s' := After(s, steps);
            && s.next <= s'.next && s'.owed == s.owed + Taken(s, steps)
            && Taken(s, steps) !! Passed(s, steps)
            && forall m :: s.next <= m < s'.next <==> m in Taken(s, steps) || m in Passed(s, steps)
    decreases |steps|
  {
    if steps == [] {
    } else {
      StepAccounts(s, steps[0]);
      hide Enabled, Apply, TakenBy, PassedBy;
      RunAccounts(Apply(s, steps[0]), steps[1..]);
    }
  }

  /**
   Over every run, whatever it does: each minute from the first scheduled one to the scheduler's position was either
   taken on by a step of the run or passed over by one, and never both; no other minute was.
   */
  lemma {:induction false} EveryMinuteAccounted(
    next: int, frontier: Option<int>, backlog: set<int>, steps: seq<Step>)
    requires CanRun(InitialState(next, frontier, backlog), steps)
    ensures var s0 := InitialState(next, frontier, backlog);
            && Taken(s0, steps) !! Passed(s0, steps)
            && Taken(s0, steps) + Passed(s0, steps) == MinuteRange(next, After(s0, steps).next)
            && After(s0, steps).owed == Taken(s0, steps)
  {
    RunAccounts(InitialState(next, frontier, backlog), steps);
  }

  /** A rebuild passes minutes over exactly when it starts past the scheduler and ends past it too. */
  lemma {:induction false} RebuildPassesExactly(s: State)
    requires RebuildEnabled(s, RebuildStoreFrontier) && s.main.from <= s.main.through
    ensures PassedBy(s, RebuildDoes(RebuildStoreFrontier)) == {} <==> s.main.from <= s.next || s.main.through < s.next
  {
    var passed := PassedBy(s, RebuildDoes(RebuildStoreFrontier));
    assert s.next < s.main.from && s.next <= s.main.through ==> s.next in passed;
  }

  // ---------------------------------------------------------------- the outputs

  /** The minute whose outputs a step writes: a live job under the gate, or the next minute of a batch. */
  function WrittenBy(s: State, step: Step): set<int>
    requires Enabled(s, step)
  {
    match step
    case CommitDoes(CommitPersist) => {s.commit.job.minute}
    case BatchDoes(BatchWrite) => {s.batch.next}
    case _ => {}
  }

  /** The minutes whose outputs a step deletes: a batch clears its range before it writes it. */
  function DeletedBy(s: State, step: Step): set<int>
    requires Enabled(s, step)
  {
    match step
    case BatchDoes(BatchClear) => MinuteRange(s.batch.from, s.batch.to + 1)
    case _ => {}
  }

  ghost predicate DeletedIn(s: State, steps: seq<Step>, m: int)
    requires CanRun(s, steps)
    decreases |steps|
  {
    steps != [] && (m in DeletedBy(s, steps[0]) || DeletedIn(Apply(s, steps[0]), steps[1..], m))
  }

  /** Some step writes the minute, and no later one deletes it. */
  ghost predicate Stands(s: State, steps: seq<Step>, m: int)
    requires CanRun(s, steps)
    decreases |steps|
  {
    steps != [] &&
    var (s', rest) := (Apply(s, steps[0]), steps[1..]);
    (m in WrittenBy(s, steps[0]) && !DeletedIn(s', rest, m)) || Stands(s', rest, m)
  }

  lemma CommitWrites(s: State, step: CommitStep)
    requires CommitEnabled(s, step)
    ensures CommitApply(s, step).persisted ==
            if step.CommitPersist? then s.persisted + {s.commit.job.minute} else s.persisted
  {
  }

  lemma {:induction false} BatchWrites(s: State, step: BatchStep)
    requires BatchEnabled(s, step)
    ensures BatchApply(s, step).persisted ==
            s.persisted - DeletedBy(s, BatchDoes(step)) + WrittenBy(s, BatchDoes(step))
  {
    assert step.BatchClear? || step.BatchWrite? || BatchApply(s, step).persisted == s.persisted;
  }

  lemma {:induction false} StepWrites(s: State, step: Step)
    requires Enabled(s, step)
    ensures Apply(s, step).persisted == s.persisted - DeletedBy(s, step) + WrittenBy(s, step)
  {
    hide CommitApply, BatchApply;
    match step
    case MainDoes(x) => assert MainApply(s, x).persisted == s.persisted;
    case RebuildDoes(r) => assert RebuildApply(s, r).persisted == s.persisted;
    case PrepareDoes(p) => assert PrepareApply(s, p).persisted == s.persisted;
    case ComputeDoes(i, c) => assert ComputeApply(s, i, c).persisted == s.persisted;
    case CommitDoes(c) => CommitWrites(s, c);
    case BatchDoes(b) => BatchWrites(s, b);
  }

  lemma {:induction false} RunWrites(s: State, steps: seq<Step>, m: int)
    requires CanRun(s, steps)
    ensures m in After(s, steps).persisted <==> Stands(s, steps, m) || (m in s.persisted && !DeletedIn(s, steps, m))
    decreases |steps|
  {
    if steps == [] {
    } else {
      StepWrites(s, steps[0]);
      hide Enabled, Apply, WrittenBy, DeletedBy;
      RunWrites(Apply(s, steps[0]), steps[1..], m);
    }
  }

  /** Over every run: a minute's outputs are there if and only if some step wrote them and none deleted them since. */
  lemma {:induction false} OutputsExactly(
    next: int, frontier: Option<int>, backlog: set<int>, steps: seq<Step>, m: int)
    requires CanRun(InitialState(next, frontier, backlog), steps)
    ensures var s0 := InitialState(next, frontier, backlog); m in After(s0, steps).persisted <==> Stands(s0, steps, m)
  {
    RunWrites(InitialState(next, frontier, backlog), steps, m);
  }

  /** What lies between the given minutes and what was pending already. */
  ghost predicate TakenIn(pending: set<int>, from: int, through: int, m: int) {
    && (from <= m || exists a :: a in pending && a <= m)
    && (m <= through || exists b :: b in pending && m <= b)
  }

  /**
   The pending range grows over the minutes advanced muted or rebuilt, shrinks when a finished batch is retired, and
   is left alone by every other step.
   */
  lemma {:induction false} PendingMovesExactly(s: State, step: Step, m: int)
    requires Enabled(s, step)
    ensures m in Apply(s, step).historical <==>
            match step
            case MainDoes(MainAdvanceMuted(count)) => TakenIn(s.historical, s.next, s.next + count - 1, m)
            case RebuildDoes(RebuildMarkHistorical) =>
              if s.main.from <= s.main.through then TakenIn(s.historical, s.main.from, s.main.through, m)
              else m in s.historical
            case BatchDoes(BatchPoll) => m in s.historical && s.batch.to < m
            case _ => m in s.historical
  {
    match step
    case MainDoes(x) =>
      if x.MainAdvanceMuted? { PendExactly(s.historical, s.next, s.next + x.count - 1, m); }
      assert x.MainAdvanceMuted? || MainApply(s, x).historical == s.historical;
    case RebuildDoes(r) =>
      if r.RebuildMarkHistorical? && s.main.from <= s.main.through {
        PendExactly(s.historical, s.main.from, s.main.through, m);
      }
      assert r.RebuildMarkHistorical? || RebuildApply(s, r).historical == s.historical;
    case PrepareDoes(p) => assert PrepareApply(s, p).historical == s.historical;
    case ComputeDoes(i, c) => assert ComputeApply(s, i, c).historical == s.historical;
    case CommitDoes(c) => assert CommitApply(s, c).historical == s.historical;
    case BatchDoes(b) => assert b.BatchPoll? || BatchApply(s, b).historical == s.historical;
  }

  // ---------------------------------------------------------------- muted or publishing

  /** The kind of the last rebuild requested. */
  function LastRequest(steps: seq<Step>): Option<RebuildKind> {
    if steps == [] then None
    else
      var last := steps[|steps| - 1];
      if last.RebuildDoes? && last.rebuild.RebuildRequest? then Some(last.rebuild.kind)
      else LastRequest(steps[..|steps| - 1])
  }

  predicate Mutes(step: Step) {
    step == MainDoes(MainEnterMuted) || step == MainDoes(MainSkipGap)
  }

  /** The k-th step ends a catch-up cutover. */
  predicate EndsCutover(steps: seq<Step>, k: nat)
    requires k < |steps|
  {
    steps[k] == RebuildDoes(RebuildFinish) && LastRequest(steps[..k]) == Some(CatchupCutover)
  }

  /** Some step mutes, and no cutover ends after it. */
  ghost predicate LeavesMuted(steps: seq<Step>) {
    exists k :: 0 <= k < |steps| && Mutes(steps[k]) && NoCutoverAfter(steps, k)
  }

  ghost predicate NoCutoverAfter(steps: seq<Step>, k: nat) {
    forall l :: k < l < |steps| ==> !EndsCutover(steps, l)
  }

  predicate InRebuild(m: Main) {
    m.RebuildRequested? || m.RebuildGated? || m.RebuildBumped? || m.RebuildMarked? || m.RebuildStored?
  }

  lemma {:induction false} StepKeepsKind(s: State, step: Step)
    requires Enabled(s, step)
    ensures var s' := Apply(s, step);
            InRebuild(s'.main) ==>
              if step.RebuildDoes? && step.rebuild.RebuildRequest? then s'.main.kind == step.rebuild.kind
              else InRebuild(s.main) && s'.main.kind == s.main.kind
  {
    match step
    case MainDoes(x) => assert !InRebuild(MainApply(s, x).main);
    case RebuildDoes(r) => assert InRebuild(RebuildApply(s, r).main) || r.RebuildFinish?;
    case PrepareDoes(p) => assert PrepareApply(s, p).main == s.main;
    case ComputeDoes(i, c) => assert ComputeApply(s, i, c).main == s.main;
    case CommitDoes(c) => assert CommitApply(s, c).main == s.main;
    case BatchDoes(b) => assert BatchApply(s, b).main == s.main;
  }

  lemma {:induction false} StepMutes(s: State, step: Step)
    requires Enabled(s, step)
    ensures Apply(s, step).mode.MutedCatchup? <==>
            || Mutes(step)
            || (s.mode.MutedCatchup? && !(step == RebuildDoes(RebuildFinish) && s.main.kind.CatchupCutover?))
  {
    match step
    case MainDoes(x) => assert MainApply(s, x).mode == s.mode || Mutes(step);
    case RebuildDoes(r) => assert RebuildApply(s, r).mode == s.mode || r.RebuildFinish?;
    case PrepareDoes(p) => assert PrepareApply(s, p).mode == s.mode;
    case ComputeDoes(i, c) => assert ComputeApply(s, i, c).mode == s.mode;
    case CommitDoes(c) => assert CommitApply(s, c).mode == s.mode;
    case BatchDoes(b) => assert BatchApply(s, b).mode == s.mode;
  }

  lemma {:induction false} EndsInPrefix(init: seq<Step>, last: Step, l: nat)
    requires l < |init|
    ensures EndsCutover(init + [last], l) <==> EndsCutover(init, l)
  {
    assert (init + [last])[..l] == init[..l];
  }

  lemma {:induction false} StaysMuted(init: seq<Step>, last: Step)
    requires LeavesMuted(init) && !EndsCutover(init + [last], |init|)
    ensures LeavesMuted(init + [last])
  {
    var steps := init + [last];
    var k :| 0 <= k < |init| && Mutes(init[k]) && NoCutoverAfter(init, k);
    forall l | k < l < |steps| ensures !EndsCutover(steps, l) {
      if l < |init| { EndsInPrefix(init, last, l); }
    }
    assert Mutes(steps[k]) && NoCutoverAfter(steps, k);
  }

  lemma {:induction false} WasMuted(init: seq<Step>, last: Step)
    requires LeavesMuted(init + [last]) && !Mutes(last)
    ensures LeavesMuted(init) && !EndsCutover(init + [last], |init|)
  {
    var steps := init + [last];
    var k :| 0 <= k < |steps| && Mutes(steps[k]) && NoCutoverAfter(steps, k);
    forall l | k < l < |init| ensures !EndsCutover(init, l) { EndsInPrefix(init, last, l); }
    assert Mutes(init[k]) && NoCutoverAfter(init, k);
  }

  lemma {:induction false} LeavesMutedSnoc(init: seq<Step>, last: Step)
    ensures LeavesMuted(init + [last]) <==>
            Mutes(last) || (LeavesMuted(init) && !EndsCutover(init + [last], |init|))
  {
    var steps := init + [last];
    if Mutes(last) {
      assert Mutes(steps[|init|]) && NoCutoverAfter(steps, |init|);
    } else {
      if LeavesMuted(steps) { WasMuted(init, last); }
      if LeavesMuted(init) && !EndsCutover(steps, |init|) { StaysMuted(init, last); }
    }
  }

  /** A rebuild under way has a range, and a cutover under way is one of a muted engine. */
  predicate RebuildMeant(s: State) {
    InRebuild(s.main) ==> s.main.from <= s.main.through && (s.main.kind.CatchupCutover? ==> s.mode.MutedCatchup?)
  }

  lemma {:induction false} StepKeepsMeant(s: State, step: Step)
    requires RebuildMeant(s) && Enabled(s, step)
    ensures RebuildMeant(Apply(s, step))
  {
    match step
    case MainDoes(x) => assert !InRebuild(MainApply(s, x).main);
    case RebuildDoes(r) => assert RebuildApply(s, r).mode == s.mode || r.RebuildFinish?;
    case PrepareDoes(p) => assert PrepareApply(s, p).main == s.main && PrepareApply(s, p).mode == s.mode;
    case ComputeDoes(i, c) => assert ComputeApply(s, i, c).main == s.main && ComputeApply(s, i, c).mode == s.mode;
    case CommitDoes(c) => assert CommitApply(s, c).main == s.main && CommitApply(s, c).mode == s.mode;
    case BatchDoes(b) => assert BatchApply(s, b).main == s.main && BatchApply(s, b).mode == s.mode;
  }

  /** Over every run: a rebuild under way covers at least one minute, and cutovers only happen while muted. */
  lemma {:induction false} RebuildsAreMeant(next: int, frontier: Option<int>, backlog: set<int>, steps: seq<Step>)
    requires CanRun(InitialState(next, frontier, backlog), steps)
    ensures RebuildMeant(After(InitialState(next, frontier, backlog), steps))
    decreases |steps|
  {
    if steps == [] {
    } else {
      var s0, init := InitialState(next, frontier, backlog), steps[..|steps| - 1];
      LastStep(s0, steps);
      RebuildsAreMeant(next, frontier, backlog, init);
      StepKeepsMeant(After(s0, init), steps[|steps| - 1]);
    }
  }

  /**
   Over every run: live publishing is muted if and only if some step of the run entered muted catch-up or skipped a
   gap and no catch-up cutover has ended since.
   */
  lemma {:induction false} MutedExactly(next: int, frontier: Option<int>, backlog: set<int>, steps: seq<Step>)
    requires CanRun(InitialState(next, frontier, backlog), steps)
    ensures var s := After(InitialState(next, frontier, backlog), steps);
            && (s.mode.MutedCatchup? <==> LeavesMuted(steps))
            && (InRebuild(s.main) ==> LastRequest(steps) == Some(s.main.kind))
    decreases |steps|
  {
    if steps == [] {
    } else {
      var init, last := steps[..|steps| - 1], steps[|steps| - 1];
      LastStep(InitialState(next, frontier, backlog), steps);
      MutedExactly(next, frontier, backlog, init);
      var s := After(InitialState(next, frontier, backlog), init);
      StepMutes(s, last);
      StepKeepsKind(s, last);
      LeavesMutedSnoc(init, last);
      assert steps == init + [last] && steps[..|init|] == init;
      assert last == RebuildDoes(RebuildFinish) ==> InRebuild(s.main);
      hide Apply, LeavesMuted, InitialState, After, CanRun;
    }
  }
}
