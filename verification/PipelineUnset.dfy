/**
 The commit frontier left unset at the start: when the first resolution is harmless, exactly.  Until that
 resolution the engine behaves as its twin, the same engine with the frontier set just below the scheduler.
 */
module PipelineUnset {
  import opened Options
  import opened LivePipeline
  import opened PipelineAccounting
  import opened PipelineOrder
  import opened PipelineFencing

  /** The same state with the frontier set. */
  function Twin(s: State, first: int): State { s.(nextCommit := Some(first)) }

  /** Stale jobs lie in the rebuilt range, or in the one being rebuilt. */
  ghost predicate StaleBehind(s: State) {
    forall j :: InFlight(s, j) && j.epoch != s.epoch ==>
      (MidRebuild(s) && j.minute < s.emitEnd) || (TsFromMillis(s.override).Some? && j.minute <= s.override)
  }

  /** A rebuild finalizes minutes before it stores a frontier, and every stored frontier reaches the first minute. */
  predicate StoredReaches(s: State, first: int) {
    && (s.main.RebuildMarked? ==> s.finalized)
    && (TsFromMillis(s.override).Some? ==> s.finalized && first <= s.override + 1)
  }

  /** The frontier is unset, and `first` is the first minute given to the pipeline. */
  ghost predicate Unset(s: State, first: int) {
    && s.nextCommit.None? && first <= s.emitEnd
    && Base(s)
    && Invariant(Twin(s, first), first)
    && EmittedFrom(s, first)
    && RebuildReaches(s)
    && StaleBehind(s)
    && StoredReaches(s, first)
  }

  /** A recovery from a leading gap before anything was given to the pipeline moves its first minute. */
  function FirstAfter(s: State, first: int, step: Step): int {
    if step.MainDoes? && step.main.MainRecoverGap? && s.mode.Publishing? then step.main.resume else first
  }

  /** The first minute a run gives to the pipeline. */
  ghost function FirstGiven(s: State, first: int, steps: seq<Step>): int
    requires CanRun(s, steps)
    decreases |steps|
  {
    if steps == [] then first else FirstGiven(Apply(s, steps[0]), FirstAfter(s, first, steps[0]), steps[1..])
  }

  /** Where persisting has to start: at the first minute emitted, or just past the last rebuild. */
  function FirstDue(s: State, first: int): int {
    if TsFromMillis(s.override).Some? then Max(first, s.override + 1) else first
  }

  lemma {:induction false} TwinHolds(s: State, first: int, j: Job)
    ensures Copies(Twin(s, first), j) == Copies(s, j) && (InFlight(Twin(s, first), j) <==> InFlight(s, j))
  {
  }

  // ---------------------------------------------------------------- the twin takes the same steps

  lemma {:induction false} TwinCommits(s: State, first: int, step: CommitStep)
    requires s.nextCommit.None? && CommitLocal(s) && CommitEnabled(s, step)
    requires CommitApply(s, step).nextCommit.None?
    ensures CommitEnabled(Twin(s, first), step)
    ensures CommitApply(Twin(s, first), step) == Twin(CommitApply(s, step), first)
  {
    hide KeepEpoch;
    assert !CommitTaken(s.commit);
    if step.CommitResolve? {
      assert s.pending == map[] && TsFromMillis(s.override).None?;
    }
  }

  lemma {:induction false} TwinOfMainLoop(s: State, first: int, step: Step)
    requires Enabled(s, step) && (step.MainDoes? || step.RebuildDoes?)
    ensures Enabled(Twin(s, first), step) && Apply(Twin(s, first), step) == Twin(Apply(s, step), first)
  {
    match step
    case MainDoes(m) => assert MainApply(Twin(s, first), m) == Twin(MainApply(s, m), first);
    case RebuildDoes(r) => assert RebuildApply(Twin(s, first), r) == Twin(RebuildApply(s, r), first);
  }

  lemma {:induction false} TwinOfWorkers(s: State, first: int, step: Step)
    requires Enabled(s, step) && (step.PrepareDoes? || step.ComputeDoes? || step.BatchDoes?)
    ensures Enabled(Twin(s, first), step) && Apply(Twin(s, first), step) == Twin(Apply(s, step), first)
  {
    match step
    case PrepareDoes(p) => assert PrepareApply(Twin(s, first), p) == Twin(PrepareApply(s, p), first);
    case ComputeDoes(i, c) => assert ComputeApply(Twin(s, first), i, c) == Twin(ComputeApply(s, i, c), first);
    case BatchDoes(b) => assert BatchApply(Twin(s, first), b) == Twin(BatchApply(s, b), first);
  }

  lemma {:induction false} TwinSteps(s: State, first: int, step: Step)
    requires s.nextCommit.None? && CommitLocal(s) && Enabled(s, step) && Apply(s, step).nextCommit.None?
    ensures Enabled(Twin(s, first), step) && Apply(Twin(s, first), step) == Twin(Apply(s, step), first)
  {
    hide Twin, MainApply, RebuildApply, PrepareApply, ComputeApply, CommitApply, BatchApply, CommitLocal;
    if step.CommitDoes? {
      TwinCommits(s, first, step.commit);
    } else if step.MainDoes? || step.RebuildDoes? {
      TwinOfMainLoop(s, first, step);
    } else {
      TwinOfWorkers(s, first, step);
    }
  }

  // ---------------------------------------------------------------- stale jobs stay behind

  lemma {:induction false} ShrinkKeepsStaleBehind(s: State, s': State)
    requires StaleBehind(s) && Shrinks(s, s')
    requires s'.epoch == s.epoch && s'.override == s.override && s.emitEnd <= s'.emitEnd
    requires MidRebuild(s) ==> MidRebuild(s')
    ensures StaleBehind(s')
  {
    forall j ensures InFlight(s', j) ==> InFlight(s, j) {
      assert Copies(s', j) <= Copies(s, j);
    }
  }

  lemma {:induction false} RebuildKeepsStaleBehind(s: State, first: int, step: RebuildStep)
    requires Unset(s, first) && RebuildEnabled(s, step)
    ensures var s' := RebuildApply(s, step); StaleBehind(s') && StoredReaches(s', first)
  {
    var s' := RebuildApply(s, step);
    forall j ensures InFlight(s', j) <==> InFlight(s, j) { RebuildFlow(s, step, j); }
    forall j ensures InFlight(Twin(s, first), j) <==> InFlight(s, j) { TwinHolds(s, first, j); }
    hide InFlight, Copies, Base;
  }

  lemma {:induction false} MainKeepsStaleBehind(s: State, step: MainStep)
    requires Base(s) && StaleBehind(s) && MainEnabled(s, step) && s.emitEnd <= s.next
    ensures StaleBehind(MainApply(s, step))
  {
    forall j: Job ensures InFlight(MainApply(s, step), j) ==> InFlight(s, j) || j.epoch == s.epoch {
      MainFlow(s, step, j);
    }
  }

  lemma {:induction false} CommitKeepsStaleBehind(s: State, step: CommitStep)
    requires Base(s) && StaleBehind(s) && CommitEnabled(s, step)
    ensures StaleBehind(CommitApply(s, step))
  {
    ReceivedIsNew(s);
    forall j ensures Copies(CommitApply(s, step), j) <= Copies(s, j) { CommitFlow(s, step, j); }
    ShrinkKeepsStaleBehind(s, CommitApply(s, step));
  }

  lemma {:induction false} WorkersKeepStaleBehind(s: State, step: Step)
    requires StaleBehind(s) && Enabled(s, step) && (step.PrepareDoes? || step.ComputeDoes? || step.BatchDoes?)
    ensures StaleBehind(Apply(s, step))
  {
    var s' := Apply(s, step);
    assert s'.epoch == s.epoch && s'.override == s.override && s'.emitEnd == s.emitEnd && s'.main == s.main;
    forall j ensures Copies(s', j) <= Copies(s, j) {
      match step
      case PrepareDoes(p) => PrepareFlow(s, p, j);
      case ComputeDoes(i, c) => ComputeFlow(s, i, c, j);
      case BatchDoes(b) => BatchFlow(s, b, j);
    }
    hide InFlight, Copies, StaleBehind, Apply;
    ShrinkKeepsStaleBehind(s, s');
  }

  lemma {:induction false} StepKeepsStaleBehind(s: State, first: int, step: Step)
    requires Unset(s, first) && Enabled(s, step)
    ensures StaleBehind(Apply(s, step))
  {
    hide StaleBehind, PrepareApply, ComputeApply, BatchApply, RebuildApply;
    match step
    case MainDoes(m) => MainKeepsStaleBehind(s, m);
    case RebuildDoes(r) => RebuildKeepsStaleBehind(s, first, r);
    case CommitDoes(c) => CommitKeepsStaleBehind(s, c);
    case _ => WorkersKeepStaleBehind(s, step);
  }

  // ---------------------------------------------------------------- runs with the frontier unset

  lemma {:induction false} WorkersLeaveMainLoop(s: State, step: Step)
    requires Enabled(s, step) && !step.MainDoes? && !step.RebuildDoes?
    ensures var s' := Apply(s, step);
            && s'.main == s.main && s'.next == s.next && s'.emitEnd == s.emitEnd && s'.override == s.override
            && (s.finalized ==> s'.finalized)
  {
    match step
    case PrepareDoes(p) => assert PrepareApply(s, p).main == s.main;
    case ComputeDoes(i, c) => assert ComputeApply(s, i, c).main == s.main;
    case CommitDoes(c) => assert CommitApply(s, c).main == s.main;
    case BatchDoes(b) => assert BatchApply(s, b).main == s.main;
  }

  /** The main loop's own books, with the frontier unset. */
  ghost predicate BooksHold(s: State, first: int) {
    first <= s.emitEnd <= s.next && RebuildReaches(s) && StoredReaches(s, first)
  }

  lemma {:induction false} MainKeepsOwnBooks(s: State, first: int, step: MainStep)
    requires BooksHold(s, first) && MainEnabled(s, step)
    requires s.mode.Publishing? ==> s.emitEnd == s.next
    ensures BooksHold(MainApply(s, step), first)
  {
  }

  lemma {:induction false} StepKeepsBooks(s: State, first: int, step: Step)
    requires Unset(s, first) && Enabled(s, step) && Disciplined(s, step) && Apply(s, step).nextCommit.None?
    ensures BooksHold(Apply(s, step), first)
  {
    assert BooksHold(s, first);
    match step
    case MainDoes(m) => MainKeepsOwnBooks(s, first, m);
    case RebuildDoes(r) =>
      RebuildKeepsStaleBehind(s, first, r);
      hide Base, Invariant, StaleBehind, EmittedFrom;
    case _ =>
      WorkersLeaveMainLoop(s, step);
      hide Unset, Apply;
  }

  lemma {:induction false} EmptyTwinBase(s: State, first: int)
    requires Base(s) && s.nextCommit.None? && s.pending == map[]
    ensures Base(Twin(s, first))
  {
    forall j ensures Copies(Twin(s, first), j) == Copies(s, j) && (InFlight(Twin(s, first), j) <==> InFlight(s, j)) {
      TwinHolds(s, first, j);
    }
    hide InFlight, Copies;
  }

  lemma {:induction false} LogSetsFrontier(s: State)
    requires LogOrdered(s)
    ensures s.log != [] ==> s.nextCommit.Some?
  {
    if s.log != [] {
      var first := s.log[0];
      assert s.nextCommit.Some? && first.minute < s.nextCommit.value;
    }
  }

  lemma {:induction false} EmptyTwinOrdered(s: State, first: int)
    requires s.main.MainIdle? && 2 <= first == s.emitEnd == s.next && TsFromMillis(s.override).None?
    requires forall j :: !InFlight(s, j)
    ensures Ordered(Twin(s, first), first)
  {
    forall j ensures !InFlight(Twin(s, first), j) { TwinHolds(s, first, j); }
    hide InFlight, Copies;
  }

  /** As long as nothing has been given to the pipeline, the scheduler's next minute will be the first. */
  lemma {:induction false} NothingGivenYet(s: State, first: int)
    requires Base(s) && Roomy(s) && s.nextCommit.None? && s.main.MainIdle?
    requires 2 <= first == s.emitEnd == s.next && TsFromMillis(s.override).None?
    requires forall j :: !InFlight(s, j)
    ensures Unset(s, first)
  {
    forall m ensures m !in s.pending { assert m in s.pending ==> InFlight(s, Job(s.pending[m], m)); }
    LogSetsFrontier(s);
    EmptyTwinBase(s, first);
    EmptyTwinOrdered(s, first);
    assert EmittedFrom(s, first) && StaleBehind(s);
    hide Base, InFlight, Ordered, EmittedFrom, StaleBehind;
  }

  lemma {:induction false} RecoveryGivesNothing(s: State, resume: int, j: Job)
    requires MainEnabled(s, MainRecoverGap(resume))
    ensures InFlight(MainApply(s, MainRecoverGap(resume)), j) <==> InFlight(s, j)
  {
    MainFlow(s, MainRecoverGap(resume), j);
    hide Copies;
  }

  /** A recovery before anything was given to the pipeline: the engine is as at a start with another minute. */
  lemma {:induction false} RecoveryKeepsUnset(s: State, first: int, resume: int)
    requires Unset(s, first) && s.mode.Publishing? && MainEnabled(s, MainRecoverGap(resume))
    requires forall j :: !InFlight(s, j)
    ensures Unset(MainApply(s, MainRecoverGap(resume)), resume)
  {
    var s' := MainApply(s, MainRecoverGap(resume));
    StepKeepsBase(s, MainDoes(MainRecoverGap(resume)));
    forall j ensures !InFlight(s', j) { RecoveryGivesNothing(s, resume, j); }
    assert Roomy(s') && 2 <= s'.next;
    hide InFlight, Base, Unset, Roomy;
    NothingGivenYet(s', resume);
  }

  lemma {:induction false} OtherStepKeepsUnset(s: State, first: int, step: Step)
    requires Unset(s, first) && Enabled(s, step) && Disciplined(s, step) && Apply(s, step).nextCommit.None?
    requires Disciplined(Twin(s, first), step)
    ensures Unset(Apply(s, step), first)
  {
    StepKeepsStaleBehind(s, first, step);
    StepKeepsBooks(s, first, step);
    StepKeepsBase(s, step);
    StepKeepsFence(s, step, 0, first - 1, 0);
    TwinSteps(s, first, step);
    hide Invariant, Base, StaleBehind, Apply, BehindFence, RebuildReaches, StoredReaches, Disciplined;
    StepKeepsInvariant(Twin(s, first), first, step);
  }

  lemma {:induction false} StepKeepsUnset(s: State, first: int, step: Step)
    requires Unset(s, first) && Enabled(s, step) && Disciplined(s, step) && Apply(s, step).nextCommit.None?
    ensures Unset(Apply(s, step), FirstAfter(s, first, step))
  {
    if step.MainDoes? && step.main.MainRecoverGap? && s.mode.Publishing? {
      RecoveryKeepsUnset(s, first, step.main.resume);
    } else {
      assert Disciplined(Twin(s, first), step) by { hide Unset; }
      hide Unset, Disciplined, Apply;
      OtherStepKeepsUnset(s, first, step);
    }
  }

  lemma {:induction false} UnsetStaysBack(s: State, steps: seq<Step>)
    requires Base(s) && CanRun(s, steps) && After(s, steps).nextCommit.None?
    ensures s.nextCommit.None?
  {
    RunMovesFrontierUp(s, steps);
  }

  /** While a disciplined run leaves the frontier unset, the twin's interval is what is in flight. */
  lemma {:induction false} RunKeepsUnset(s: State, first: int, steps: seq<Step>)
    requires Unset(s, first) && DisciplinedRun(s, steps)
    requires CanRun(s, steps) && After(s, steps).nextCommit.None?
    ensures Unset(After(s, steps), FirstGiven(s, first, steps))
    decreases |steps|
  {
    if steps == [] {
    } else {
      StepKeepsBase(s, steps[0]);
      UnsetStaysBack(Apply(s, steps[0]), steps[1..]);
      StepKeepsUnset(s, first, steps[0]);
      hide Unset, Apply, FirstAfter;
      RunKeepsUnset(Apply(s, steps[0]), FirstAfter(s, first, steps[0]), steps[1..]);
    }
  }

  lemma {:induction false} InitialUnset(next: int, backlog: set<int>)
    requires 2 <= next
    ensures Unset(InitialState(next, None, backlog), next)
  {
    InitialBase(next, None, backlog);
    InitialIsEmpty(next, None, backlog);
    NothingGivenYet(InitialState(next, None, backlog), next);
  }

  // ---------------------------------------------------------------- the first resolution

  /**
   A resolution starts persisting where it has to: nothing is pending, a rebuild is under way, or the first due
   is there.
   */
  ghost predicate StartsWhereDue(s: State, first: int) {
    || s.pending == map[]
    || MidRebuild(s)
    || FirstPending(s.pending).value <= FirstDue(s, first)
  }

  /** What the first resolution finds: a pending minute is current and not before the due one, or was rebuilt. */
  lemma {:induction false} FirstFound(s: State, first: int)
    requires Unset(s, first) && s.pending != map[]
    ensures var m := FirstPending(s.pending).value;
            && m < s.emitEnd
            && (!MidRebuild(s) ==>
                  if s.pending[m] == s.epoch then FirstDue(s, first) <= m
                  else TsFromMillis(s.override).Some? && m <= s.override)
  {
    var m := FirstPending(s.pending).value;
    var j := Job(s.pending[m], m);
    assert InFlight(s, j);
    TwinHolds(s, first, j);
    assert Expected(Twin(s, first)) == FirstDue(s, first);
  }

  /** The due minute is in flight whenever a current minute is. */
  lemma {:induction false} DueIsInFlight(s: State, first: int, m: int)
    requires Unset(s, first) && !MidRebuild(s) && m in s.pending && s.pending[m] == s.epoch
    ensures InFlight(s, Job(s.epoch, FirstDue(s, first)))
  {
    var due := FirstDue(s, first);
    assert InFlight(s, Job(s.epoch, m));
    TwinHolds(s, first, Job(s.epoch, m));
    TwinHolds(s, first, Job(s.epoch, due));
    assert Expected(Twin(s, first)) == due;
  }

  lemma {:induction false} ResolveKeepsCurrent(s: State, first: int, j: Job)
    requires Unset(s, first) && CommitEnabled(s, CommitResolve) && j.epoch == s.epoch && !MidRebuild(s)
    ensures InFlight(CommitApply(s, CommitResolve), j) <==> InFlight(s, j)
  {
    var s' := CommitApply(s, CommitResolve);
    CommitFlow(s, CommitResolve, j);
    if InPending(s.pending, j) {
      assert InFlight(s, j);
      TwinHolds(s, first, j);
      assert FirstDue(s, first) <= j.minute;
      FirstFound(s, first);
    }
  }

  lemma {:induction false} ResolvedExpected(s: State, first: int)
    requires Unset(s, first) && CommitEnabled(s, CommitResolve) && CommitApply(s, CommitResolve).nextCommit.Some?
    ensures var s' := CommitApply(s, CommitResolve);
            && (StartsWhereDue(s, first) && !MidRebuild(s) ==> Expected(s') == FirstDue(s, first))
            && (StartsWhereDue(s, first) ==> Expected(s') <= s.emitEnd)
            && (!StartsWhereDue(s, first) ==>
                  var m := FirstPending(s.pending).value;
                  s.pending[m] == s.epoch && FirstDue(s, first) < m == s'.nextCommit.value == Expected(s'))
  {
    assert Expected(Twin(s, first)) == FirstDue(s, first) <= s.emitEnd;
    if s.pending != map[] {
      FirstFound(s, first);
    }
  }

  lemma {:induction false} ResolveLeavesRest(s: State)
    requires CommitEnabled(s, CommitResolve)
    ensures var s' := CommitApply(s, CommitResolve);
            s' == s.(commit := s'.commit, nextCommit := s'.nextCommit, pending := s'.pending,
                     readyPending := s'.readyPending)
  {
  }

  lemma {:induction false} CurrentAfterResolve(s: State, first: int)
    requires Unset(s, first) && CommitEnabled(s, CommitResolve) && !MidRebuild(s)
    ensures forall j: Job :: j.epoch == s.epoch ==>
              (InFlight(CommitApply(s, CommitResolve), j) <==> FirstDue(s, first) <= j.minute < s.emitEnd)
  {
    hide InFlight, CommitApply, StaleBehind;
    forall j: Job | j.epoch == s.epoch
      ensures InFlight(CommitApply(s, CommitResolve), j) <==> FirstDue(s, first) <= j.minute < s.emitEnd
    {
      ResolveKeepsCurrent(s, first, j);
      TwinHolds(s, first, j);
      assert Expected(Twin(s, first)) == FirstDue(s, first);
    }
  }

  lemma {:induction false} ResolvedInterval(s: State, first: int)
    requires Unset(s, first) && CommitEnabled(s, CommitResolve) && CommitApply(s, CommitResolve).nextCommit.Some?
    ensures var s' := CommitApply(s, CommitResolve);
            && (StartsWhereDue(s, first) ==> InFlightIsInterval(s', first))
            && (!StartsWhereDue(s, first) ==>
                  && InFlight(s', Job(s.epoch, FirstDue(s, first))) && FirstDue(s, first) < s'.nextCommit.value
                  && !InFlightIsInterval(s', first))
  {
    var s' := CommitApply(s, CommitResolve);
    ResolvedExpected(s, first);
    ResolveLeavesRest(s);
    hide CommitApply, InFlight, Base, Roomy, EmittedFrom, StaleBehind, RebuildReaches;
    if !MidRebuild(s) {
      CurrentAfterResolve(s, first);
      if !StartsWhereDue(s, first) {
        DueIsInFlight(s, first, FirstPending(s.pending).value);
      }
    }
  }

  /**
   The first resolution, exactly: it leaves the interval invariant intact if and only if the least pending
   minute is not past the first one due; otherwise that due minute is in flight and already below the frontier.
   */
  lemma {:induction false} FirstResolutionExactly(s: State, first: int)
    requires Unset(s, first) && CommitEnabled(s, CommitResolve) && CommitApply(s, CommitResolve).nextCommit.Some?
    ensures var s' := CommitApply(s, CommitResolve);
            && (Ordered(s', first) <==> StartsWhereDue(s, first))
            && (StartsWhereDue(s, first) ==> Invariant(s', first))
            && (!StartsWhereDue(s, first) ==>
                  InFlight(s', Job(s.epoch, FirstDue(s, first))) && FirstDue(s, first) < s'.nextCommit.value)
  {
    var s' := CommitApply(s, CommitResolve);
    StepKeepsBase(s, CommitDoes(CommitResolve));
    CommitKeepsRoomy(s, CommitResolve);
    ResolvedExpected(s, first);
    ResolvedInterval(s, first);
    ResolveLeavesRest(s);
    hide CommitApply, InFlight, Base, Roomy, StartsWhereDue, StaleBehind, InFlightIsInterval, FirstPending;
  }

  /**
   From the start with the frontier unset, over every disciplined run: the first resolution that sets the
   frontier keeps the interval invariant if and only if no due minute is still on its way, that is, the first
   minute resolved is the first one given to the pipeline, or the first after a rebuild.  From there on every
   disciplined continuation keeps it.
   */
  lemma {:induction false} UnsetFrontierExactly(next: int, backlog: set<int>, steps: seq<Step>, rest: seq<Step>)
    requires 2 <= next && DisciplinedRun(InitialState(next, None, backlog), steps)
    ensures CanRun(InitialState(next, None, backlog), steps)
    ensures var s := After(InitialState(next, None, backlog), steps);
            var first := FirstGiven(InitialState(next, None, backlog), next, steps);
            s.nextCommit.None? && CommitEnabled(s, CommitResolve) && CommitApply(s, CommitResolve).nextCommit.Some? ==>
              var s' := CommitApply(s, CommitResolve);
              && (Ordered(s', first) <==> StartsWhereDue(s, first))
              && (StartsWhereDue(s, first) && DisciplinedRun(s', rest) ==>
                CanRun(s', rest) && Invariant(After(s', rest), first))
  {
    DisciplinedCanRun(InitialState(next, None, backlog), steps);
    var s := After(InitialState(next, None, backlog), steps);
    var first := FirstGiven(InitialState(next, None, backlog), next, steps);
    hide Invariant, Unset, Ordered, StartsWhereDue;
    if s.nextCommit.None? && CommitEnabled(s, CommitResolve) && CommitApply(s, CommitResolve).nextCommit.Some? {
      InitialUnset(next, backlog);
      RunKeepsUnset(InitialState(next, None, backlog), next, steps);
      FirstResolutionExactly(s, first);
      var s' := CommitApply(s, CommitResolve);
      if StartsWhereDue(s, first) && DisciplinedRun(s', rest) {
        DisciplinedCanRun(s', rest);
        RunKeepsInvariant(s', first, rest);
      }
    }
  }
}
