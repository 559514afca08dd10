/**
 The frontier the commit worker starts from, decided for every value the startup can give it, and the recovery
 from a leading gap, which moves the scheduler without moving the frontier.
 */
module PipelineFrontiers {
  import opened Options
  import opened LivePipeline
  import opened PipelineAccounting
  import opened PipelineFencing
  import opened PipelineLedger
  import opened PipelineOrder
  import opened PipelineLimits
  import opened PipelineUnset

  // ---------------------------------------------------------------- what the startup gives

  function EffectiveLiveCommitFrontier(
    persisted: Option<int>, startupCutoff: Option<int>, catchupEnabled: bool): Option<int>
  {
    if !catchupEnabled then persisted
    else if startupCutoff.None? then persisted
    else if persisted.None? then Some(startupCutoff.value - 1)
    else Some(Max(persisted.value, startupCutoff.value - 1))
  }

  /** The frontier is set, and not behind the minute before the scheduler's first. */
  predicate FrontierReaches(frontier: Option<int>, next: int) {
    frontier.Some? && next - 1 <= frontier.value
  }

  /**
   A startup replay leaves the scheduler at its cutoff.  The frontier then reaches the scheduler, exactly, when
   muted catch-up is configured and there was a replay, or the last persisted minute reaches it by itself.
   */
  lemma {:induction false} StartupFrontierExactly(
    persisted: Option<int>, startupCutoff: Option<int>, catchupEnabled: bool, next: int)
    requires startupCutoff.Some? ==> startupCutoff.value == next
    ensures FrontierReaches(EffectiveLiveCommitFrontier(persisted, startupCutoff, catchupEnabled), next) <==>
            (catchupEnabled && startupCutoff.Some?) || FrontierReaches(persisted, next)
  {
  }

  // ---------------------------------------------------------------- a frontier just below the scheduler

  /** The current minutes in flight are exactly those from the expected one to the end, none left out. */
  ghost predicate WholeInterval(s: State) {
    && s.nextCommit.Some?
    && (!MidRebuild(s) ==> forall m :: InFlight(s, Job(s.epoch, m)) <==> Expected(s) <= m < s.emitEnd)
  }

  /** One more disciplined step at the end of a run that starts no rebuild. */
  lemma {:induction false} Extend(s0: State, run: seq<Step>, step: Step) returns (longer: seq<Step>)
    requires DisciplinedRun(s0, run) && CanRun(s0, run) && NoRebuild(run)
    requires Enabled(After(s0, run), step) && Disciplined(After(s0, run), step) && !step.RebuildDoes?
    ensures longer == run + [step] && DisciplinedRun(s0, longer) && CanRun(s0, longer) && NoRebuild(longer)
    ensures After(s0, longer) == Apply(After(s0, run), step)
    decreases |run|
  {
    longer := run + [step];
    if run == [] {
      assert longer == [step] && longer[1..] == [];
      assert CanRun(Apply(s0, step), []) && DisciplinedRun(Apply(s0, step), []);
    } else {
      assert NoRebuild(run[1..]) by {
        assert forall k :: 0 <= k < |run| - 1 ==> run[1..][k] == run[k + 1];
      }
      var rest := Extend(Apply(s0, run[0]), run[1..], step);
      assert longer[0] == run[0] && longer[1..] == rest;
    }
  }

  /** The disciplines ask nothing of the workers. */
  lemma {:induction false} ExtendWorker(s0: State, run: seq<Step>, step: Step) returns (longer: seq<Step>)
    requires DisciplinedRun(s0, run) && CanRun(s0, run) && NoRebuild(run)
    requires Enabled(After(s0, run), step) && !step.MainDoes? && !step.RebuildDoes?
    ensures longer == run + [step] && DisciplinedRun(s0, longer) && CanRun(s0, longer) && NoRebuild(longer)
    ensures After(s0, longer) == Apply(After(s0, run), step)
  {
    longer := Extend(s0, run, step);
  }

  /** A run that gives one minute to the pipeline. */
  lemma {:induction false} OneMinuteGiven(next: int, frontier: int, backlog: set<int>) returns (run: seq<Step>)
    ensures var s0 := InitialState(next, Some(frontier), backlog);
            && DisciplinedRun(s0, run) && CanRun(s0, run) && NoRebuild(run)
            && After(s0, run) == s0.(tasks := [Task(1, [next])], preparePending := 1, next := next + 1,
                                     emitEnd := next + 1, owed := {next})
  {
    var s0 := InitialState(next, Some(frontier), backlog);
    run := Extend(s0, [], MainDoes(MainLoadReady));
    run := Extend(s0, run, MainDoes(MainLoadPrepare));
    run := Extend(s0, run, MainDoes(MainEnqueue(1)));
    assert MinuteSeq(next, 1) == [next] && MinuteRange(next, next + 1) == {next};
  }

  ghost predicate AlwaysWhole(s0: State) {
    forall steps :: DisciplinedRun(s0, steps) ==> CanRun(s0, steps) && WholeInterval(After(s0, steps))
  }

  /**
   For a set frontier, exactly: every disciplined run has the whole interval in flight if and only if the
   frontier starts as the minute before the scheduler's first.
   */
  lemma {:induction false} WholeIntervalExactly(next: int, frontier: int, backlog: set<int>)
    requires 2 <= next
    ensures AlwaysWhole(InitialState(next, Some(frontier), backlog)) <==> frontier == next - 1
  {
    var s0 := InitialState(next, Some(frontier), backlog);
    if frontier == next - 1 {
      forall steps | DisciplinedRun(s0, steps) ensures CanRun(s0, steps) && WholeInterval(After(s0, steps)) {
        InFlightIsExactlyTheInterval(next, frontier, backlog, steps);
      }
    } else if frontier < next - 1 {
      InitialIsEmpty(next, Some(frontier), backlog);
      assert !InFlight(s0, Job(s0.epoch, frontier + 1));
      assert DisciplinedRun(s0, []) && CanRun(s0, []) && !WholeInterval(After(s0, []));
    } else {
      var run := OneMinuteGiven(next, frontier, backlog);
      var s := After(s0, run);
      assert InMinutes(1, s.tasks[0].minutes, Job(1, next)) == 1;
      assert InFlight(s, Job(s.epoch, next)) && next < Expected(s);
    }
  }

  /** Live minutes are persisted past the frontier's start only, and never before the scheduler's first. */
  lemma {:induction false} PersistedPastFrontier(next: int, frontier: int, backlog: set<int>, steps: seq<Step>)
    requires CanRun(InitialState(next, Some(frontier), backlog), steps)
    ensures var s := After(InitialState(next, Some(frontier), backlog), steps);
            forall k :: 0 <= k < |s.log| ==> frontier < s.log[k].minute && next <= s.log[k].minute
  {
    InitialBase(next, Some(frontier), backlog);
    InitialIsEmpty(next, Some(frontier), backlog);
    RunKeepsFence(InitialState(next, Some(frontier), backlog), steps, 0, next - 1, 0);
    LaterPersistsAtOrAbove(InitialState(next, Some(frontier), backlog), steps);
  }

  // ---------------------------------------------------------------- a frontier behind the scheduler

  /** The commit worker waits for the minute after the frontier, which the scheduler is already past. */
  lemma {:induction false} BehindFrontierStalls(next: int, frontier: int, backlog: set<int>, steps: seq<Step>)
    requires frontier + 1 < next
    requires CanRun(InitialState(next, Some(frontier), backlog), steps) && NoRebuild(steps)
    ensures var s := After(InitialState(next, Some(frontier), backlog), steps);
            s.log == [] && Stalled(s, frontier + 1) && Expected(s) == frontier + 1
  {
    var s0 := InitialState(next, Some(frontier), backlog);
    InitialBase(next, Some(frontier), backlog);
    InitialIsEmpty(next, Some(frontier), backlog);
    assert !InFlight(s0, Job(s0.epoch, frontier + 1));
    StallLasts(s0, frontier + 1, steps);
  }

  lemma {:induction false} CommitStepsAreNoRebuild(steps: seq<Step>, lastCall: seq<Step>)
    requires NoRebuild(steps) && forall k :: 0 <= k < |lastCall| ==> lastCall[k].CommitDoes?
    ensures NoRebuild(steps + lastCall)
  {
  }

  /**
   At the exit, for a frontier behind the scheduler and no rebuild: every minute ever given to the pipeline is
   left uncommitted.
   */
  lemma {:induction false} BehindFrontierLeavesAll(
    next: int, frontier: int, backlog: set<int>, steps: seq<Step>, lastCall: seq<Step>)
    requires 2 <= next && frontier + 1 < next && NoRebuild(steps)
    requires DisciplinedRun(InitialState(next, Some(frontier), backlog), steps)
    requires CanRun(InitialState(next, Some(frontier), backlog), steps)
    requires LastCall(After(InitialState(next, Some(frontier), backlog), steps), lastCall)
    ensures var s' := After(After(InitialState(next, Some(frontier), backlog), steps), lastCall);
            s'.commit.CommitWaiting? ==> s'.pending.Keys == MinuteRange(next, s'.emitEnd)
  {
    var s0 := InitialState(next, Some(frontier), backlog);
    CommitStepsAreNoRebuild(steps, lastCall);
    RunConcat(s0, steps, lastCall);
    NothingUncommittedAtExit(next, frontier, backlog, steps, lastCall);
    BehindFrontierStalls(next, frontier, backlog, steps + lastCall);
  }

  /** That minute prepared and handed over. */
  lemma {:induction false} OneMinutePrepared(next: int, frontier: int, backlog: set<int>) returns (run: seq<Step>)
    ensures var s0 := InitialState(next, Some(frontier), backlog);
            && DisciplinedRun(s0, run) && CanRun(s0, run) && NoRebuild(run)
            && After(s0, run) == s0.(ready := [Job(1, next)], readyPending := 1, next := next + 1,
                                     emitEnd := next + 1, owed := {next}, finalized := true)
  {
    var s0 := InitialState(next, Some(frontier), backlog);
    run := OneMinuteGiven(next, frontier, backlog);
    hide MinuteSeq, MinuteRange, CanRun, DisciplinedRun, NoRebuild;
    run := ExtendWorker(s0, run, PrepareDoes(PrepareReceive));
    run := ExtendWorker(s0, run, PrepareDoes(PrepareReadEpoch));
    assert After(s0, run).prepare == PrepareHandoff(1, [next], false);
    run := ExtendWorker(s0, run, PrepareDoes(PrepareCount));
    run := ExtendWorker(s0, run, PrepareDoes(PrepareSend));
    run := ExtendWorker(s0, run, PrepareDoes(PrepareSettle));
  }

  /** The same minute computed. */
  lemma {:induction false} OneMinuteComputed(next: int, frontier: int, backlog: set<int>) returns (run: seq<Step>)
    ensures var s0 := InitialState(next, Some(frontier), backlog);
            && DisciplinedRun(s0, run) && CanRun(s0, run) && NoRebuild(run)
            && After(s0, run) == s0.(computed := [Job(1, next)], readyPending := 1, next := next + 1,
                                     emitEnd := next + 1, owed := {next}, finalized := true)
  {
    var s0 := InitialState(next, Some(frontier), backlog);
    assert s0.slots == [SlotIdle, SlotIdle, SlotIdle];
    run := OneMinutePrepared(next, frontier, backlog);
    hide CanRun, DisciplinedRun, NoRebuild;
    run := ExtendWorker(s0, run, ComputeDoes(0, ComputeReceive));
    run := ExtendWorker(s0, run, ComputeDoes(0, ComputeReadEpoch));
    assert After(s0, run).slots == [SlotComputing(Job(1, next)), SlotIdle, SlotIdle];
    run := ExtendWorker(s0, run, ComputeDoes(0, ComputeFinish));
    run := ExtendWorker(s0, run, ComputeDoes(0, ComputeSend));
  }

  /** The same minute inserted into the commit map; the pipeline has drained. */
  lemma {:induction false} OneMinuteDrained(next: int, frontier: int, backlog: set<int>) returns (run: seq<Step>)
    ensures var s0 := InitialState(next, Some(frontier), backlog);
            && DisciplinedRun(s0, run) && CanRun(s0, run) && NoRebuild(run)
            && var s := After(s0, run);
               Drained(s) && s.commit.CommitEntering? && s.pending == map[next := 1] && s.epoch == 1
               && s.nextCommit == Some(frontier + 1) && s.override == 0
  {
    var s0 := InitialState(next, Some(frontier), backlog);
    run := OneMinuteComputed(next, frontier, backlog);
    hide CanRun, DisciplinedRun, NoRebuild;
    run := ExtendWorker(s0, run, CommitDoes(CommitReceive));
    run := ExtendWorker(s0, run, CommitDoes(CommitInsert));
  }

  /** A commit call that waits for a minute before the only pending one returns with that minute. */
  lemma {:induction false} CallReturnsWaiting(s: State, minute: int) returns (call: seq<Step>)
    requires Drained(s) && s.commit.CommitEntering? && s.pending == map[minute := s.epoch]
    requires s.nextCommit.Some? && s.nextCommit.value < minute && s.override == 0
    ensures LastCall(s, call) && After(s, call).commit.CommitWaiting? && After(s, call).pending == s.pending
  {
    call := [CommitDoes(CommitDropStale), CommitDoes(CommitResolve), CommitDoes(CommitReturn)];
    var s1 := Apply(s, CommitDoes(CommitDropStale));
    assert s1.pending == s.pending;
    var s2 := Apply(s1, CommitDoes(CommitResolve));
    assert s2.pending == s.pending && s2.nextCommit == s.nextCommit;
    var s3 := Apply(s2, CommitDoes(CommitReturn));
    assert call[1..][1..] == [CommitDoes(CommitReturn)] && call[1..][1..][1..] == [];
    assert CanRun(s3, []) && After(s3, []) == s3;
    assert CanRun(s2, call[1..][1..]) && After(s2, call[1..][1..]) == s3;
    assert CanRun(s1, call[1..]) && After(s1, call[1..]) == s3;
  }

  /** Whatever disciplined run has drained, the commit worker's last call returns with nothing. */
  ghost predicate ExitsClean(s0: State) {
    forall steps, lastCall ::
      DisciplinedRun(s0, steps) && CanRun(s0, steps) && LastCall(After(s0, steps), lastCall)
      && After(After(s0, steps), lastCall).commit.CommitWaiting? ==>
        After(After(s0, steps), lastCall).pending == map[]
  }

  /** The exit for set frontiers, exactly: it is always clean if and only if the frontier reaches the scheduler. */
  lemma {:induction false} ExitsCleanExactly(next: int, frontier: int, backlog: set<int>)
    requires 2 <= next
    ensures ExitsClean(InitialState(next, Some(frontier), backlog)) <==> FrontierReaches(Some(frontier), next)
  {
    var s0 := InitialState(next, Some(frontier), backlog);
    if next - 1 <= frontier {
      forall steps, lastCall |
        DisciplinedRun(s0, steps) && CanRun(s0, steps) && LastCall(After(s0, steps), lastCall)
        && After(After(s0, steps), lastCall).commit.CommitWaiting?
        ensures After(After(s0, steps), lastCall).pending == map[]
      {
        NothingUncommittedAtExit(next, frontier, backlog, steps, lastCall);
      }
    } else {
      var steps := OneMinuteDrained(next, frontier, backlog);
      var lastCall := CallReturnsWaiting(After(s0, steps), next);
      assert After(After(s0, steps), lastCall).pending[next] == 1;
    }
  }

  // ---------------------------------------------------------------- recovery from a leading gap

  lemma {:induction false} RecoveryOrderedExactly(s: State, low: int, resume: int)
    requires Ordered(s, low) && low <= Expected(s) && MainEnabled(s, MainRecoverGap(resume))
    ensures Ordered(MainApply(s, MainRecoverGap(resume)), low) <==> s.mode.MutedCatchup? || resume <= Expected(s)
  {
    var s' := MainApply(s, MainRecoverGap(resume));
    forall j ensures InFlight(s', j) <==> InFlight(s, j) { MainFlow(s, MainRecoverGap(resume), j); }
    hide InFlight, Copies;
    if s.mode.Publishing? && Expected(s) < resume {
      var passed := Job(s.epoch, Max(Expected(s), s.next));
      assert !InFlight(s', passed) && Expected(s') <= passed.minute < s'.emitEnd;
    }
  }

  /**
   A recovery with the frontier set, exactly: the interval survives if and only if the engine is muted or the
   frontier is already where the scheduler resumes.
   */
  lemma {:induction false} RecoveryExactly(s: State, low: int, resume: int)
    requires Invariant(s, low) && low <= Expected(s) && MainEnabled(s, MainRecoverGap(resume))
    ensures Invariant(MainApply(s, MainRecoverGap(resume)), low) <==>
            s.mode.MutedCatchup? || resume <= Expected(s)
  {
    StepKeepsBase(s, MainDoes(MainRecoverGap(resume)));
    MainKeepsRoomy(s, MainRecoverGap(resume));
    RecoveryOrderedExactly(s, low, resume);
    hide Base, Roomy, Ordered;
  }

  /** Otherwise no continuation without a rebuild persists past the minutes the scheduler had reached. */
  lemma {:induction false} RecoveryStalls(s: State, low: int, resume: int, steps: seq<Step>)
    requires Invariant(s, low) && low <= Expected(s) && MainEnabled(s, MainRecoverGap(resume))
    requires s.mode.Publishing? && Expected(s) < resume
    requires CanRun(MainApply(s, MainRecoverGap(resume)), steps) && NoRebuild(steps)
    ensures var s' := After(MainApply(s, MainRecoverGap(resume)), steps);
            StaysBefore(MainApply(s, MainRecoverGap(resume)), s', Max(Expected(s), s.next))
  {
    var hole := Max(Expected(s), s.next);
    StepKeepsBase(s, MainDoes(MainRecoverGap(resume)));
    MainFlow(s, MainRecoverGap(resume), Job(s.epoch, hole));
    assert !InFlight(s, Job(s.epoch, hole));
    hide Base, Roomy, InFlight, Copies;
    StallLasts(MainApply(s, MainRecoverGap(resume)), hole, steps);
  }

  /**
   With the frontier just below the scheduler such a recovery can be the first step of all; live persistence
   then never begins without a rebuild.
   */
  lemma {:induction false} RecoveryAtStartStalls(next: int, backlog: set<int>, resume: int, steps: seq<Step>)
    requires 2 <= next < resume
    requires CanRun(InitialState(next, Some(next - 1), backlog), [MainDoes(MainRecoverGap(resume))] + steps)
    requires NoRebuild(steps)
    ensures After(InitialState(next, Some(next - 1), backlog), [MainDoes(MainRecoverGap(resume))] + steps).log == []
  {
    var s0 := InitialState(next, Some(next - 1), backlog);
    var run := [MainDoes(MainRecoverGap(resume))] + steps;
    assert run[1..] == steps;
    InitialInvariant(next, next - 1, backlog);
    assert s0.log == [] && Expected(s0) == next && s0.mode.Publishing?;
    assert Expected(MainApply(s0, MainRecoverGap(resume))) == next && MainApply(s0, MainRecoverGap(resume)).log == [];
    hide Invariant, InitialState, MainApply;
    RecoveryStalls(s0, next, resume, steps);
  }

  /**
   With the frontier unset, exactly: the recovery is as harmless as a start at the resumed minute if and only if
   nothing is in flight.
   */
  lemma {:induction false} UnsetRecoveryExactly(s: State, first: int, resume: int)
    requires Unset(s, first) && s.mode.Publishing? && MainEnabled(s, MainRecoverGap(resume))
    ensures Unset(MainApply(s, MainRecoverGap(resume)), resume) <==> forall j :: !InFlight(s, j)
  {
    var s' := MainApply(s, MainRecoverGap(resume));
    forall j ensures InFlight(s', j) <==> InFlight(s, j) { MainFlow(s, MainRecoverGap(resume), j); }
    if forall j :: !InFlight(s, j) {
      RecoveryKeepsUnset(s, first, resume);
    } else {
      var j :| InFlight(s, j);
      assert j.minute < s.next;
      hide InFlight, Copies;
      assert !EmittedFrom(s', resume);
    }
  }
}
