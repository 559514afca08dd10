/**
 The ordered commit worker as the source writes it: one call drops stale minutes, resolves the
 frontier, and persists consecutive minutes, taking the commit gate for each.  Whatever other tasks do
 while it waits is havoc.  The call is proved equal to a function of what it read, and the commit
 worker's steps in LivePipeline are proved to be that same function, one observation at a time.
 */
module OrderedCommit {
  import opened Options
  import opened LivePipeline
  import opened PipelineAccounting

  // ---------------------------------------------------------------- specification

  datatype CommitState = CommitState(next: Option<int>, pending: map<int, nat>, persisted: seq<Job>)

  predicate Ready(c: CommitState) {
    c.next.Some? && c.next.value in c.pending
  }

  function DropStale(c: CommitState, epoch: nat): CommitState {
    c.(pending := KeepEpoch(c.pending, epoch))
  }

  function Resolve(c: CommitState, frontierOverride: int): CommitState {
    var next := ResolvedLiveCommitNextTs(c.next, FirstPending(c.pending), TsFromMillis(frontierOverride));
    c.(next := next, pending := KeepFrom(c.pending, next))
  }

  /** One turn of the commit loop, given the epoch observed under the gate. */
  function DrainOne(c: CommitState, observed: nat): CommitState
    requires Ready(c)
  {
    var minute := c.next.value;
    var rest := c.pending - {minute};
    if c.pending[minute] != observed then c.(pending := rest)
    else CommitState(Some(minute + 1), rest, c.persisted + [Job(observed, minute)])
  }

  function Drain(c: CommitState, observed: seq<nat>): CommitState {
    if observed == [] then c
    else
      var before := Drain(c, observed[..|observed| - 1]);
      if Ready(before) then DrainOne(before, observed[|observed| - 1]) else before
  }

  lemma {:induction false} DrainNothing(c: CommitState)
    ensures Drain(c, []) == c
  {
  }

  lemma {:induction false} DrainSnoc(c: CommitState, observed: seq<nat>, epoch: nat)
    ensures Drain(c, observed + [epoch]) ==
              var before := Drain(c, observed); if Ready(before) then DrainOne(before, epoch) else before
  {
    assert (observed + [epoch])[..|observed|] == observed;
  }

  function CommitCall(c: CommitState, epoch: nat, frontierOverride: int, observed: seq<nat>): CommitState {
    Drain(Resolve(DropStale(c, epoch), frontierOverride), observed)
  }

  // ---------------------------------------------------------------- the worker

  class LiveShared {
    var epoch: nat
    var frontierOverride: int

    constructor ()
      ensures epoch == INITIAL_LIVE_EPOCH && frontierOverride == 0
    {
      epoch, frontierOverride := INITIAL_LIVE_EPOCH, 0;
    }

    /** Other tasks run: rebuilds may advance the epoch and store a new frontier. */
    method OtherTasksRun()
      modifies this
      ensures old(epoch) <= epoch
    {
    }
  }

  class CommitWorker {
    const shared: LiveShared
    var nextCommit: Option<int>
    var pending: map<int, nat>
    var persisted: seq<Job>
    var released: nat   // how often this worker lowered the ready-job counter

    constructor (shared: LiveShared, initialLastPersisted: Option<int>)
      ensures this.shared == shared && released == 0
      ensures View() == CommitState(if initialLastPersisted.Some? then Some(initialLastPersisted.value + 1) else None,
                                    map[], [])
    {
      this.shared := shared;
      nextCommit := if initialLastPersisted.Some? then Some(initialLastPersisted.value + 1) else None;
      pending, persisted, released := map[], [], 0;
    }

    function View(): CommitState
      reads this
    {
      CommitState(nextCommit, pending, persisted)
    }

    method RemoveAll(minutes: set<int>)
      requires minutes <= pending.Keys
      modifies this`pending, this`released
      ensures pending == old(pending) - minutes
      ensures released + |pending| == old(released) + old(|pending|)
    {
      var left, gone := minutes, {};
      ghost var was := pending;
      while left != {}
        invariant gone + left == minutes && gone !! left && minutes <= was.Keys
        invariant pending == was - gone
        invariant released + |pending| == old(released) + |was|
        decreases |left|
      {
        ghost var member := SomeMember(left);
        var minute :| minute in left;
        RemoveMore(was, gone, left, minute);
        pending, released := pending - {minute}, released + 1;
        left, gone := left - {minute}, gone + {minute};
      }
    }

    method DropStaleJobs(observedEpoch: nat)
      modifies this`pending, this`released
      ensures View() == DropStale(old(View()), observedEpoch)
      ensures released + |pending| == old(released) + old(|pending|)
    {
      RemoveAll(set m | m in pending && pending[m] != observedEpoch);
    }

    method DropBelowFrontier()
      modifies this`pending, this`released
      ensures pending == KeepFrom(old(pending), nextCommit)
      ensures released + |pending| == old(released) + old(|pending|)
    {
      if nextCommit.Some? {
        RemoveAll(set m | m in pending && m < nextCommit.value);
      }
    }

    method CommitReadyJobs() returns (observed: seq<nat>)
      modifies this`nextCommit, this`pending, this`persisted, this`released, shared
      ensures View() == Drain(old(View()), observed) && !Ready(View())
      ensures released + |pending| == old(released) + old(|pending|)
      ensures old(shared.epoch) <= shared.epoch
      ensures forall k :: 0 <= k < |observed| ==> old(shared.epoch) <= observed[k] <= shared.epoch
    {
      hide Drain;
      observed := [];
      ghost var start := View();
      DrainNothing(start);
      while nextCommit.Some? && nextCommit.value in pending
        invariant View() == Drain(start, observed)
        invariant released + |pending| == old(released) + old(|pending|)
        invariant old(shared.epoch) <= shared.epoch
        invariant forall k :: 0 <= k < |observed| ==> old(shared.epoch) <= observed[k] <= shared.epoch
        decreases |pending|
      {
        ghost var before := View();
        var expected := nextCommit.value;
        var jobEpoch := pending[expected];
        PendingRemoveSize(pending, expected);
        pending := pending - {expected};
        shared.OtherTasksRun();   // waiting for the commit gate
        ghost var seen := observed;
        observed := observed + [shared.epoch];
        DrainSnoc(start, seen, shared.epoch);
        released := released + 1;
        if jobEpoch == shared.epoch {
          persisted := persisted + [Job(jobEpoch, expected)];
          nextCommit := Some(expected + 1);
        }
        assert View() == DrainOne(before, shared.epoch);
      }
    }

    method CommitLiveJobsInOrder()
      returns (seenEpoch: nat, seenOverride: int, observed: seq<nat>)
      modifies this`nextCommit, this`pending, this`persisted, this`released, shared
      ensures View() == CommitCall(old(View()), seenEpoch, seenOverride, observed)
      ensures !Ready(View())
      ensures released + |pending| == old(released) + old(|pending|)
      ensures old(shared.epoch) == seenEpoch <= shared.epoch
      ensures forall k :: 0 <= k < |observed| ==> seenEpoch <= observed[k] <= shared.epoch
    {
      seenEpoch := shared.epoch;
      DropStaleJobs(seenEpoch);
      shared.OtherTasksRun();
      seenOverride := shared.frontierOverride;
      nextCommit := ResolvedLiveCommitNextTs(nextCommit, FirstPending(pending), TsFromMillis(seenOverride));
      DropBelowFrontier();
      observed := CommitReadyJobs();
    }
  }

  lemma RemoveMore(was: map<int, nat>, gone: set<int>, left: set<int>, minute: int)
    requires minute in left && gone !! left && left <= was.Keys
    ensures (was - gone) - {minute} == was - (gone + {minute})
    ensures |was - gone| == |was - (gone + {minute})| + 1
    ensures (gone + {minute}) + (left - {minute}) == gone + left && (gone + {minute}) !! (left - {minute})
  {
    PendingRemoveSize(was - gone, minute);
    assert (was - gone) - {minute} == was - (gone + {minute});
  }

  // ---------------------------------------------------------------- what a call promises

  predicate NonePendingBelow(c: CommitState) {
    match c.next
    case None => c.pending == map[]
    case Some(next) => forall m :: m in c.pending ==> next <= m
  }

  /** A call only persists consecutive minutes from the frontier it resolved, each under the epoch seen at the gate. */
  ghost predicate PersistsRun(c: CommitState, c': CommitState, observed: seq<nat>) {
    && c.persisted <= c'.persisted
    && (c.next.None? ==> c'.next.None? && c'.persisted == c.persisted)
    && (c.next.Some? ==>
          && c'.next == Some(c.next.value + (|c'.persisted| - |c.persisted|))
          && forall k :: |c.persisted| <= k < |c'.persisted| ==>
               && c'.persisted[k].minute == c.next.value + (k - |c.persisted|)
               && c'.persisted[k].minute in c.pending && c.pending[c'.persisted[k].minute] == c'.persisted[k].epoch
               && c'.persisted[k].epoch in observed)
  }

  lemma {:induction false} DrainPersistsRun(c: CommitState, observed: seq<nat>)
    requires NonePendingBelow(c)
    ensures var c' := Drain(c, observed);
            && PersistsRun(c, c', observed) && NonePendingBelow(c')
            && forall m :: m in c'.pending ==> m in c.pending && c'.pending[m] == c.pending[m]
    decreases |observed|
  {
    if observed == [] {
    } else {
      var last := observed[|observed| - 1];
      DrainPersistsRun(c, observed[..|observed| - 1]);
      assert forall e :: e in observed[..|observed| - 1] ==> e in observed;
      assert last in observed;
    }
  }

  lemma {:induction false} ResolvedIsClear(c: CommitState, frontierOverride: int)
    ensures NonePendingBelow(Resolve(c, frontierOverride))
    ensures c.next.Some? ==> Resolve(c, frontierOverride).next.Some?
                             && c.next.value <= Resolve(c, frontierOverride).next.value
  {
  }

  /**
   What the ordered commit promises of a call that ran to its end: the frontier does not move back, the
   persisted minutes are consecutive and each was still current at the gate, nothing is invented, and
   every minute left is strictly above the frontier.
   */
  lemma {:induction false} CommitCallPromise(c: CommitState, epoch: nat, frontierOverride: int, observed: seq<nat>)
    requires !Ready(CommitCall(c, epoch, frontierOverride, observed))
    ensures var start := Resolve(DropStale(c, epoch), frontierOverride);
            var c' := CommitCall(c, epoch, frontierOverride, observed);
            && PersistsRun(start, c', observed)
            && (c.next.Some? ==> c'.next.Some? && c.next.value <= start.next.value <= c'.next.value)
            && (c'.next.Some? ==> forall m :: m in c'.pending ==> c'.next.value < m)
            && (forall m :: m in c'.pending ==> m in c.pending && c.pending[m] == c'.pending[m] == epoch)
            && (forall k :: |c.persisted| <= k < |c'.persisted| ==> c'.persisted[k].epoch == epoch)
  {
    var start := Resolve(DropStale(c, epoch), frontierOverride);
    ResolvedIsClear(DropStale(c, epoch), frontierOverride);
    DrainPersistsRun(start, observed);
    forall m | m in start.pending ensures m in c.pending && c.pending[m] == start.pending[m] == epoch {}
  }

  /**
   Resolving drops a pending minute exactly when it is below the worker's own frontier, or is the rebuilt
   minute itself with nothing pending before it: a real gap below the override is not skipped.
   */
  lemma {:induction false} ResolveDropsExactly(c: CommitState, frontierOverride: int, m: int)
    requires m in c.pending
    ensures m !in Resolve(c, frontierOverride).pending <==>
            || (c.next.Some? && m < c.next.value)
            || (0 < frontierOverride == m && forall k :: k in c.pending ==> frontierOverride <= k)
  {
    var first := FirstPending(c.pending);
    assert first.Some? && first.value in c.pending && first.value <= m;
  }

  /**
   What the resolved frontier is: the larger of the two candidates, unless a pending minute lies below the
   override.
   */
  lemma {:induction false} ResolvedFrontierExactly(c: CommitState, frontierOverride: int)
    requires c.next.Some?
    ensures var gap := exists k :: k in c.pending && k < frontierOverride;
            Resolve(c, frontierOverride).next
              == Some(if 0 < frontierOverride && !gap then Max(c.next.value, frontierOverride + 1) else c.next.value)
  {
    var first := FirstPending(c.pending);
    assert first.Some? ==> first.value in c.pending;
  }

  // ---------------------------------------------------------------- the steps refine the call

  /** The worker's view in the step system: a minute taken but not yet settled still counts as pending. */
  function ViewOf(s: State): CommitState {
    CommitState(s.nextCommit,
                if CommitTaken(s.commit) then s.pending[s.commit.job.minute := s.commit.job.epoch] else s.pending,
                s.log)
  }

  /** What each step of the commit worker does to its view. */
  function ExpectedView(s: State, step: CommitStep): CommitState
    requires CommitEnabled(s, step)
  {
    var v := ViewOf(s);
    match step
    case CommitDropStale => DropStale(v, s.epoch)
    case CommitResolve => Resolve(v, s.override)
    case CommitReadEpoch => if s.commit.job.epoch != s.epoch && Ready(v) then DrainOne(v, s.epoch) else v
    case CommitPersist => if Ready(v) then DrainOne(v, s.epoch) else v
    case CommitInsert =>
      if s.commit.job.epoch != s.epoch then v
      else v.(pending := v.pending[s.commit.job.minute := s.commit.job.epoch])
    case _ => v
  }

  lemma {:induction false} CommitStepRefines(s: State, step: CommitStep)
    requires GateHeld(s) && CommitLocal(s) && CommitEnabled(s, step)
    ensures ViewOf(CommitApply(s, step)) == ExpectedView(s, step)
    ensures step.CommitReadEpoch? || step.CommitPersist? ==> Ready(ViewOf(s))
    ensures step.CommitReturn? ==> !Ready(ViewOf(s))
  {
    hide ResolvedLiveCommitNextTs, KeepEpoch, KeepFrom, FirstPending;
    if CommitTaken(s.commit) {
      assert ViewOf(s).pending - {s.commit.job.minute} == s.pending;
    }
    if step.CommitTake? {
      TakenIsStillPending(s);
    }
  }

  lemma {:induction false} OthersLeaveView(s: State, step: Step)
    requires Enabled(s, step) && !step.CommitDoes?
    ensures ViewOf(Apply(s, step)) == ViewOf(s)
  {
    OthersLeaveCommitSide(s, step);
    hide Apply;
  }

  /**
   Under any interleaving, the commit worker's steps are the call's phases: the epoch drop, the
   resolution, one DrainOne per gate turn with the epoch read at that moment, and a return only when
   nothing is ready.  Every other step of every task leaves the view alone.
   */
  lemma {:induction false} StepsRefineCommitCall(s: State, step: Step)
    requires Base(s) && Enabled(s, step)
    ensures ViewOf(Apply(s, step)) == if step.CommitDoes? then ExpectedView(s, step.commit) else ViewOf(s)
    ensures step.CommitDoes? && step.commit.CommitReturn? ==> !Ready(ViewOf(s))
    ensures step.CommitDoes? && (step.commit.CommitPersist? || step.commit.CommitReadEpoch?) ==> Ready(ViewOf(s))
  {
    hide ViewOf, ExpectedView, CommitApply;
    if step.CommitDoes? {
      CommitStepRefines(s, step.commit);
    } else {
      OthersLeaveView(s, step);
    }
  }

  lemma {:induction false} TakenIsStillPending(s: State)
    requires CommitEnabled(s, CommitTake)
    ensures ViewOf(CommitApply(s, CommitTake)) == ViewOf(s)
  {
    var minute := s.nextCommit.value;
    assert (s.pending - {minute})[minute := s.pending[minute]] == s.pending;
  }

  // ---------------------------------------------------------------- a whole call as steps

  /** The epoch at the step that drops stale jobs. */
  ghost function ReadAtDrop(s: State, steps: seq<Step>): nat
    requires CanRun(s, steps)
    decreases |steps|
  {
    if steps == [] || steps[0] == CommitDoes(CommitDropStale) then s.epoch
    else ReadAtDrop(Apply(s, steps[0]), steps[1..])
  }

  /** The override at the step that resolves the frontier. */
  ghost function ReadAtResolve(s: State, steps: seq<Step>): int
    requires CanRun(s, steps)
    decreases |steps|
  {
    if steps == [] || steps[0] == CommitDoes(CommitResolve) then s.override
    else ReadAtResolve(Apply(s, steps[0]), steps[1..])
  }

  /** The gate turn ends with this step: a stale job is dropped, or the job read as current is written. */
  predicate SettlesTurn(s: State, step: Step) {
    || (step == CommitDoes(CommitReadEpoch) && s.commit.CommitGated? && s.commit.job.epoch != s.epoch)
    || step == CommitDoes(CommitPersist)
  }

  /** The epochs of the gate turns; while the gate is held the epoch does not move, so a write's is the one read. */
  ghost function ReadAtGate(s: State, steps: seq<Step>): seq<nat>
    requires CanRun(s, steps)
    decreases |steps|
  {
    if steps == [] then []
    else (if SettlesTurn(s, steps[0]) then [s.epoch] else []) + ReadAtGate(Apply(s, steps[0]), steps[1..])
  }

  predicate InDrain(c: Commit) {
    c.CommitDraining? || CommitTaken(c)
  }

  predicate NoReturn(steps: seq<Step>) {
    forall k :: 0 <= k < |steps| ==> steps[k] != CommitDoes(CommitReturn)
  }

  lemma NoReturnTail(steps: seq<Step>)
    requires NoReturn(steps) && steps != []
    ensures NoReturn(steps[1..]) && steps[0] != CommitDoes(CommitReturn)
  {
    assert forall k :: 0 <= k < |steps[1..]| ==> steps[1..][k] == steps[k + 1];
  }

  lemma {:induction false} DrainCons(c: CommitState, first: nat, rest: seq<nat>)
    ensures Drain(c, [first] + rest) == Drain(if Ready(c) then DrainOne(c, first) else c, rest)
    decreases |rest|
  {
    hide DrainOne;
    if rest == [] {
      assert [first] + rest == [first] && [first][..0] == [];
      assert Drain(c, []) == c;
    } else {
      var all := [first] + rest;
      assert all[..|all| - 1] == [first] + rest[..|rest| - 1];
      DrainCons(c, first, rest[..|rest| - 1]);
    }
  }

  /** The worker moves through the phases of the call, one of its own steps at a time. */
  lemma {:induction false} PhaseAfter(s: State, step: CommitStep)
    requires CommitEnabled(s, step) && step != CommitReturn
    ensures var s' := CommitApply(s, step);
            && (s.commit.CommitEntering? ==> step == CommitDropStale && s'.commit.CommitResolving?)
            && (s.commit.CommitResolving? ==> step == CommitResolve && s'.commit.CommitDraining?)
            && (InDrain(s.commit) ==> InDrain(s'.commit))
    ensures s.commit.CommitEntering? ==> ExpectedView(s, step) == DropStale(ViewOf(s), s.epoch)
    ensures s.commit.CommitResolving? ==> ExpectedView(s, step) == Resolve(ViewOf(s), s.override)
    ensures InDrain(s.commit) ==>
              ExpectedView(s, step) ==
                if SettlesTurn(s, CommitDoes(step)) && Ready(ViewOf(s)) then DrainOne(ViewOf(s), s.epoch)
                else ViewOf(s)
  {
    hide DropStale, Resolve, DrainOne, ViewOf, KeepEpoch, KeepFrom, FirstPending, ResolvedLiveCommitNextTs;
  }

  /** Which part of the call a step plays, and where the worker is afterwards. */
  lemma {:induction false} CallStep(s: State, step: Step)
    requires Base(s) && Enabled(s, step) && step != CommitDoes(CommitReturn)
    ensures var s' := Apply(s, step);
            && (s.commit.CommitEntering? ==>
                  if step == CommitDoes(CommitDropStale)
                  then s'.commit.CommitResolving? && ViewOf(s') == DropStale(ViewOf(s), s.epoch)
                  else s'.commit.CommitEntering? && ViewOf(s') == ViewOf(s))
            && (s.commit.CommitResolving? ==>
                  if step == CommitDoes(CommitResolve)
                  then s'.commit.CommitDraining? && ViewOf(s') == Resolve(ViewOf(s), s.override)
                  else s'.commit.CommitResolving? && ViewOf(s') == ViewOf(s))
            && (InDrain(s.commit) ==>
                  && InDrain(s'.commit)
                  && (SettlesTurn(s, step) ==> Ready(ViewOf(s)))
                  && ViewOf(s') ==
                       if SettlesTurn(s, step) && Ready(ViewOf(s)) then DrainOne(ViewOf(s), s.epoch) else ViewOf(s))
  {
    StepsRefineCommitCall(s, step);
    hide Base, ExpectedView, ViewOf, DropStale, Resolve, DrainOne, Ready, CommitApply;
    if step.CommitDoes? {
      PhaseAfter(s, step.commit);
    } else {
      hide Apply;
      OthersLeaveCommitSide(s, step);
    }
  }

  /** A step that settles no gate turn reads nothing there. */
  lemma {:induction false} ReadsAfter(s: State, steps: seq<Step>)
    requires CanRun(s, steps) && steps != [] && !SettlesTurn(s, steps[0])
    ensures ReadAtGate(s, steps) == ReadAtGate(Apply(s, steps[0]), steps[1..])
  {
    hide Apply, SettlesTurn;
    var rest := ReadAtGate(Apply(s, steps[0]), steps[1..]);
    assert [] + rest == rest;
  }

  lemma {:induction false} DrainIsSteps(s: State, steps: seq<Step>)
    requires Base(s) && InDrain(s.commit) && CanRun(s, steps) && NoReturn(steps)
    ensures var s' := After(s, steps);
            Base(s') && InDrain(s'.commit) && ViewOf(s') == Drain(ViewOf(s), ReadAtGate(s, steps))
    decreases |steps|
  {
    if steps == [] {
    } else {
      NoReturnTail(steps);
      StepKeepsBase(s, steps[0]);
      CallStep(s, steps[0]);
      DrainIsSteps(Apply(s, steps[0]), steps[1..]);
      hide Base, Apply, DrainOne, ViewOf, SettlesTurn;
      if SettlesTurn(s, steps[0]) {
        DrainCons(ViewOf(s), s.epoch, ReadAtGate(Apply(s, steps[0]), steps[1..]));
      } else {
        ReadsAfter(s, steps);
      }
    }
  }

  lemma {:induction false} ResolveIsSteps(s: State, steps: seq<Step>)
    requires Base(s) && s.commit.CommitResolving? && CanRun(s, steps) && NoReturn(steps)
    ensures var s' := After(s, steps);
            && Base(s')
            && (InDrain(s'.commit) ==>
                  ViewOf(s') == Drain(Resolve(ViewOf(s), ReadAtResolve(s, steps)), ReadAtGate(s, steps)))
            && (!InDrain(s'.commit) ==> s'.commit.CommitResolving?)
    decreases |steps|
  {
    if steps == [] {
    } else {
      NoReturnTail(steps);
      StepKeepsBase(s, steps[0]);
      CallStep(s, steps[0]);
      assert !SettlesTurn(s, steps[0]);
      ReadsAfter(s, steps);
      hide Base, Apply, Resolve, ViewOf, SettlesTurn, Drain;
      if steps[0] == CommitDoes(CommitResolve) {
        DrainIsSteps(Apply(s, steps[0]), steps[1..]);
      } else {
        ResolveIsSteps(Apply(s, steps[0]), steps[1..]);
      }
    }
  }

  lemma {:induction false} ReturnKeepsView(s: State)
    requires Base(s)
    ensures CommitEnabled(s, CommitReturn) ==>
              ViewOf(CommitApply(s, CommitReturn)) == ViewOf(s) && !Ready(ViewOf(CommitApply(s, CommitReturn)))
  {
    hide Base;
  }

  /** What a whole call promises of the state it ends in. */
  ghost predicate CallDone(s: State, steps: seq<Step>)
    requires CanRun(s, steps)
  {
    CommitEnabled(After(s, steps), CommitReturn) ==>
      var returned := CommitApply(After(s, steps), CommitReturn);
      && ViewOf(returned) ==
           CommitCall(ViewOf(s), ReadAtDrop(s, steps), ReadAtResolve(s, steps), ReadAtGate(s, steps))
      && !Ready(ViewOf(returned))
  }

  /** What the call reads after the drop is what the rest of its steps read. */
  lemma {:induction false} DropReads(s: State, steps: seq<Step>)
    requires CanRun(s, steps) && steps != [] && steps[0] == CommitDoes(CommitDropStale)
    ensures var s1, rest := Apply(s, steps[0]), steps[1..];
            && CanRun(s1, rest) && After(s, steps) == After(s1, rest)
            && ReadAtDrop(s, steps) == s.epoch && ReadAtResolve(s, steps) == ReadAtResolve(s1, rest)
            && ReadAtGate(s, steps) == ReadAtGate(s1, rest)
  {
    assert !SettlesTurn(s, steps[0]);
    hide Apply, SettlesTurn, Enabled;
    ReadsAfter(s, steps);
  }

  lemma {:induction false} ReturnsWith(s: State, from: CommitState, epoch: nat, override: int, observed: seq<nat>)
    requires Base(s)
    requires InDrain(s.commit) ==> ViewOf(s) == Drain(Resolve(DropStale(from, epoch), override), observed)
    ensures CommitEnabled(s, CommitReturn) ==>
              var returned := CommitApply(s, CommitReturn);
              ViewOf(returned) == CommitCall(from, epoch, override, observed) && !Ready(ViewOf(returned))
  {
    hide Base, Drain, Resolve, DropStale, Ready, ViewOf, CommitApply;
    ReturnKeepsView(s);
  }

  lemma {:induction false} DropIsStep(s: State, steps: seq<Step>)
    requires Base(s) && s.commit.CommitEntering? && CanRun(s, steps) && NoReturn(steps)
    requires steps != [] && steps[0] == CommitDoes(CommitDropStale)
    ensures Base(After(s, steps)) && CallDone(s, steps)
  {
    var s1, rest := Apply(s, steps[0]), steps[1..];
    NoReturnTail(steps);
    hide Base, Enabled, Apply, ViewOf, DropStale, Resolve, Drain, Ready, CommitApply, SettlesTurn;
    DropReads(s, steps);
    hide After, CanRun, ReadAtDrop, ReadAtResolve, ReadAtGate, NoReturn;
    StepKeepsBase(s, steps[0]);
    CallStep(s, steps[0]);
    ResolveIsSteps(s1, rest);
    ReturnsWith(After(s, steps), ViewOf(s), s.epoch, ReadAtResolve(s, steps), ReadAtGate(s, steps));
  }

  /**
   A whole call under any interleaving.  From its entry to its return, whatever steps other tasks take in
   between, the worker's view becomes the commit call of what it was, of the epoch read at the drop, the override
   read at the resolution and the epochs read at the gate; and the call returns only when nothing is ready.
   */
  lemma {:induction false} CallIsSteps(s: State, steps: seq<Step>)
    requires Base(s) && s.commit.CommitEntering? && CanRun(s, steps) && NoReturn(steps)
    ensures Base(After(s, steps)) && CallDone(s, steps)
    decreases |steps|
  {
    if steps == [] {
    } else if steps[0] == CommitDoes(CommitDropStale) {
      DropIsStep(s, steps);
    } else {
      NoReturnTail(steps);
      StepKeepsBase(s, steps[0]);
      CallStep(s, steps[0]);
      CallIsSteps(Apply(s, steps[0]), steps[1..]);
      assert !SettlesTurn(s, steps[0]) && steps[0] != CommitDoes(CommitResolve);
      ReadsAfter(s, steps);
      hide Base, Apply, ViewOf, SettlesTurn, CommitCall, Ready;
    }
  }
}
