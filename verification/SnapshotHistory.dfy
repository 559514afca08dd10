/** Checks a restored snapshot's minute history passes before it is reused. */
module SnapshotHistory {
  import opened Options

  datatype MinuteHistory = MinuteHistory(
    tsBucket: int, openPrice: Option<real>, highPrice: Option<real>, lowPrice: Option<real>,
    closePrice: Option<real>, lastPrice: Option<real>)

  predicate HasAnyPrice(row: MinuteHistory) {
    row.openPrice.Some? || row.highPrice.Some? || row.lowPrice.Some? || row.closePrice.Some? || row.lastPrice.Some?
  }

  // ---------------------------------------------------------------- null price runs

  /** Rows [i, i + n) carry no price, and the run cannot be extended on either side. */
  predicate MaximalNullRun(history: seq<MinuteHistory>, i: nat, n: nat) {
    && 0 < n && i + n <= |history|
    && (forall k :: i <= k < i + n ==> !HasAnyPrice(history[k]))
    && (i > 0 ==> HasAnyPrice(history[i - 1]))
    && (i + n < |history| ==> HasAnyPrice(history[i + n]))
  }

  ghost predicate LongRunAt(history: seq<MinuteHistory>, minRunLen: nat, i: nat, n: nat) {
    minRunLen <= n && MaximalNullRun(history, i, n)
  }

  datatype NullRun = NullRun(start: int, end: int, length: nat)

  /** The run reported is the maximal run at row i, named by its first and last minute. */
  ghost predicate Reports(run: NullRun, history: seq<MinuteHistory>, minRunLen: nat, i: nat) {
    && LongRunAt(history, minRunLen, i, run.length)
    && run.start == history[i].tsBucket
    && run.end == history[i + run.length - 1].tsBucket
  }

  method FindLongNullPriceRun(history: seq<MinuteHistory>, minRunLen: nat) returns (found: Option<NullRun>)
    ensures found.None? <==> minRunLen == 0 || !exists i, n :: LongRunAt(history, minRunLen, i, n)
    ensures found.Some? ==>
      exists i :: Reports(found.value, history, minRunLen, i)
                  && forall i', n' :: LongRunAt(history, minRunLen, i', n') ==> i <= i'
  {
    if history == [] || minRunLen == 0 {
      return None;
    }
    var runStart: Option<int> := None;
    var runEnd: Option<int> := None;
    var runLen := 0;
    for k := 0 to |history|
      invariant runLen <= k
      invariant forall l :: k - runLen <= l < k ==> !HasAnyPrice(history[l])
      invariant k - runLen > 0 ==> HasAnyPrice(history[k - runLen - 1])
      invariant runLen > 0 ==> runStart == Some(history[k - runLen].tsBucket) && runEnd == Some(history[k - 1].tsBucket)
      invariant runLen == 0 ==> runStart.None?
      invariant forall i, n :: LongRunAt(history, minRunLen, i, n) ==> k - runLen <= i
    {
      if HasAnyPrice(history[k]) {
        if runLen >= minRunLen {
          assert Reports(NullRun(runStart.value, runEnd.value, runLen), history, minRunLen, k - runLen);
          return Some(NullRun(runStart.value, runEnd.value, runLen));
        }
        forall i: nat, n: nat | LongRunAt(history, minRunLen, i, n) ensures k + 1 <= i {
          StartsPastShortRun(history, minRunLen, i, n, k, runLen);
        }
        runStart, runEnd, runLen := None, None, 0;
      } else {
        if runStart.None? { runStart := Some(history[k].tsBucket); }
        runEnd := Some(history[k].tsBucket);
        runLen := runLen + 1;
      }
    }
    if runLen >= minRunLen {
      assert Reports(NullRun(runStart.value, runEnd.value, runLen), history, minRunLen, |history| - runLen);
      return Some(NullRun(runStart.value, runEnd.value, runLen));
    }
    forall i: nat, n: nat ensures !LongRunAt(history, minRunLen, i, n) {
      assert LongRunAt(history, minRunLen, i, n) ==> i >= |history| - runLen;
    }
    return None;
  }

  lemma {:induction false} StartsPastShortRun(
    history: seq<MinuteHistory>, minRunLen: nat, i: nat, n: nat, k: nat, runLen: nat)
    requires LongRunAt(history, minRunLen, i, n) && k < |history| && HasAnyPrice(history[k])
    requires runLen <= k && k - runLen <= i && runLen < minRunLen
    ensures k < i
  {
    assert i <= k ==> k < i + n;
  }

  // ---------------------------------------------------------------- coverage

  predicate FollowsPrevious(history: seq<MinuteHistory>, k: nat)
    requires k < |history|
  {
    k == 0 || history[k].tsBucket - history[k - 1].tsBucket == 1
  }

  predicate StrictlyContiguous(history: seq<MinuteHistory>, lastFinalizedTs: int) {
    && history != []
    && history[|history| - 1].tsBucket == lastFinalizedTs
    && history[0].tsBucket <= history[|history| - 1].tsBucket
    && forall k :: 0 <= k < |history| ==> FollowsPrevious(history, k)
  }

  predicate CoversRequiredWindow(history: seq<MinuteHistory>, requiredStartTs: int, lastFinalizedTs: int) {
    && history != [] && history[0].tsBucket <= requiredStartTs
    && StrictlyContiguous(history, lastFinalizedTs)
  }

  lemma {:induction false} MinuteOfRow(history: seq<MinuteHistory>, lastFinalizedTs: int, k: nat)
    requires StrictlyContiguous(history, lastFinalizedTs) && k < |history|
    ensures history[k].tsBucket == history[0].tsBucket + k
  {
    assert FollowsPrevious(history, k);
    if k == 0 {
    } else {
      MinuteOfRow(history, lastFinalizedTs, k - 1);
    }
  }

  /**
   The neighbour-by-neighbour check accepts exactly the histories that count up by one to the last finalized
   minute.
   */
  lemma {:induction false} CoverageExactly(history: seq<MinuteHistory>, requiredStartTs: int, lastFinalizedTs: int)
    ensures CoversRequiredWindow(history, requiredStartTs, lastFinalizedTs)
            <==> && history != [] && history[0].tsBucket <= requiredStartTs
                 && |history| == lastFinalizedTs - history[0].tsBucket + 1
                 && forall k :: 0 <= k < |history| ==> history[k].tsBucket == history[0].tsBucket + k
  {
    if CoversRequiredWindow(history, requiredStartTs, lastFinalizedTs) {
      forall k: nat | k < |history| ensures history[k].tsBucket == history[0].tsBucket + k {
        MinuteOfRow(history, lastFinalizedTs, k);
      }
    }
  }

  /**
   An accepted history holds exactly one row for every minute from the required start to the last finalized
   minute.
   */
  lemma {:induction false} OneRowPerMinute(
    history: seq<MinuteHistory>, requiredStartTs: int, lastFinalizedTs: int, minute: int)
    requires CoversRequiredWindow(history, requiredStartTs, lastFinalizedTs)
    requires requiredStartTs <= minute <= lastFinalizedTs
    ensures exists k :: 0 <= k < |history| && history[k].tsBucket == minute
                        && forall l :: 0 <= l < |history| && history[l].tsBucket == minute ==> l == k
  {
    CoverageExactly(history, requiredStartTs, lastFinalizedTs);
    var k := minute - history[0].tsBucket;
    assert history[k].tsBucket == minute;
  }
}
