/** Time-weighted averages over one minute, against the exact integral of the step function. */
module TimeWeighted {
  import opened Options
  import opened Ordering

  /** An observation: a millisecond timestamp and the value in force from then on. */
  type Point = (int, real)

  const MINUTE_MILLIS := 60_000

  function Time(p: Point): int { p.0 }

  predicate TimeSorted(points: seq<Point>) {
    forall i, j :: 0 <= i < j < |points| ==> points[i].0 <= points[j].0
  }

  // ---------------------------------------------------------------- reference definition

  /** The value in force at millisecond t: that of the last point at or before t, or the initial one. */
  function ValueAt(points: seq<Point>, initial: real, t: int): real {
    if points == [] then initial
    else if points[|points| - 1].0 <= t then points[|points| - 1].1
    else ValueAt(points[..|points| - 1], initial, t)
  }

  /** Sum of the value in force over every millisecond of [from, end). */
  ghost function Integral(points: seq<Point>, initial: real, from: int, end: int): real
    decreases end - from
  {
    if from >= end then 0.0 else ValueAt(points, initial, end - 1) + Integral(points, initial, from, end - 1)
  }

  /** With no fallback, the first point's value is also in force before it. */
  function InitialValue(points: seq<Point>, fallback: Option<real>): real
    requires points != []
  {
    if fallback.Some? then fallback.value else points[0].1
  }

  ghost predicate IsStepAverage(avg: real, points: seq<Point>, initial: real, start: int, end: int)
    requires start < end
  {
    avg * ((end - start) as real) == Integral(points, initial, start, end)
  }

  // ---------------------------------------------------------------- facts about the reference

  lemma {:induction false} ValueIgnoresLater(points: seq<Point>, initial: real, i: nat, t: int)
    requires i <= |points| && forall k :: i <= k < |points| ==> t < points[k].0
    ensures ValueAt(points, initial, t) == ValueAt(points[..i], initial, t)
    decreases |points|
  {
    if i < |points| {
      ValueIgnoresLater(points[..|points| - 1], initial, i, t);
      assert points[..|points| - 1][..i] == points[..i];
    } else {
      assert points[..i] == points;
    }
  }

  lemma {:induction false} IntegralSplits(points: seq<Point>, initial: real, a: int, b: int, c: int)
    requires a <= b <= c
    ensures Integral(points, initial, a, c) == Integral(points, initial, a, b) + Integral(points, initial, b, c)
    decreases c - b
  {
    if c <= b {
    } else {
      IntegralSplits(points, initial, a, b, c - 1);
    }
  }

  lemma {:induction false} IntegralOfConstant(points: seq<Point>, initial: real, a: int, b: int, v: real)
    requires a <= b && forall t :: a <= t < b ==> ValueAt(points, initial, t) == v
    ensures Integral(points, initial, a, b) == v * ((b - a) as real)
    decreases b - a
  {
    if b <= a {
    } else {
      IntegralOfConstant(points, initial, a, b - 1, v);
      var n := (b - 1 - a) as real;
      assert (b - a) as real == n + 1.0;
      assert v * (n + 1.0) == v * n + v;
    }
  }

  lemma {:induction false} IntegralBounded(points: seq<Point>, initial: real, a: int, b: int, lo: real, hi: real)
    requires a <= b && forall t :: a <= t < b ==> lo <= ValueAt(points, initial, t) <= hi
    ensures lo * ((b - a) as real) <= Integral(points, initial, a, b) <= hi * ((b - a) as real)
    decreases b - a
  {
    if b <= a {
    } else {
      IntegralBounded(points, initial, a, b - 1, lo, hi);
      var n := (b - 1 - a) as real;
      assert (b - a) as real == n + 1.0;
      assert lo * (n + 1.0) == lo * n + lo && hi * (n + 1.0) == hi * n + hi;
    }
  }

  // ---------------------------------------------------------------- the loop

  /** What the loop knows: the window up to cursor is weighed, and lastVal is in force from cursor on. */
  ghost predicate Weighed(
    points: seq<Point>, initial: real, start: int, i: nat, weighted: real, total: real, cursor: int, lastVal: real)
  {
    && i <= |points| && start <= cursor
    && weighted * 1000.0 == Integral(points, initial, start, cursor)
    && total * 1000.0 == (cursor - start) as real
    && (forall k :: 0 <= k < i ==> points[k].0 <= cursor)
    && (cursor == start || (0 < i && points[i - 1].0 == cursor))
    && lastVal == ValueAt(points[..i], initial, cursor)
  }

  lemma {:induction false} ValueConstant(points: seq<Point>, initial: real, i: nat, cursor: int, t: int)
    requires i <= |points| && cursor <= t
    requires forall k :: 0 <= k < i ==> points[k].0 <= cursor
    requires forall k :: i <= k < |points| ==> t < points[k].0
    ensures ValueAt(points, initial, t) == ValueAt(points[..i], initial, cursor)
  {
    ValueIgnoresLater(points, initial, i, t);
  }

  /** What a value weighs when it is in force for dt seconds. */
  function Weight(value: real, dt: real): real { value * dt }

  function Seconds(from: int, end: int): real {
    Max(end - from, 0) as real / 1000.0
  }

  lemma {:induction false} WeighUpTo(
    points: seq<Point>, initial: real, start: int, i: nat, weighted: real, total: real, cursor: int, lastVal: real,
    upTo: int)
    requires Weighed(points, initial, start, i, weighted, total, cursor, lastVal)
    requires cursor <= upTo && forall k :: i <= k < |points| ==> upTo <= points[k].0
    ensures (weighted + Weight(lastVal, Seconds(cursor, upTo))) * 1000.0 == Integral(points, initial, start, upTo)
    ensures (total + Seconds(cursor, upTo)) * 1000.0 == (upTo - start) as real
    ensures cursor == upTo ==> Weight(lastVal, Seconds(cursor, upTo)) == 0.0 && Seconds(cursor, upTo) == 0.0
    ensures cursor < upTo ==> Seconds(cursor, upTo) > 0.0
  {
    forall t | cursor <= t < upTo ensures ValueAt(points, initial, t) == lastVal {
      ValueConstant(points, initial, i, cursor, t);
    }
    IntegralOfConstant(points, initial, cursor, upTo, lastVal);
    IntegralSplits(points, initial, start, cursor, upTo);
    var dt := Seconds(cursor, upTo);
    assert Weight(lastVal, dt) * 1000.0 == lastVal * ((upTo - cursor) as real) by {
      assert dt * 1000.0 == (upTo - cursor) as real;
    }
  }

  lemma {:induction false} AtStart(
    points: seq<Point>, initial: real, start: int, i: nat, weighted: real, total: real, cursor: int, lastVal: real)
    requires i < |points| && TimeSorted(points) && points[i].0 <= start
    requires Weighed(points, initial, start, i, weighted, total, cursor, lastVal)
    ensures cursor == start && Weighed(points, initial, start, i + 1, weighted, total, cursor, points[i].1)
  {
    assert points[..i + 1][|points[..i + 1]| - 1] == points[i];
  }

  lemma {:induction false} Advance(
    points: seq<Point>, initial: real, start: int, i: nat, weighted: real, total: real, cursor: int, lastVal: real)
    requires i < |points| && TimeSorted(points) && start < points[i].0
    requires Weighed(points, initial, start, i, weighted, total, cursor, lastVal)
    ensures cursor <= points[i].0
    ensures Weighed(points, initial, start, i + 1, weighted + Weight(lastVal, Seconds(cursor, points[i].0)),
                    total + Seconds(cursor, points[i].0), points[i].0, points[i].1)
    ensures Seconds(cursor, points[i].0) <= 0.0 ==>
              Weighed(points, initial, start, i + 1, weighted, total, points[i].0, points[i].1)
  {
    WeighUpTo(points, initial, start, i, weighted, total, cursor, lastVal, points[i].0);
    assert points[..i + 1][|points[..i + 1]| - 1] == points[i];
  }

  lemma {:induction false} Quotient(weighted: real, total: real, integral: real, length: real)
    requires total > 0.0 && weighted * 1000.0 == integral && total * 1000.0 == length
    ensures (weighted / total) * length == integral
  {
    assert (weighted / total) * total == weighted;
    assert (weighted / total) * (total * 1000.0) == ((weighted / total) * total) * 1000.0;
  }

  /** Weighing the rest of the window, once no point up to its end is left, gives the average. */
  lemma {:induction false} Finish(
    points: seq<Point>, initial: real, start: int, end: int, i: nat, weighted: real, total: real, cursor: int,
    lastVal: real)
    requires start < end && cursor <= end && TimeSorted(points)
    requires i == |points| || (i < |points| && end < points[i].0)
    requires Weighed(points, initial, start, i, weighted, total, cursor, lastVal)
    ensures var t := total + Seconds(cursor, end);
            var w := weighted + Weight(lastVal, Seconds(cursor, end));
            t > 0.0 && IsStepAverage(w / t, points, initial, start, end)
    ensures cursor == end ==> total > 0.0 && IsStepAverage(weighted / total, points, initial, start, end)
  {
    WeighUpTo(points, initial, start, i, weighted, total, cursor, lastVal, end);
    var w, t := weighted + Weight(lastVal, Seconds(cursor, end)), total + Seconds(cursor, end);
    assert t * 1000.0 == (end - start) as real;
    Quotient(w, t, Integral(points, initial, start, end), (end - start) as real);
  }

  method TimeWeightedAvg(start: int, end: int, points: seq<Point>, fallback: Option<real>) returns (avg: Option<real>)
    requires TimeSorted(points)
    ensures end <= start ==> avg == None
    ensures start < end && points == [] ==> avg == fallback
    ensures start < end && points != [] ==>
              avg.Some? && IsStepAverage(avg.value, points, InitialValue(points, fallback), start, end)
  {
    if end <= start { return None; }
    if points == [] { return fallback; }

    var weighted, total, cursor := 0.0, 0.0, start;
    var lastVal := if fallback.Some? then fallback.value else points[0].1;
    ghost var initial := InitialValue(points, fallback);
    assert points[..0] == [];
    var i := 0;
    assert Weighed(points, initial, start, i, weighted, total, cursor, lastVal);
    hide Weighed, ValueAt, Integral, Weight, Seconds, IsStepAverage, TimeSorted;
    while i < |points|
      invariant 0 <= i <= |points| && cursor <= end
      invariant Weighed(points, initial, start, i, weighted, total, cursor, lastVal)
    {
      var (ts, v) := points[i];
      if ts <= start {
        AtStart(points, initial, start, i, weighted, total, cursor, lastVal);
        lastVal := v;
        i := i + 1;
        continue;
      }
      if ts > end { break; }
      Advance(points, initial, start, i, weighted, total, cursor, lastVal);
      var dt := Seconds(cursor, ts);
      if dt > 0.0 {
        weighted := weighted + Weight(lastVal, dt);
        total := total + dt;
      }
      cursor := ts;
      lastVal := v;
      i := i + 1;
    }

    Finish(points, initial, start, end, i, weighted, total, cursor, lastVal);
    if cursor < end {
      var dt := Seconds(cursor, end);
      weighted := weighted + Weight(lastVal, dt);
      total := total + dt;
    }
    if total <= 0.0 {
      // Not reached: the weighed time is the whole window.
      avg := if fallback.Some? then fallback else Some(lastVal);
    } else {
      avg := Some(weighted / total);
    }
  }

  /** The average lies between any bounds on the values in force during the window. */
  lemma {:induction false} AverageWithinValues(
    avg: real, points: seq<Point>, initial: real, start: int, end: int, lo: real, hi: real)
    requires start < end && IsStepAverage(avg, points, initial, start, end)
    requires forall t :: start <= t < end ==> lo <= ValueAt(points, initial, t) <= hi
    ensures lo <= avg <= hi
  {
    IntegralBounded(points, initial, start, end, lo, hi);
    Scales(avg, lo, (end - start) as real);
    Scales(hi, avg, (end - start) as real);
  }

  lemma {:induction false} Scales(a: real, b: real, c: real)
    requires c > 0.0
    ensures a < b ==> a * c < b * c
  {
  }

  // ---------------------------------------------------------------- the two callers

  /** The value of the last listed point at or before t, if there is one. */
  function LatestAtOrBefore(points: seq<Point>, t: int): Option<real> {
    if points == [] then None
    else if points[|points| - 1].0 <= t then Some(points[|points| - 1].1)
    else LatestAtOrBefore(points[..|points| - 1], t)
  }

  function UpTo(points: seq<Point>, t: int): seq<Point> {
    if points == [] then []
    else UpTo(points[..|points| - 1], t) + (if points[|points| - 1].0 <= t then [points[|points| - 1]] else [])
  }

  function Sorted(window: seq<Point>): seq<Point> {
    SortBy(window, Time)
  }

  /** One history: what was known up to the start of the minute, then the points of the minute in time order. */
  function History(recent: seq<Point>, window: seq<Point>, start: int): seq<Point> {
    UpTo(recent, start) + Sorted(window)
  }

  lemma {:induction false} LatestIsLastUpTo(points: seq<Point>, t: int)
    ensures LatestAtOrBefore(points, t) ==
            (if UpTo(points, t) == [] then None else Some(UpTo(points, t)[|UpTo(points, t)| - 1].1))
    ensures forall p :: p in UpTo(points, t) ==> p.0 <= t
  {
    if points == [] {
    } else {
      LatestIsLastUpTo(points[..|points| - 1], t);
    }
  }

  lemma {:induction false} ValueOfConcat(a: seq<Point>, b: seq<Point>, initial: real, t: int)
    ensures ValueAt(a + b, initial, t) == ValueAt(b, ValueAt(a, initial, t), t)
    decreases |b|
  {
    if b == [] {
      assert a + b == a;
    } else {
      assert (a + b)[..|a + b| - 1] == a + b[..|b| - 1];
      ValueOfConcat(a, b[..|b| - 1], initial, t);
    }
  }

  /** Once some point is at or before t, the value there no longer depends on the initial one. */
  lemma {:induction false} InitialForgotten(points: seq<Point>, k: nat, x: real, y: real, t: int)
    requires k < |points| && points[k].0 <= t
    ensures ValueAt(points, x, t) == ValueAt(points, y, t)
    decreases |points|
  {
    if points[|points| - 1].0 <= t {
    } else {
      InitialForgotten(points[..|points| - 1], k, x, y, t);
    }
  }

  lemma {:induction false} SameValuesSameIntegral(
    p: seq<Point>, x: real, q: seq<Point>, y: real, a: int, b: int)
    requires forall t :: a <= t < b ==> ValueAt(p, x, t) == ValueAt(q, y, t)
    ensures Integral(p, x, a, b) == Integral(q, y, a, b)
    decreases b - a
  {
    if b <= a {
    } else {
      SameValuesSameIntegral(p, x, q, y, a, b - 1);
    }
  }

  ghost predicate KnownByStart(recent: seq<Point>, window: seq<Point>, start: int) {
    exists p :: p in recent + window && p.0 <= start
  }

  lemma {:induction false} SortedWindow(window: seq<Point>)
    ensures TimeSorted(Sorted(window)) && |Sorted(window)| == |window|
    ensures forall p :: p in window <==> p in Sorted(window)
  {
    var s := Sorted(window);
    SortBySorts(window, Time);
    forall i, j | 0 <= i < j < |s| ensures s[i].0 <= s[j].0 {
      assert Time(s[i]) <= Time(s[j]);
    }
  }

  lemma {:induction false} UpToEmpty(points: seq<Point>, t: int)
    requires UpTo(points, t) == []
    ensures forall p :: p in points ==> p.0 > t
  {
    if points == [] {
    } else {
      var last := points[|points| - 1];
      UpToEmpty(points[..|points| - 1], t);
      assert points == points[..|points| - 1] + [last];
    }
  }

  lemma {:induction false} HistoryValue(
    recent: seq<Point>, window: seq<Point>, start: int, initial: real, x: real, t: int)
    requires start <= t && KnownByStart(recent, window, start)
    requires LatestAtOrBefore(recent, start).Some? ==> initial == LatestAtOrBefore(recent, start).value
    ensures ValueAt(Sorted(window), initial, t) == ValueAt(History(recent, window, start), x, t)
  {
    var a, s := UpTo(recent, start), Sorted(window);
    LatestIsLastUpTo(recent, start);
    ValueOfConcat(a, s, x, t);
    if a == [] {
      UpToEmpty(recent, start);
      SortedWindow(window);
      var p :| p in recent + window && p.0 <= start;
      assert p in s;
      var k :| 0 <= k < |s| && s[k] == p;
      InitialForgotten(s, k, initial, x, t);
    } else {
      assert a[|a| - 1] in a;
    }
  }

  lemma {:induction false} NothingKnown(recent: seq<Point>, window: seq<Point>, start: int)
    requires !KnownByStart(recent, window, start)
    ensures LatestAtOrBefore(recent, start) == None == LatestAtOrBefore(window, start)
  {
    NoneAtOrBefore(recent, start);
    NoneAtOrBefore(window, start);
  }

  lemma {:induction false} NoneAtOrBefore(points: seq<Point>, t: int)
    requires forall p :: p in points ==> p.0 > t
    ensures LatestAtOrBefore(points, t) == None
  {
    if points == [] {
    } else {
      assert points[|points| - 1] in points;
      NoneAtOrBefore(points[..|points| - 1], t);
    }
  }

  /** The average of a history, whatever its value before its first point is taken to be. */
  ghost predicate IsHistoryAverage(avg: real, points: seq<Point>, start: int, end: int) {
    forall x :: avg * ((end - start) as real) == Integral(points, x, start, end)
  }

  /**
   What the minute's average is: over the history when a value is known at the start of the minute, over the
   window with its first value extended back when not, and the latest known value when the window is empty.
   */
  ghost predicate IsMinuteAverage(avg: Option<real>, window: seq<Point>, recent: seq<Point>, start: int) {
    var end := start + 60_000;
    if window == [] then avg == LatestAtOrBefore(recent, start)
    else
      && avg.Some?
      && (if KnownByStart(recent, window, start) then
            IsHistoryAverage(avg.value, History(recent, window, start), start, end)
          else
            |Sorted(window)| > 0 && IsStepAverage(avg.value, Sorted(window), Sorted(window)[0].1, start, end))
  }

  function Fallback(window: seq<Point>, recent: seq<Point>, start: int): Option<real> {
    var latest := LatestAtOrBefore(recent, start);
    if latest.Some? then latest else LatestAtOrBefore(window, start)
  }

  lemma {:induction false} MinuteAverage(avg: real, window: seq<Point>, recent: seq<Point>, start: int)
    requires Sorted(window) != []
    requires IsStepAverage(avg, Sorted(window), InitialValue(Sorted(window), Fallback(window, recent, start)),
                           start, start + MINUTE_MILLIS)
    ensures IsMinuteAverage(Some(avg), window, recent, start)
  {
    hide History, Sorted, ValueAt, Integral, UpTo, LatestAtOrBefore;
    var end := start + MINUTE_MILLIS;
    var initial := InitialValue(Sorted(window), Fallback(window, recent, start));
    SortedWindow(window);
    if KnownByStart(recent, window, start) {
      forall x ensures avg * ((end - start) as real) == Integral(History(recent, window, start), x, start, end) {
        forall t | start <= t < end
          ensures ValueAt(Sorted(window), initial, t) == ValueAt(History(recent, window, start), x, t)
        {
          HistoryValue(recent, window, start, initial, x, t);
        }
        SameValuesSameIntegral(Sorted(window), initial, History(recent, window, start), x, start, end);
      }
    } else {
      NothingKnown(recent, window, start);
    }
  }

  method FundingTwa1m(start: int, window: seq<Point>, recent: seq<Point>) returns (avg: Option<real>)
    ensures IsMinuteAverage(avg, window, recent, start)
  {
    var points := SortBy(window, Time);
    SortedWindow(window);
    var latest := LatestAtOrBefore(recent, start);
    var fallback := if latest.Some? then latest else LatestAtOrBefore(window, start);
    avg := TimeWeightedAvg(start, start + MINUTE_MILLIS, points, fallback);
    if window != [] {
      MinuteAverage(avg.value, window, recent, start);
    }
  }

  /** A mark observation may carry no price. */
  type MarkPoint = (int, Option<real>)

  function Priced(points: seq<MarkPoint>): seq<Point> {
    if points == [] then []
    else
      var last := points[|points| - 1];
      Priced(points[..|points| - 1]) + (if last.1.Some? then [(last.0, last.1.value)] else [])
  }

  /** The latest mark at or before t, passing over observations without a price. */
  function LatestMark(points: seq<MarkPoint>, t: int): Option<real> {
    if points == [] then None
    else
      var last := points[|points| - 1];
      if last.0 <= t && last.1.Some? then last.1 else LatestMark(points[..|points| - 1], t)
  }

  lemma {:induction false} LatestMarkIsLatestPriced(points: seq<MarkPoint>, t: int)
    ensures LatestMark(points, t) == LatestAtOrBefore(Priced(points), t)
  {
    if points == [] {
    } else {
      var init, last := points[..|points| - 1], points[|points| - 1];
      LatestMarkIsLatestPriced(init, t);
      var p := Priced(points);
      assert last.1.None? ==> p == Priced(init);
      assert last.1.Some? ==> p[..|p| - 1] == Priced(init) && p[|p| - 1] == (last.0, last.1.value);
    }
  }

  method MarkTwap1m(start: int, window: seq<MarkPoint>, recent: seq<MarkPoint>) returns (avg: Option<real>)
    ensures IsMinuteAverage(avg, Priced(window), Priced(recent), start)
  {
    var points := SortBy(Priced(window), Time);
    SortedWindow(Priced(window));
    LatestMarkIsLatestPriced(recent, start);
    LatestMarkIsLatestPriced(window, start);
    var latest := LatestMark(recent, start);
    var fallback := if latest.Some? then latest else LatestMark(window, start);
    avg := TimeWeightedAvg(start, start + MINUTE_MILLIS, points, fallback);
    if Priced(window) != [] {
      MinuteAverage(avg.value, Priced(window), Priced(recent), start);
    }
  }
}
