/** Stacked imbalance detection on footprint ticks. */
module ImbalanceStacks {
  import opened Options
  import opened Ordering

  /** A stretch of ticks first, first + 1, ..., last. */
  datatype Run = Run(first: int, last: int) {
    function Length(): int { last - first + 1 }
  }

  datatype Segment = Segment(startPrice: real, endPrice: real, length: int)

  function TickToPrice(tick: int): real { tick as real / 100.0 }

  function Identity(v: int): int { v }

  function SortedTicks(values: seq<int>): seq<int> { SortBy(values, Identity) }

  // ---------------------------------------------------------------- specification

  function Ticks(first: int, last: int): seq<int>
    decreases last - first
  {
    if first > last then [] else Ticks(first, last - 1) + [last]
  }

  function Expand(runs: seq<Run>): seq<int> {
    if runs == [] then [] else Expand(runs[..|runs| - 1]) + Ticks(runs[|runs| - 1].first, runs[|runs| - 1].last)
  }

  /** The list cut wherever a value is not one more than its predecessor, and nowhere else. */
  ghost predicate IsCut(runs: seq<Run>, vals: seq<int>) {
    && (forall k :: 0 <= k < |runs| ==> runs[k].first <= runs[k].last)
    && (forall j, k :: 0 <= j < k < |runs| && k == j + 1 ==> runs[k].first != runs[j].last + 1)
    && Expand(runs) == vals
  }

  /** Runs of the list read so far; the last one is still open. */
  function Runs(vals: seq<int>): (runs: seq<Run>)
    ensures vals == [] <==> runs == []
  {
    if vals == [] then []
    else
      var n, v := |vals| - 1, vals[|vals| - 1];
      var before := Runs(vals[..n]);
      if n > 0 && v == vals[n - 1] + 1 then before[|before| - 1 := Run(before[|before| - 1].first, v)]
      else before + [Run(v, v)]
  }

  function LongEnough(runs: seq<Run>, minLen: int): seq<Segment> {
    if runs == [] then []
    else
      LongEnough(runs[..|runs| - 1], minLen) + Piece(runs[|runs| - 1], minLen)
  }

  function SegmentOf(r: Run): Segment { Segment(TickToPrice(r.first), TickToPrice(r.last), r.Length()) }

  function Piece(r: Run, minLen: int): seq<Segment> {
    if r.Length() >= minLen then [SegmentOf(r)] else []
  }

  function Longest(runs: seq<Run>): int {
    if runs == [] then 0 else Max(Longest(runs[..|runs| - 1]), runs[|runs| - 1].Length())
  }

  // ---------------------------------------------------------------- the two scans

  /** The runs after one more value. */
  function NextRuns(runs: seq<Run>, prev: int, v: int): seq<Run>
    requires runs != []
  {
    if v == prev + 1 then runs[..|runs| - 1] + [Run(runs[|runs| - 1].first, v)] else runs + [Run(v, v)]
  }

  lemma {:induction false} RunsGrow(vals: seq<int>, i: nat)
    requires 0 < i < |vals|
    ensures Runs(vals[..i]) != []
    ensures Runs(vals[..i + 1]) == NextRuns(Runs(vals[..i]), vals[i - 1], vals[i])
  {
    assert vals[..i + 1][..i] == vals[..i];
  }

  lemma {:induction false} LongEnoughSnoc(runs: seq<Run>, r: Run, minLen: int)
    ensures LongEnough(runs + [r], minLen)
            == LongEnough(runs, minLen) + Piece(r, minLen)
  {
    assert (runs + [r])[..|runs|] == runs;
  }

  lemma {:induction false} LongestSnoc(runs: seq<Run>, r: Run)
    ensures Longest(runs + [r]) == Max(Longest(runs), r.Length())
  {
    assert (runs + [r])[..|runs|] == runs;
  }

  method ContiguousSegments(values: seq<int>, minLen: int) returns (out: seq<Segment>)
    ensures out == LongEnough(Runs(SortedTicks(values)), minLen)
  {
    if values == [] { return []; }
    var vals := SortedTicks(values);
    SortBySorts(values, Identity);
    out := [];
    var start, prev := vals[0], vals[0];
    RunsOfOne(vals[0]);
    assert vals[..1] == [vals[0]];
    ghost var closed: seq<Run> := [];
    assert out == LongEnough(closed, minLen);
    hide Runs, SortedTicks, TickToPrice, LongEnough, Piece, NextRuns, SegmentOf;
    for i := 1 to |vals|
      invariant Runs(vals[..i]) == closed + [Run(start, prev)] && prev == vals[i - 1]
      invariant out == LongEnough(closed, minLen)
    {
      var v := vals[i];
      RunsGrow(vals, i);
      NextRunsIs(closed, start, prev, v);
      if v != prev + 1 {
        LongEnoughSnoc(closed, Run(start, prev), minLen);
        out := PushIfLong(out, start, prev, minLen);
        closed := closed + [Run(start, prev)];
        start := v;
      }
      prev := v;
    }
    assert vals[..|vals|] == vals;
    LongEnoughSnoc(closed, Run(start, prev), minLen);
    out := PushIfLong(out, start, prev, minLen);
  }

  method PushIfLong(out: seq<Segment>, start: int, prev: int, minLen: int) returns (out': seq<Segment>)
    ensures out' == out + Piece(Run(start, prev), minLen)
  {
    var len := prev - start + 1;
    out' := out;
    if len >= minLen {
      out' := out' + [Segment(TickToPrice(start), TickToPrice(prev), len)];
    }
  }

  lemma {:induction false} NextRunsIs(closed: seq<Run>, start: int, prev: int, v: int)
    ensures NextRuns(closed + [Run(start, prev)], prev, v)
            == if v == prev + 1 then closed + [Run(start, v)] else closed + [Run(start, prev)] + [Run(v, v)]
  {
  }

  method LongestConsecutive(values: seq<int>) returns (best: int)
    ensures best == Longest(Runs(SortedTicks(values)))
  {
    if values == [] { return 0; }
    var vals := SortedTicks(values);
    SortBySorts(values, Identity);
    best := 1;
    var cur := 1;
    RunsOfOne(vals[0]);
    assert vals[..1] == [vals[0]];
    ghost var closed: seq<Run> := [];
    ghost var open := Run(vals[0], vals[0]);
    hide Runs, SortedTicks, Longest;
    for i := 1 to |vals|
      invariant Runs(vals[..i]) == closed + [open] && open.last == vals[i - 1] && cur == open.Length() >= 1
      invariant best == Max(Longest(closed), cur) >= 1
    {
      RunsGrow(vals, i);
      if vals[i] == vals[i - 1] + 1 {
        cur := cur + 1;
        open := Run(open.first, vals[i]);
      } else {
        cur := 1;
        LongestSnoc(closed, open);
        closed, open := closed + [open], Run(vals[i], vals[i]);
      }
      if cur > best {
        best := cur;
      }
    }
    assert vals[..|vals|] == vals;
    LongestSnoc(closed, open);
  }

  lemma {:induction false} RunsOfOne(v: int)
    ensures Runs([v]) == [Run(v, v)]
  {
    assert [v][..0] == [];
  }

  // ---------------------------------------------------------------- what the runs are

  lemma {:induction false} ExpandSnoc(runs: seq<Run>, r: Run)
    ensures Expand(runs + [r]) == Expand(runs) + Ticks(r.first, r.last)
  {
    assert (runs + [r])[..|runs|] == runs;
  }

  lemma {:induction false} CutGrows(runs: seq<Run>, vals: seq<int>, v: int)
    requires IsCut(runs, vals) && runs != [] && runs[|runs| - 1].last == vals[|vals| - 1]
    requires vals != []
    ensures IsCut(NextRuns(runs, vals[|vals| - 1], v), vals + [v])
  {
    var front, open := runs[..|runs| - 1], runs[|runs| - 1];
    assert runs == front + [open];
    if v == vals[|vals| - 1] + 1 {
      ExpandSnoc(front, open);
      ExpandSnoc(front, Run(open.first, v));
      assert Ticks(open.first, v) == Ticks(open.first, open.last) + [v];
    } else {
      ExpandSnoc(runs, Run(v, v));
      assert Ticks(v, v) == Ticks(v, v - 1) + [v] == [v];
    }
  }

  /** The scan's runs are the cut of the list. */
  lemma {:induction false} RunsAreTheCut(vals: seq<int>)
    ensures IsCut(Runs(vals), vals)
    ensures vals != [] ==> Runs(vals)[|Runs(vals)| - 1].last == vals[|vals| - 1]
  {
    if |vals| == 1 {
      RunsOfOne(vals[0]);
      ExpandSnoc([], Run(vals[0], vals[0]));
      assert Ticks(vals[0], vals[0]) == Ticks(vals[0], vals[0] - 1) + [vals[0]] == [vals[0]];
      assert vals == [vals[0]] && [] + [Run(vals[0], vals[0])] == [Run(vals[0], vals[0])];
    } else if |vals| > 1 {
      var n := |vals| - 1;
      RunsAreTheCut(vals[..n]);
      RunsGrow(vals, n);
      assert vals[..n + 1] == vals && vals == vals[..n] + [vals[n]];
      CutGrows(Runs(vals[..n]), vals[..n], vals[n]);
    }
  }

  lemma {:induction false} TicksAre(first: int, last: int)
    requires first <= last
    ensures |Ticks(first, last)| == last - first + 1
    ensures forall k :: 0 <= k < |Ticks(first, last)| ==> Ticks(first, last)[k] == first + k
    decreases last - first
  {
    if first < last { TicksAre(first, last - 1); } else { assert Ticks(first, first - 1) == []; }
  }

  /** The last run ends the list, and where its first tick stands, the runs before it have ended. */
  lemma {:induction false} LastRun(runs: seq<Run>, vals: seq<int>) returns (start: nat)
    requires IsCut(runs, vals) && runs != []
    ensures start < |vals| && IsCut(runs[..|runs| - 1], vals[..start])
    ensures vals[start] == runs[|runs| - 1].first && vals[|vals| - 1] == runs[|runs| - 1].last
  {
    var front, r := runs[..|runs| - 1], runs[|runs| - 1];
    TicksAre(r.first, r.last);
    start := |Expand(front)|;
    assert vals[..start] == Expand(front);
  }

  lemma {:induction false} SortedCutAscends(runs: seq<Run>, vals: seq<int>)
    requires IsCut(runs, vals) && forall i, j :: 0 <= i < j < |vals| ==> vals[i] <= vals[j]
    ensures forall k, l :: 0 <= k < l < |runs| ==> runs[k].last <= runs[l].first
    ensures runs == [] <==> vals == []
    ensures runs != [] ==> vals[|vals| - 1] == runs[|runs| - 1].last
  {
    if runs == [] {
    } else {
      var start := LastRun(runs, vals);
      SortedCutAscends(runs[..|runs| - 1], vals[..start]);
      assert start > 0 ==> vals[start - 1] <= vals[start];
    }
  }

  /**
   Laid end to end, the runs hold every tick of the input, repeated ones included, and no other, and no run starts
   before an earlier one ends.
   */
  lemma {:induction false} RunsHoldTheTicks(values: seq<int>)
    ensures var runs := Runs(SortedTicks(values));
            && multiset(Expand(runs)) == multiset(values)
            && forall k, l :: 0 <= k < l < |runs| ==> runs[k].last <= runs[l].first
  {
    var vals := SortedTicks(values);
    RunsAreTheCut(vals);
    SortByPermutes(values, Identity);
    SortBySorts(values, Identity);
    assert forall i, j :: 0 <= i < j < |vals| ==> Identity(vals[i]) <= Identity(vals[j]);
    SortedCutAscends(Runs(vals), vals);
  }

  /** The segment names the first and the last tick's price, in hundredths, and how many ticks it spans. */
  ghost predicate Reports(segment: Segment, r: Run) {
    && segment.startPrice * 100.0 == r.first as real && segment.endPrice * 100.0 == r.last as real
    && segment.length == r.last - r.first + 1
  }

  /** One segment for each long enough run, in the runs' order; at tells which run each segment reports. */
  ghost predicate ReportsAll(segments: seq<Segment>, runs: seq<Run>, minLen: int, at: seq<nat>) {
    && |at| == |segments|
    && (forall k :: 0 <= k < |at| ==> at[k] < |runs| && Reports(segments[k], runs[at[k]]))
    && (forall k, l :: 0 <= k < l < |at| ==> at[k] < at[l])
    && (forall i: nat :: i < |runs| ==> (i in at <==> runs[i].last - runs[i].first + 1 >= minLen))
  }

  lemma {:induction false} PieceReports(r: Run, minLen: int)
    ensures Reports(SegmentOf(r), r)
    ensures Piece(r, minLen) == if r.last - r.first + 1 >= minLen then [SegmentOf(r)] else []
  {
  }

  lemma NothingToReport(minLen: int)
    ensures ReportsAll([], [], minLen, [])
  {
  }

  lemma {:induction false} OneMoreReported(
    segments: seq<Segment>, runs: seq<Run>, minLen: int, at: seq<nat>, segment: Segment, r: Run)
    requires ReportsAll(segments, runs, minLen, at) && Reports(segment, r) && r.last - r.first + 1 >= minLen
    ensures ReportsAll(segments + [segment], runs + [r], minLen, at + [|runs|])
  {
    hide Reports;
    assert forall k :: 0 <= k < |at| ==> at[k] in at;
    forall i: nat | i < |runs + [r]|
      ensures i in at + [|runs|] <==> (runs + [r])[i].last - (runs + [r])[i].first + 1 >= minLen
    {
      assert i in at + [|runs|] <==> i in at || i == |runs|;
      if i < |runs| { assert (runs + [r])[i] == runs[i]; }
    }
  }

  lemma {:induction false} OneMoreLeftOut(
    segments: seq<Segment>, runs: seq<Run>, minLen: int, at: seq<nat>, r: Run)
    requires ReportsAll(segments, runs, minLen, at) && r.last - r.first + 1 < minLen
    ensures ReportsAll(segments, runs + [r], minLen, at)
  {
    hide Reports;
    forall i: nat | i < |runs + [r]|
      ensures i in at <==> (runs + [r])[i].last - (runs + [r])[i].first + 1 >= minLen
    {
      if i < |runs| { assert (runs + [r])[i] == runs[i]; }
    }
  }

  /** The segments are the long enough runs, each at the prices of its own first and last tick. */
  lemma {:induction false} SegmentsReportRuns(runs: seq<Run>, minLen: int) returns (at: seq<nat>)
    ensures ReportsAll(LongEnough(runs, minLen), runs, minLen, at)
  {
    hide ReportsAll, Reports, Piece, SegmentOf;
    if runs == [] {
      at := [];
      NothingToReport(minLen);
    } else {
      var front, r := runs[..|runs| - 1], runs[|runs| - 1];
      var before := SegmentsReportRuns(front, minLen);
      PieceReports(r, minLen);
      at := if r.last - r.first + 1 >= minLen then before + [|front|] else before;
      assert front + [r] == runs;
      assert LongEnough(runs, minLen) == LongEnough(front, minLen) + Piece(r, minLen);
      if r.last - r.first + 1 >= minLen {
        OneMoreReported(LongEnough(front, minLen), front, minLen, before, SegmentOf(r), r);
      } else {
        OneMoreLeftOut(LongEnough(front, minLen), front, minLen, before, r);
        assert LongEnough(runs, minLen) == LongEnough(front, minLen);
      }
    }
  }

  /** The longest length reaches the minimum exactly when there are segments, and is then that of the longest one. */
  ghost predicate Agree(longest: int, segments: seq<Segment>, minLen: int) {
    && (longest >= minLen <==> segments != [])
    && (segments != [] ==> exists k :: 0 <= k < |segments| && segments[k].length == longest)
    && (segments != [] ==> forall k :: 0 <= k < |segments| ==> segments[k].length <= longest)
  }

  lemma {:induction false} LongestBounds(runs: seq<Run>, minLen: int)
    requires minLen >= 1 && forall k :: 0 <= k < |runs| ==> runs[k].first <= runs[k].last
    ensures Agree(Longest(runs), LongEnough(runs, minLen), minLen)
  {
    if runs == [] {
    } else {
      var front, r := runs[..|runs| - 1], runs[|runs| - 1];
      LongestBounds(front, minLen);
      var segments, before := LongEnough(runs, minLen), LongEnough(front, minLen);
      if r.Length() >= minLen {
        assert segments[|segments| - 1].length == r.Length();
        if before != [] {
          var k :| 0 <= k < |before| && before[k].length == Longest(front);
          assert segments[k] == before[k];
        }
      } else {
        assert segments == before;
      }
    }
  }

  /** A stack is reported exactly when the longest run reaches the minimum, and the longest segment has that length. */
  lemma {:induction false} StackedExactlyWhenSegments(values: seq<int>, minLen: int)
    requires minLen >= 1
    ensures var runs := Runs(SortedTicks(values)); Agree(Longest(runs), LongEnough(runs, minLen), minLen)
  {
    RunsAreTheCut(SortedTicks(values));
    LongestBounds(Runs(SortedTicks(values)), minLen);
  }

  function AllSegments(runs: seq<Run>): seq<Segment> {
    if runs == [] then []
    else AllSegments(runs[..|runs| - 1]) + [SegmentOf(runs[|runs| - 1])]
  }

  lemma {:induction false} MinimumOneKeepsAll(runs: seq<Run>)
    requires forall k :: 0 <= k < |runs| ==> runs[k].first <= runs[k].last
    ensures LongEnough(runs, 1) == AllSegments(runs)
  {
    if runs != [] { MinimumOneKeepsAll(runs[..|runs| - 1]); }
  }

  lemma {:induction false} StrictCutHasGaps(runs: seq<Run>, vals: seq<int>)
    requires IsCut(runs, vals) && forall i, j :: 0 <= i < j < |vals| ==> vals[i] < vals[j]
    ensures forall k, l :: 0 <= k < l < |runs| ==> runs[k].last + 1 < runs[l].first
    ensures runs == [] <==> vals == []
    ensures runs != [] ==> vals[|vals| - 1] == runs[|runs| - 1].last
  {
    if runs == [] {
    } else {
      var start := LastRun(runs, vals);
      StrictCutHasGaps(runs[..|runs| - 1], vals[..start]);
      assert start > 0 ==> vals[start - 1] < vals[start];
    }
  }

  lemma {:induction false} DistinctSortsStrictly(values: seq<int>)
    requires forall i, j :: 0 <= i < j < |values| ==> values[i] != values[j]
    ensures forall i, j :: 0 <= i < j < |SortedTicks(values)| ==> SortedTicks(values)[i] < SortedTicks(values)[j]
  {
    var vals := SortedTicks(values);
    SortByDistinct(values, Identity);
    assert forall i, j :: 0 <= i < j < |vals| ==> Identity(vals[i]) < Identity(vals[j]);
  }

  /**
   On distinct ticks with minimum 1 the segments are the maximal runs: laid out one after the other they
   are the sorted ticks, and a missing tick separates any two of them.
   */
  lemma {:induction false} DistinctTicksPartition(values: seq<int>)
    requires forall i, j :: 0 <= i < j < |values| ==> values[i] != values[j]
    ensures var runs := Runs(SortedTicks(values));
            && LongEnough(runs, 1) == AllSegments(runs)
            && Expand(runs) == SortedTicks(values)
            && forall k, l :: 0 <= k < l < |runs| ==> runs[k].last + 1 < runs[l].first
  {
    DistinctSortsStrictly(values);
    RunsAreTheCut(SortedTicks(values));
    MinimumOneKeepsAll(Runs(SortedTicks(values)));
    StrictCutHasGaps(Runs(SortedTicks(values)), SortedTicks(values));
  }
}
