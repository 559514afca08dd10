/** Merging half-open time ranges. */
module TimeRanges {
  import opened Options
  import opened Ordering

  type Range = (int, int)

  function Start(r: Range): int { r.0 }

  predicate CoveredBy(ranges: seq<Range>, t: int) {
    exists k :: 0 <= k < |ranges| && ranges[k].0 <= t < ranges[k].1
  }

  ghost predicate SamePoints(a: seq<Range>, b: seq<Range>) {
    forall t :: CoveredBy(a, t) <==> CoveredBy(b, t)
  }

  /** Sorted, no empty range, and a real gap between neighbours. */
  predicate Normal(ranges: seq<Range>) {
    && (forall k :: 0 <= k < |ranges| ==> ranges[k].0 < ranges[k].1)
    && (forall k, l :: 0 <= k < l < |ranges| ==> ranges[k].1 < ranges[l].0)
  }

  function NonEmpty(ranges: seq<Range>): (kept: seq<Range>)
    ensures forall r :: r in kept <==> r in ranges && r.0 < r.1
  {
    if ranges == [] then []
    else if ranges[0].0 < ranges[0].1 then [ranges[0]] + NonEmpty(ranges[1..])
    else NonEmpty(ranges[1..])
  }

  /** What the loop knows of the ranges merged so far: they stand for the sorted prefix read so far. */
  ghost predicate MergedPrefix(merged: seq<Range>, prefix: seq<Range>) {
    && Normal(merged)
    && SamePoints(merged, prefix)
    && (merged != [] ==> prefix != [] && merged[|merged| - 1].0 <= prefix[|prefix| - 1].0)
  }

  method MergeTimeRanges(ranges: seq<Range>) returns (merged: seq<Range>)
    ensures Normal(merged)
    ensures SamePoints(merged, ranges)
  {
    hide SamePoints, Normal, SortBy, NonEmpty, MergedPrefix, Next;
    var sorted := SortBy(NonEmpty(ranges), Start);
    merged := [];
    NothingMerged();
    for i := 0 to |sorted|
      invariant MergedPrefix(merged, sorted[..i])
    {
      var (start, end) := sorted[i];
      StepKeepsPrefix(ranges, merged, i);
      NextIs(merged, start, end);
      if merged != [] && start <= merged[|merged| - 1].1 {
        var last := |merged| - 1;
        merged := merged[last := (merged[last].0, Max(merged[last].1, end))];
      } else {
        merged := merged + [(start, end)];
      }
    }
    assert sorted[..|sorted|] == sorted;
    AllMerged(ranges, merged);
  }

  lemma {:induction false} StepKeepsPrefix(ranges: seq<Range>, merged: seq<Range>, i: nat)
    requires i < |SortBy(NonEmpty(ranges), Start)|
    requires MergedPrefix(merged, SortBy(NonEmpty(ranges), Start)[..i])
    ensures var sorted := SortBy(NonEmpty(ranges), Start); MergedPrefix(Next(merged, sorted[i]), sorted[..i + 1])
  {
    hide MergedPrefix, SortBy, Next;
    var sorted := SortBy(NonEmpty(ranges), Start);
    SortBySorts(NonEmpty(ranges), Start);
    assert sorted[i] in sorted;
    assert i > 0 ==> Start(sorted[i - 1]) <= Start(sorted[i]);
    NextKeepsPrefix(merged, sorted[..i], sorted[i]);
    assert sorted[..i + 1] == sorted[..i] + [sorted[i]];
  }

  lemma NextIs(merged: seq<Range>, start: int, end: int)
    ensures Next(merged, (start, end)) ==
            if merged != [] && start <= merged[|merged| - 1].1 then
              merged[|merged| - 1 := (merged[|merged| - 1].0, Max(merged[|merged| - 1].1, end))]
            else merged + [(start, end)]
  {
  }

  lemma {:induction false} NothingMerged()
    ensures MergedPrefix([], [])
  {
  }

  lemma {:induction false} AllMerged(ranges: seq<Range>, merged: seq<Range>)
    requires MergedPrefix(merged, SortBy(NonEmpty(ranges), Start))
    ensures Normal(merged) && SamePoints(merged, ranges)
  {
    hide SortBy;
    SortBySorts(NonEmpty(ranges), Start);
    SortedCovers(ranges, SortBy(NonEmpty(ranges), Start));
  }

  lemma {:induction false} ExtendKeepsPrefix(merged: seq<Range>, prefix: seq<Range>, r: Range)
    requires MergedPrefix(merged, prefix) && merged != [] && r.0 < r.1
    requires prefix != [] ==> prefix[|prefix| - 1].0 <= r.0
    requires r.0 <= merged[|merged| - 1].1
    ensures var last := |merged| - 1;
            MergedPrefix(merged[last := (merged[last].0, Max(merged[last].1, r.1))], prefix + [r])
  {
    ExtendLast(merged, r.0, r.1);
    AppendRange(prefix, r);
  }

  lemma {:induction false} AppendKeepsPrefix(merged: seq<Range>, prefix: seq<Range>, r: Range)
    requires MergedPrefix(merged, prefix) && r.0 < r.1
    requires merged != [] ==> merged[|merged| - 1].1 < r.0
    ensures MergedPrefix(merged + [r], prefix + [r])
  {
    AppendRange(merged, r);
    AppendRange(prefix, r);
    forall k | 0 <= k < |merged| ensures merged[k].1 < r.0 {
      assert k < |merged| - 1 ==> merged[k].1 < merged[|merged| - 1].0;
    }
  }

  /** The merged list after one more range. */
  function Next(merged: seq<Range>, r: Range): seq<Range> {
    var last := |merged| - 1;
    if merged != [] && r.0 <= merged[last].1 then merged[last := (merged[last].0, Max(merged[last].1, r.1))]
    else merged + [r]
  }

  lemma {:induction false} NextKeepsPrefix(merged: seq<Range>, prefix: seq<Range>, r: Range)
    requires MergedPrefix(merged, prefix) && r.0 < r.1
    requires prefix != [] ==> prefix[|prefix| - 1].0 <= r.0
    ensures MergedPrefix(Next(merged, r), prefix + [r])
  {
    hide MergedPrefix;
    if merged != [] && r.0 <= merged[|merged| - 1].1 {
      ExtendKeepsPrefix(merged, prefix, r);
    } else {
      AppendKeepsPrefix(merged, prefix, r);
    }
  }

  lemma {:induction false} AppendRange(ranges: seq<Range>, r: Range)
    ensures forall t :: CoveredBy(ranges + [r], t) <==> CoveredBy(ranges, t) || r.0 <= t < r.1
  {
    forall t ensures CoveredBy(ranges + [r], t) <==> CoveredBy(ranges, t) || r.0 <= t < r.1 {
      if CoveredBy(ranges, t) {
        var k :| 0 <= k < |ranges| && ranges[k].0 <= t < ranges[k].1;
        assert (ranges + [r])[k] == ranges[k];
      }
      assert (ranges + [r])[|ranges|] == r;
    }
  }

  lemma {:induction false} ExtendLast(ranges: seq<Range>, start: int, end: int)
    requires ranges != [] && ranges[|ranges| - 1].0 <= start <= ranges[|ranges| - 1].1
    ensures var last := |ranges| - 1;
            forall t :: CoveredBy(ranges[last := (ranges[last].0, Max(ranges[last].1, end))], t)
                        <==> CoveredBy(ranges, t) || start <= t < end
  {
    var last := |ranges| - 1;
    var front := ranges[..last];
    var grown: Range := (ranges[last].0, Max(ranges[last].1, end));
    assert ranges == front + [ranges[last]];
    assert ranges[last := grown] == front + [grown];
    AppendRange(front, ranges[last]);
    AppendRange(front, grown);
  }

  lemma {:induction false} SortedCovers(ranges: seq<Range>, sorted: seq<Range>)
    requires forall r :: r in sorted <==> r in NonEmpty(ranges)
    ensures SamePoints(sorted, ranges)
    ensures forall k :: 0 <= k < |sorted| ==> sorted[k].0 < sorted[k].1
  {
    assert forall r: Range :: r in sorted <==> r in ranges && r.0 < r.1;
    forall t ensures CoveredBy(sorted, t) <==> CoveredBy(ranges, t) {
      if CoveredBy(ranges, t) {
        var k :| 0 <= k < |ranges| && ranges[k].0 <= t < ranges[k].1;
        assert ranges[k] in sorted;
      }
      if CoveredBy(sorted, t) {
        var k :| 0 <= k < |sorted| && sorted[k].0 <= t < sorted[k].1;
        assert sorted[k] in ranges;
      }
    }
  }

  // ---------------------------------------------------------------- uniqueness

  lemma {:induction false} FirstPoint(ranges: seq<Range>, t: int)
    requires Normal(ranges) && CoveredBy(ranges, t)
    ensures ranges[0].0 <= t
  {
  }

  lemma {:induction false} PointInFirst(ranges: seq<Range>, t: int)
    requires Normal(ranges) && ranges != [] && ranges[0].0 <= t
    ensures t < ranges[0].1 ==> CoveredBy(ranges, t)
    ensures t == ranges[0].1 ==> !CoveredBy(ranges, t)
  {
  }

  lemma {:induction false} TailPoints(ranges: seq<Range>, t: int)
    requires Normal(ranges) && ranges != []
    ensures CoveredBy(ranges[1..], t) <==> CoveredBy(ranges, t) && ranges[0].1 < t
  {
    if CoveredBy(ranges, t) && ranges[0].1 < t {
      var k :| 0 <= k < |ranges| && ranges[k].0 <= t < ranges[k].1;
      assert ranges[1..][k - 1] == ranges[k];
    }
    if CoveredBy(ranges[1..], t) {
      var k :| 0 <= k < |ranges[1..]| && ranges[1..][k].0 <= t < ranges[1..][k].1;
      assert ranges[k + 1] == ranges[1..][k];
    }
  }

  lemma {:induction false} FirstEndAtMost(a: seq<Range>, b: seq<Range>)
    requires Normal(a) && Normal(b) && SamePoints(a, b) && a != [] && b != [] && a[0].0 == b[0].0
    ensures a[0].1 <= b[0].1
  {
    PointInFirst(b, b[0].1);
    if b[0].1 < a[0].1 {
      PointInFirst(a, b[0].1);
    }
  }

  lemma {:induction false} SameHead(a: seq<Range>, b: seq<Range>)
    requires Normal(a) && Normal(b) && SamePoints(a, b) && a != []
    ensures b != [] && a[0] == b[0]
  {
    PointInFirst(a, a[0].0);
    assert CoveredBy(b, a[0].0);
    PointInFirst(b, b[0].0);
    FirstPoint(b, a[0].0);
    FirstPoint(a, b[0].0);
    FirstEndAtMost(a, b);
    FirstEndAtMost(b, a);
  }

  /** The merged form is canonical: two normal lists covering the same points are the same list. */
  lemma {:induction false} NormalIsCanonical(a: seq<Range>, b: seq<Range>)
    requires Normal(a) && Normal(b) && SamePoints(a, b)
    ensures a == b
  {
    if a == [] {
      if b != [] { SameHead(b, a); }
    } else {
      SameHead(a, b);
      TailsSamePoints(a, b);
      NormalIsCanonical(a[1..], b[1..]);
      assert a == [a[0]] + a[1..] && b == [b[0]] + b[1..];
    }
  }

  lemma {:induction false} TailsSamePoints(a: seq<Range>, b: seq<Range>)
    requires Normal(a) && Normal(b) && SamePoints(a, b) && a != [] && b != [] && a[0] == b[0]
    ensures SamePoints(a[1..], b[1..])
  {
    forall t ensures CoveredBy(a[1..], t) <==> CoveredBy(b[1..], t) {
      TailPoints(a, t);
      TailPoints(b, t);
    }
  }

  /** Any two results the merge may give for inputs covering the same points are identical. */
  lemma {:induction false} MergeDependsOnPointsOnly(
    a: seq<Range>, b: seq<Range>, mergedA: seq<Range>, mergedB: seq<Range>)
    requires SamePoints(a, b)
    requires Normal(mergedA) && SamePoints(mergedA, a)
    requires Normal(mergedB) && SamePoints(mergedB, b)
    ensures mergedA == mergedB
  {
    NormalIsCanonical(mergedA, mergedB);
  }
}
