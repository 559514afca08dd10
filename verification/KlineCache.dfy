/** The kline supplement cache: a slice of the bar table, extended downwards on demand, against the direct query. */
module KlineCache {
  import opened Options
  import opened Ordering

  datatype Bar = Bar(
    openTime: int, closeTime: int, prices: (real, real, real, real), volumeBase: real, volumeQuote: real,
    isClosed: bool)

  datatype CacheKey = CacheKey(market: string, interval: string)

  datatype Entry = Entry(rows: seq<Bar>, exhausted: bool)

  const NO_ENTRY := Entry([], false)

  function OpenTime(b: Bar): int { b.openTime }

  // ---------------------------------------------------------------- the database

  /** The closed bars of one market and interval: ascending, not overlapping. */
  ghost predicate Table(table: seq<Bar>) {
    && StrictlySorted(table, OpenTime)
    && (forall i :: 0 <= i < |table| ==> table[i].isClosed)
    && (forall i, j :: 0 <= i < j < |table| ==> table[i].closeTime <= table[j].openTime)
  }

  /** How many bars open before the cutoff. */
  function Position(table: seq<Bar>, cutoff: int): (p: nat)
    ensures p <= |table|
  {
    if table == [] then 0
    else if table[|table| - 1].openTime < cutoff then |table|
    else Position(table[..|table| - 1], cutoff)
  }

  /** A fetched bar counts as closed when it ended by the cutoff of its fetch. */
  function Stamped(rows: seq<Bar>, cutoff: int): (out: seq<Bar>)
    ensures |out| == |rows|
    ensures forall i :: 0 <= i < |rows| ==> out[i] == rows[i].(isClosed := rows[i].closeTime <= cutoff)
  {
    if rows == [] then []
    else
      var last := rows[|rows| - 1];
      Stamped(rows[..|rows| - 1], cutoff) + [last.(isClosed := last.closeTime <= cutoff)]
  }

  /** The most recent limit bars that open before the cutoff, oldest first. */
  function Query(table: seq<Bar>, cutoff: int, limit: nat): seq<Bar> {
    var p := Position(table, cutoff);
    Stamped(table[p - Min(limit, p)..p], cutoff)
  }

  /** Every bar that opens before the cutoff has ended by it. */
  ghost predicate Aligned(table: seq<Bar>, cutoff: int) {
    forall i :: 0 <= i < Position(table, cutoff) ==> table[i].closeTime <= cutoff
  }

  // ---------------------------------------------------------------- the cache operations

  function CountBelow(rows: seq<Bar>, cutoff: int): nat {
    if rows == [] then 0
    else CountBelow(rows[..|rows| - 1], cutoff) + (if rows[|rows| - 1].openTime < cutoff then 1 else 0)
  }

  function EffectiveLimit(e: Entry, cutoff: int, limit: nat): nat {
    if !e.exhausted then limit else Min(limit, CountBelow(e.rows, cutoff))
  }

  /** Scanning from the newest row back, the first limit rows below the cutoff, put back in order. */
  function SelectRecent(rows: seq<Bar>, cutoff: int, limit: nat): seq<Bar> {
    if limit == 0 || rows == [] then []
    else
      var (init, last) := (rows[..|rows| - 1], rows[|rows| - 1]);
      if last.openTime < cutoff then SelectRecent(init, cutoff, limit - 1) + [last]
      else SelectRecent(init, cutoff, limit)
  }

  predicate HasOpenTime(rows: seq<Bar>, openTime: int) { exists i :: 0 <= i < |rows| && rows[i].openTime == openTime }

  function Appended(existing: seq<Bar>, fetched: seq<Bar>): seq<Bar> {
    if fetched == [] then existing
    else
      var (rest, last) := (Appended(existing, fetched[..|fetched| - 1]), fetched[|fetched| - 1]);
      if HasOpenTime(rest, last.openTime) then rest else rest + [last]
  }

  function Merged(existing: seq<Bar>, fetched: seq<Bar>): seq<Bar> {
    SortBy(Appended(existing, fetched), OpenTime)
  }

  method MergeRows(existing: seq<Bar>, fetched: seq<Bar>) returns (merged: seq<Bar>)
    ensures merged == Merged(existing, fetched)
    ensures multiset(merged) == multiset(Appended(existing, fetched))
  {
    merged := existing;
    for i := 0 to |fetched|
      invariant merged == Appended(existing, fetched[..i])
    {
      assert fetched[..i + 1][..i] == fetched[..i];
      if HasOpenTime(merged, fetched[i].openTime) {
        continue;
      }
      merged := merged + [fetched[i]];
    }
    assert fetched[..|fetched|] == fetched;
    SortByPermutes(merged, OpenTime);
    merged := SortBy(merged, OpenTime);
  }

  function Cached(e: Entry, cutoff: int, limit: nat): seq<Bar> {
    SelectRecent(e.rows, cutoff, EffectiveLimit(e, cutoff, limit))
  }

  /** The cache answers by itself. */
  predicate Served(e: Entry, cutoff: int, limit: nat) {
    var effective := EffectiveLimit(e, cutoff, limit);
    effective == 0 || |Cached(e, cutoff, limit)| >= effective || e.exhausted
  }

  function FetchBefore(e: Entry, cutoff: int, limit: nat): int {
    if Cached(e, cutoff, limit) == [] then cutoff else Cached(e, cutoff, limit)[0].openTime
  }

  function Missing(e: Entry, cutoff: int, limit: nat): nat {
    Max(EffectiveLimit(e, cutoff, limit) - |Cached(e, cutoff, limit)|, 0)
  }

  /** The entry after a fetch; between is what the entry had become when the write lock was taken. */
  function Stored(between: Entry, fetched: seq<Bar>, missing: nat): Entry {
    Entry(Merged(between.rows, fetched), between.exhausted || |fetched| < missing)
  }

  function Answer(e: Entry, between: Entry, fetched: seq<Bar>, cutoff: int, limit: nat): seq<Bar> {
    var rows := Merged(between.rows, fetched);
    SelectRecent(rows, cutoff,
                 if |fetched| < Missing(e, cutoff, limit) then Min(limit, CountBelow(rows, cutoff))
                 else EffectiveLimit(e, cutoff, limit))
  }

  // ---------------------------------------------------------------- one request

  datatype Request = Request(key: CacheKey, cutoff: int, limit: nat)

  function EntryIn(kline: map<CacheKey, Entry>, key: CacheKey): Entry {
    if key in kline then kline[key] else NO_ENTRY
  }

  /** What a miss of the request reads from the table. */
  function Fetched(kline: map<CacheKey, Entry>, table: seq<Bar>, r: Request): seq<Bar> {
    var e := EntryIn(kline, r.key);
    Query(table, FetchBefore(e, r.cutoff, r.limit), Missing(e, r.cutoff, r.limit))
  }

  /** The answer to an undisturbed request, and the cache it leaves. */
  function Answered(kline: map<CacheKey, Entry>, table: seq<Bar>, r: Request): seq<Bar> {
    var e := EntryIn(kline, r.key);
    if Served(e, r.cutoff, r.limit) then Cached(e, r.cutoff, r.limit)
    else Answer(e, e, Fetched(kline, table, r), r.cutoff, r.limit)
  }

  function Requested(kline: map<CacheKey, Entry>, table: seq<Bar>, r: Request): map<CacheKey, Entry> {
    var e := EntryIn(kline, r.key);
    if Served(e, r.cutoff, r.limit) then kline
    else kline[r.key := Stored(e, Fetched(kline, table, r), Missing(e, r.cutoff, r.limit))]
  }

  lemma Undisturbed(kline: map<CacheKey, Entry>, table: seq<Bar>, r: Request)
    ensures var e := EntryIn(kline, r.key);
            !Served(e, r.cutoff, r.limit) ==>
              var fetched := Query(table, FetchBefore(e, r.cutoff, r.limit), Missing(e, r.cutoff, r.limit));
              && Answered(kline, table, r) == Answer(e, e, fetched, r.cutoff, r.limit)
              && Requested(kline, table, r) == kline[r.key := Stored(e, fetched, Missing(e, r.cutoff, r.limit))]
    ensures var e := EntryIn(kline, r.key);
            Served(e, r.cutoff, r.limit) ==>
              Answered(kline, table, r) == Cached(e, r.cutoff, r.limit) && Requested(kline, table, r) == kline
  {
  }

  class RuntimeHistorySupplementCache {
    var kline: map<CacheKey, Entry>

    constructor ()
      ensures kline == map[]
    {
      kline := map[];
    }

    function EntryAt(key: CacheKey): Entry
      reads this
    {
      EntryIn(kline, key)
    }

    /** While the database is read no lock is held: other requests may store, and a rebuild may clear the cache. */
    method OtherTasksRun()
      modifies this
    {
    }

    /** atLock: the cache as it stands when the write lock is taken. */
    method EnsureCachedRows(table: seq<Bar>, key: CacheKey, cutoff: int, limit: nat, fetchFails: bool)
      returns (rows: seq<Bar>, ghost atLock: map<CacheKey, Entry>)
      modifies this
      ensures old(Served(EntryAt(key), cutoff, limit)) ==>
                rows == Cached(old(EntryAt(key)), cutoff, limit) && kline == atLock == old(kline)
      ensures !old(Served(EntryAt(key), cutoff, limit)) ==>
                var (e, between) := (old(EntryAt(key)), EntryIn(atLock, key));
                var fetched := if fetchFails then []
                               else Query(table, FetchBefore(e, cutoff, limit), Missing(e, cutoff, limit));
                && rows == Answer(e, between, fetched, cutoff, limit)
                && EntryAt(key) == Stored(between, fetched, Missing(e, cutoff, limit))
      ensures key in kline || kline == atLock
      ensures forall k :: k != key ==> (k in kline <==> k in atLock) && (k in kline ==> kline[k] == atLock[k])
      ensures atLock == old(kline) && !fetchFails ==>
                && rows == Answered(old(kline), table, Request(key, cutoff, limit))
                && kline == Requested(old(kline), table, Request(key, cutoff, limit))
    {
      Undisturbed(kline, table, Request(key, cutoff, limit));
      hide Merged, Query, SelectRecent, CountBelow, Answered, Requested;
      var entry := EntryAt(key);
      atLock := kline;
      var effective := EffectiveLimit(entry, cutoff, limit);
      var cached := SelectRecent(entry.rows, cutoff, effective);
      if effective == 0 || |cached| >= effective || entry.exhausted {
        return cached, atLock;
      }
      var fetchBefore := if cached != [] then cached[0].openTime else cutoff;
      var missing := Max(effective - |cached|, 0);
      OtherTasksRun();
      var fetched := if fetchFails then [] else Query(table, fetchBefore, missing);
      var exhausted := |fetched| < missing;
      var current := EntryAt(key);
      atLock := kline;
      var merged := MergeRows(current.rows, fetched);
      kline := kline[key := Entry(merged, current.exhausted || exhausted)];
      var finalLimit := if exhausted then Min(limit, CountBelow(merged, cutoff)) else effective;
      rows := SelectRecent(merged, cutoff, finalLimit);
    }
  }

  // ---------------------------------------------------------------- slices of the table

  /** The entry is a run of consecutive table rows, from the very first one once the history counts as exhausted. */
  ghost predicate IsSlice(table: seq<Bar>, e: Entry, lo: nat, hi: nat) {
    lo <= hi <= |table| && e.rows == table[lo..hi]
  }

  ghost predicate CoversCutoff(table: seq<Bar>, e: Entry, cutoff: int, lo: nat, hi: nat) {
    IsSlice(table, e, lo, hi) && lo <= Position(table, cutoff) <= hi
  }

  ghost predicate Honest(e: Entry, lo: nat) { e.exhausted ==> lo == 0 }

  lemma {:induction false} PositionSplits(table: seq<Bar>, cutoff: int)
    requires StrictlySorted(table, OpenTime)
    ensures forall i :: 0 <= i < |table| ==> (table[i].openTime < cutoff <==> i < Position(table, cutoff))
  {
    if table != [] && table[|table| - 1].openTime < cutoff {
      forall i | 0 <= i < |table| ensures table[i].openTime < cutoff {
        if i < |table| - 1 {
          assert OpenTime(table[i]) < OpenTime(table[|table| - 1]);
        }
      }
    } else if table != [] {
      assert StrictlySorted(table[..|table| - 1], OpenTime);
      PositionSplits(table[..|table| - 1], cutoff);
    }
  }

  lemma {:induction false} SelectFromSlice(table: seq<Bar>, cutoff: int, lo: nat, hi: nat, limit: nat)
    requires StrictlySorted(table, OpenTime)
    requires lo <= Position(table, cutoff) <= hi <= |table|
    ensures var p := Position(table, cutoff);
            SelectRecent(table[lo..hi], cutoff, limit) == table[p - Min(limit, p - lo)..p]
    decreases hi, limit
  {
    var p := Position(table, cutoff);
    PositionSplits(table, cutoff);
    var rows := table[lo..hi];
    if limit == 0 || rows == [] {
    } else {
      assert rows[..|rows| - 1] == table[lo..hi - 1];
      if p == hi {
        SelectBelow(table, cutoff, lo, hi, limit);
      } else {
        SelectFromSlice(table, cutoff, lo, hi - 1, limit);
      }
    }
  }

  lemma {:induction false} SelectSuffix(rows: seq<Bar>, cutoff: int, limit: nat)
    requires forall i :: 0 <= i < |rows| ==> rows[i].openTime < cutoff
    ensures SelectRecent(rows, cutoff, limit) == rows[|rows| - Min(limit, |rows|)..]
    decreases |rows|
  {
    if limit == 0 || rows == [] {
    } else {
      var init := rows[..|rows| - 1];
      SelectSuffix(init, cutoff, limit - 1);
      assert init[|init| - Min(limit - 1, |init|)..] + [rows[|rows| - 1]] == rows[|rows| - Min(limit, |rows|)..];
    }
  }

  lemma {:induction false} SelectBelow(table: seq<Bar>, cutoff: int, lo: nat, hi: nat, limit: nat)
    requires lo <= hi <= |table| && forall i :: lo <= i < hi ==> table[i].openTime < cutoff
    ensures SelectRecent(table[lo..hi], cutoff, limit) == table[hi - Min(limit, hi - lo)..hi]
  {
    hide SelectRecent;
    var rows := table[lo..hi];
    SelectSuffix(rows, cutoff, limit);
    assert rows[|rows| - Min(limit, |rows|)..] == table[hi - Min(limit, hi - lo)..hi];
  }

  lemma {:induction false} CountInSlice(table: seq<Bar>, cutoff: int, lo: nat, hi: nat)
    requires StrictlySorted(table, OpenTime)
    requires lo <= Position(table, cutoff) <= hi <= |table|
    ensures CountBelow(table[lo..hi], cutoff) == Position(table, cutoff) - lo
    decreases hi
  {
    PositionSplits(table, cutoff);
    CountBetween(table, cutoff, lo, hi);
  }

  lemma {:induction false} CountBetween(table: seq<Bar>, cutoff: int, lo: nat, hi: nat)
    requires forall i :: 0 <= i < |table| ==> (table[i].openTime < cutoff <==> i < Position(table, cutoff))
    requires lo <= hi <= |table|
    ensures CountBelow(table[lo..hi], cutoff) == Max(Min(Position(table, cutoff), hi) - lo, 0)
    decreases hi
  {
    var rows := table[lo..hi];
    if hi <= lo {
    } else {
      assert rows[..|rows| - 1] == table[lo..hi - 1];
      CountBetween(table, cutoff, lo, hi - 1);
    }
  }

  lemma {:induction false} SameOpenSameBar(table: seq<Bar>, x: Bar, y: Bar)
    requires StrictlySorted(table, OpenTime) && x in table && y in table && x.openTime == y.openTime
    ensures x == y
  {
    var i :| 0 <= i < |table| && table[i] == x;
    var j :| 0 <= j < |table| && table[j] == y;
    assert i < j ==> OpenTime(table[i]) < OpenTime(table[j]);
    assert j < i ==> OpenTime(table[j]) < OpenTime(table[i]);
  }

  /** Of two runs of the table, the second is appended without the bars already there. */
  lemma {:induction false} AppendedRows(table: seq<Bar>, existing: seq<Bar>, fetched: seq<Bar>)
    requires StrictlySorted(table, OpenTime) && DistinctKeys(existing, OpenTime)
    requires forall x :: x in existing || x in fetched ==> x in table
    ensures DistinctKeys(Appended(existing, fetched), OpenTime)
    ensures forall x :: x in Appended(existing, fetched) <==> x in existing || x in fetched
    decreases |fetched|
  {
    if fetched == [] {
    } else {
      var init, last := fetched[..|fetched| - 1], fetched[|fetched| - 1];
      assert fetched == init + [last];
      AppendedRows(table, existing, init);
      var rest := Appended(existing, init);
      if HasOpenTime(rest, last.openTime) {
        var i :| 0 <= i < |rest| && rest[i].openTime == last.openTime;
        SameOpenSameBar(table, rest[i], last);
      } else {
        AppendDistinct(rest, last);
      }
    }
  }

  lemma AppendDistinct(rest: seq<Bar>, last: Bar)
    requires DistinctKeys(rest, OpenTime) && !HasOpenTime(rest, last.openTime)
    ensures DistinctKeys(rest + [last], OpenTime)
  {
    assert forall i :: 0 <= i < |rest| ==> rest[i].openTime != last.openTime;
  }

  predicate OpensBefore(a: Bar, b: Bar) { a.openTime < b.openTime }

  lemma {:induction false} SliceSorted(table: seq<Bar>, lo: nat, hi: nat)
    requires StrictlySorted(table, OpenTime) && lo <= hi <= |table|
    ensures StrictlySorted(table[lo..hi], OpenTime) && Ascending(table[lo..hi], OpensBefore)
    ensures forall x :: x in table[lo..hi] ==> x in table
  {
    var s := table[lo..hi];
    forall i, j | 0 <= i < j < |s| ensures OpenTime(s[i]) < OpenTime(s[j]) && OpensBefore(s[i], s[j]) {
      assert OpenTime(table[lo + i]) < OpenTime(table[lo + j]);
    }
  }

  ghost predicate Between(table: seq<Bar>, lo: nat, hi: nat, x: Bar) {
    exists k :: lo <= k < hi && k < |table| && table[k] == x
  }

  lemma {:induction false} SliceMember(table: seq<Bar>, lo: nat, hi: nat, x: Bar)
    requires lo <= hi <= |table|
    ensures x in table[lo..hi] <==> Between(table, lo, hi, x)
  {
    var slice := table[lo..hi];
    if x in slice {
      var k :| 0 <= k < |slice| && slice[k] == x;
      assert table[lo + k] == x;
    }
    if Between(table, lo, hi, x) {
      var k :| lo <= k < hi && k < |table| && table[k] == x;
      assert slice[k - lo] == x;
    }
  }

  lemma {:induction false} SpanMembers(table: seq<Bar>, lo: nat, hi: nat, from: nat, end: nat, x: Bar)
    requires from <= end <= |table| && lo <= hi <= |table| && from <= hi && lo <= end
    ensures x in table[Min(lo, from)..Max(hi, end)] <==> x in table[lo..hi] || x in table[from..end]
  {
    SliceMember(table, lo, hi, x);
    SliceMember(table, from, end, x);
    SliceMember(table, Min(lo, from), Max(hi, end), x);
  }

  /** A merge is the ascending sequence of the bars of both sides. */
  lemma {:induction false} MergeIs(table: seq<Bar>, existing: seq<Bar>, fetched: seq<Bar>, span: seq<Bar>)
    requires StrictlySorted(table, OpenTime) && DistinctKeys(existing, OpenTime)
    requires forall x :: x in existing || x in fetched ==> x in table
    requires Ascending(span, OpensBefore) && forall x :: x in span <==> x in existing || x in fetched
    ensures Merged(existing, fetched) == span
  {
    var merged := Merged(existing, fetched);
    AppendedRows(table, existing, fetched);
    SortByDistinct(Appended(existing, fetched), OpenTime);
    hide Appended, SortBy, DistinctKeys;
    assert Ascending(merged, OpensBefore) by {
      forall i, j | 0 <= i < j < |merged| ensures OpensBefore(merged[i], merged[j]) {
        assert OpenTime(merged[i]) < OpenTime(merged[j]);
      }
    }
    AscendingUnique(merged, span, OpensBefore);
  }

  /** Merging two touching runs of the table gives the run they span. */
  lemma {:induction false} MergeSlices(table: seq<Bar>, lo: nat, hi: nat, from: nat, end: nat)
    requires StrictlySorted(table, OpenTime)
    requires from <= end <= |table| && lo <= hi <= |table| && from <= hi && lo <= end
    ensures Merged(table[lo..hi], table[from..end]) == table[Min(lo, from)..Max(hi, end)]
  {
    hide Merged;
    SliceSorted(table, lo, hi);
    SliceSorted(table, from, end);
    SliceSorted(table, Min(lo, from), Max(hi, end));
    forall x ensures x in table[Min(lo, from)..Max(hi, end)] <==> x in table[lo..hi] || x in table[from..end] {
      SpanMembers(table, lo, hi, from, end, x);
    }
    MergeIs(table, table[lo..hi], table[from..end], table[Min(lo, from)..Max(hi, end)]);
  }

  /** Merging a run below, with a gap or none, puts it in front. */
  lemma {:induction false} MergeApart(table: seq<Bar>, lo: nat, hi: nat, from: nat, end: nat)
    requires StrictlySorted(table, OpenTime) && from <= end <= lo <= hi <= |table|
    ensures Merged(table[lo..hi], table[from..end]) == table[from..end] + table[lo..hi]
  {
    hide Merged;
    var existing, fetched := table[lo..hi], table[from..end];
    SliceSorted(table, lo, hi);
    SliceSorted(table, from, end);
    var span := fetched + existing;
    forall i, j | 0 <= i < |fetched| && 0 <= j < |existing| ensures OpensBefore(fetched[i], existing[j]) {
      assert OpenTime(table[from + i]) < OpenTime(table[lo + j]);
    }
    MergeIs(table, existing, fetched, span);
  }

  /** Rows in order merged into an empty entry stay as they are. */
  lemma {:induction false} MergeAlone(rows: seq<Bar>)
    requires StrictlySorted(rows, OpenTime)
    ensures Merged([], rows) == rows
  {
    hide Merged;
    assert Ascending(rows, OpensBefore) by {
      forall i, j | 0 <= i < j < |rows| ensures OpensBefore(rows[i], rows[j]) {
        assert OpenTime(rows[i]) < OpenTime(rows[j]);
      }
    }
    MergeIs(rows, [], rows, rows);
  }

  // ---------------------------------------------------------------- the cache refines the query

  lemma {:induction false} QueryIsSlice(table: seq<Bar>, cutoff: int, limit: nat)
    requires Table(table) && Aligned(table, cutoff)
    ensures var p := Position(table, cutoff); Query(table, cutoff, limit) == table[p - Min(limit, p)..p]
  {
    var p := Position(table, cutoff);
    var rows := table[p - Min(limit, p)..p];
    forall i | 0 <= i < |rows| ensures rows[i].isClosed && rows[i].closeTime <= cutoff {
      assert rows[i] == table[p - Min(limit, p) + i];
    }
  }

  lemma {:induction false} OpenTimeIsCutoff(table: seq<Bar>, k: nat)
    requires Table(table) && k < |table|
    ensures Position(table, table[k].openTime) == k && Aligned(table, table[k].openTime)
  {
    var cutoff := table[k].openTime;
    PositionSplits(table, cutoff);
    assert forall i :: 0 <= i < k ==> OpenTime(table[i]) < OpenTime(table[k]);
    assert forall i :: k < i < |table| ==> OpenTime(table[k]) < OpenTime(table[i]);
    assert k < |table| ==> !(table[k].openTime < cutoff);
    assert k > 0 ==> table[k - 1].openTime < cutoff;
  }

  lemma {:induction false} CachedInOrder(table: seq<Bar>, e: Entry, cutoff: int, limit: nat, lo: nat, hi: nat)
    requires StrictlySorted(table, OpenTime) && CoversCutoff(table, e, cutoff, lo, hi)
    ensures var p := Position(table, cutoff);
            && Cached(e, cutoff, limit) == table[p - Min(limit, p - lo)..p]
            && EffectiveLimit(e, cutoff, limit) == (if e.exhausted then Min(limit, p - lo) else limit)
  {
    SelectFromSlice(table, cutoff, lo, hi, EffectiveLimit(e, cutoff, limit));
    CountInSlice(table, cutoff, lo, hi);
  }

  lemma {:induction false} CachedIsSlice(table: seq<Bar>, e: Entry, cutoff: int, limit: nat, lo: nat, hi: nat)
    requires Table(table) && CoversCutoff(table, e, cutoff, lo, hi)
    ensures var p := Position(table, cutoff);
            && Cached(e, cutoff, limit) == table[p - Min(limit, p - lo)..p]
            && EffectiveLimit(e, cutoff, limit) == (if e.exhausted then Min(limit, p - lo) else limit)
  {
    CachedInOrder(table, e, cutoff, limit, lo, hi);
  }

  /** An answer from the cache alone is the direct query's. */
  lemma {:induction false} HitRefinesQuery(table: seq<Bar>, e: Entry, cutoff: int, limit: nat, lo: nat, hi: nat)
    requires Table(table) && Aligned(table, cutoff)
    requires CoversCutoff(table, e, cutoff, lo, hi) && Honest(e, lo) && Served(e, cutoff, limit)
    ensures Cached(e, cutoff, limit) == Query(table, cutoff, limit)
  {
    CachedIsSlice(table, e, cutoff, limit, lo, hi);
    QueryIsSlice(table, cutoff, limit);
  }

  /** What a miss fetches is the run just below the cached slice. */
  lemma {:induction false} FetchedIsBelow(table: seq<Bar>, e: Entry, cutoff: int, limit: nat, lo: nat, hi: nat)
    requires Table(table) && Aligned(table, cutoff)
    requires CoversCutoff(table, e, cutoff, lo, hi) && !Served(e, cutoff, limit)
    ensures var missing := Missing(e, cutoff, limit);
            && missing == limit - (Position(table, cutoff) - lo) > 0
            && Query(table, FetchBefore(e, cutoff, limit), missing) == table[lo - Min(missing, lo)..lo]
  {
    var p, missing := Position(table, cutoff), Missing(e, cutoff, limit);
    hide Query, SelectRecent, Table, CountBelow, Position;
    CachedIsSlice(table, e, cutoff, limit, lo, hi);
    if lo < p {
      OpenTimeIsCutoff(table, lo);
    }
    QueryIsSlice(table, FetchBefore(e, cutoff, limit), missing);
  }

  /**
   An answer after a fetch is the direct query's, and the entry is again a slice that covers the cutoff, provided
   that what was cached before the fetch is still there when its result is stored.
   */
  lemma {:induction false} MissRefinesQuery(
    table: seq<Bar>, e: Entry, between: Entry, cutoff: int, limit: nat, lo: nat, hi: nat, lo': nat, hi': nat)
    returns (from: nat)
    requires Table(table) && Aligned(table, cutoff)
    requires CoversCutoff(table, e, cutoff, lo, hi) && !Served(e, cutoff, limit)
    requires CoversCutoff(table, between, cutoff, lo', hi') && Honest(between, lo') && lo' <= lo
    ensures var missing := Missing(e, cutoff, limit);
            var fetched := Query(table, FetchBefore(e, cutoff, limit), missing);
            && Answer(e, between, fetched, cutoff, limit) == Query(table, cutoff, limit)
            && from <= lo' && CoversCutoff(table, Stored(between, fetched, missing), cutoff, from, hi')
            && Honest(Stored(between, fetched, missing), from)
  {
    hide Merged, Query, SelectRecent, CountBelow, Position, Table, Aligned;
    var missing := Missing(e, cutoff, limit);
    var low := lo - Min(missing, lo);
    from := Min(lo', low);
    FetchedIsBelow(table, e, cutoff, limit, lo, hi);
    CachedIsSlice(table, e, cutoff, limit, lo, hi);
    TableSorted(table);
    MergeSlices(table, lo', hi', low, lo);
    QueryIsSlice(table, cutoff, limit);
    AnswerFromSlice(table, cutoff, limit, lo, from, hi');
  }

  lemma TableSorted(table: seq<Bar>)
    requires Table(table)
    ensures StrictlySorted(table, OpenTime)
  {
  }

  lemma {:induction false} AnswerFromSlice(table: seq<Bar>, cutoff: int, limit: nat, lo: nat, from: nat, hi: nat)
    requires StrictlySorted(table, OpenTime)
    requires lo <= Position(table, cutoff) <= hi <= |table| && Position(table, cutoff) - lo < limit
    requires var missing := limit - (Position(table, cutoff) - lo); from <= lo - Min(missing, lo)
    ensures var p, rows := Position(table, cutoff), table[from..hi];
            var missing := limit - (p - lo);
            SelectRecent(rows, cutoff, if lo < missing then Min(limit, CountBelow(rows, cutoff)) else limit)
              == table[p - Min(limit, p)..p]
  {
    var p := Position(table, cutoff);
    hide SelectRecent, CountBelow, Position, StrictlySorted;
    CountInSlice(table, cutoff, from, hi);
    SelectFromSlice(table, cutoff, from, hi, if lo < limit - (p - lo) then Min(limit, p - from) else limit);
  }

  // ---------------------------------------------------------------- many requests, many markets

  datatype Span = Span(lo: nat, hi: nat)

  /** Every listed entry is an honest slice of its own market's table. */
  ghost predicate SlicesHeld(
    kline: map<CacheKey, Entry>, tables: map<CacheKey, seq<Bar>>, spans: map<CacheKey, Span>)
  {
    forall key :: key in spans ==>
      && key in tables && Table(tables[key])
      && IsSlice(tables[key], EntryIn(kline, key), spans[key].lo, spans[key].hi)
      && Honest(EntryIn(kline, key), spans[key].lo)
  }

  /** The request's cutoff lies in or at the edge of its entry's slice, and not inside a bar. */
  ghost predicate InSpan(tables: map<CacheKey, seq<Bar>>, spans: map<CacheKey, Span>, r: Request) {
    && r.key in spans && r.key in tables && Aligned(tables[r.key], r.cutoff)
    && spans[r.key].lo <= Position(tables[r.key], r.cutoff) <= spans[r.key].hi
  }

  /** A request is answered as the direct query would, and every entry, its own included, stays an honest slice. */
  lemma {:induction false} RequestKeepsSlices(
    kline: map<CacheKey, Entry>, tables: map<CacheKey, seq<Bar>>, spans: map<CacheKey, Span>, r: Request)
    returns (from: nat)
    requires SlicesHeld(kline, tables, spans) && InSpan(tables, spans, r)
    ensures Answered(kline, tables[r.key], r) == Query(tables[r.key], r.cutoff, r.limit)
    ensures from <= spans[r.key].lo
    ensures SlicesHeld(Requested(kline, tables[r.key], r), tables, spans[r.key := Span(from, spans[r.key].hi)])
  {
    hide Merged, Query, SelectRecent, CountBelow, Position, Table, Aligned;
    hide Served, Missing, FetchBefore, Answer, Cached;
    var e, span := EntryIn(kline, r.key), spans[r.key];
    if Served(e, r.cutoff, r.limit) {
      from := span.lo;
      HitRefinesQuery(tables[r.key], e, r.cutoff, r.limit, span.lo, span.hi);
    } else {
      from := MissRefinesQuery(tables[r.key], e, e, r.cutoff, r.limit, span.lo, span.hi, span.lo, span.hi);
    }
  }

  /** The answers to undisturbed requests, one after the other. */
  ghost function Answers(kline: map<CacheKey, Entry>, tables: map<CacheKey, seq<Bar>>, rs: seq<Request>): seq<seq<Bar>>
    requires forall k :: 0 <= k < |rs| ==> rs[k].key in tables
    decreases |rs|
  {
    if rs == [] then []
    else
      var table := tables[rs[0].key];
      [Answered(kline, table, rs[0])] + Answers(Requested(kline, table, rs[0]), tables, rs[1..])
  }

  /**
   Requests of any markets and intervals, in any order and number, are each answered as the direct query of their own
   table would: what one of them stores never reaches another's answer.
   */
  lemma {:induction false} RequestsRefineQueries(
    kline: map<CacheKey, Entry>, tables: map<CacheKey, seq<Bar>>, spans: map<CacheKey, Span>, rs: seq<Request>)
    requires SlicesHeld(kline, tables, spans) && forall k :: 0 <= k < |rs| ==> InSpan(tables, spans, rs[k])
    requires forall k :: 0 <= k < |rs| ==> rs[k].key in tables
    ensures var answers := Answers(kline, tables, rs);
            && |answers| == |rs|
            && forall k :: 0 <= k < |rs| ==> answers[k] == Query(tables[rs[k].key], rs[k].cutoff, rs[k].limit)
    decreases |rs|
  {
    hide Answered, Requested, Query, Position, Aligned, SlicesHeld;
    if rs == [] {
    } else {
      var r := rs[0];
      var from := RequestKeepsSlices(kline, tables, spans, r);
      var wider := spans[r.key := Span(from, spans[r.key].hi)];
      forall k | 0 <= k < |rs[1..]| ensures InSpan(tables, wider, rs[1..][k]) {
        assert InSpan(tables, spans, rs[k + 1]);
      }
      RequestsRefineQueries(Requested(kline, tables[r.key], r), tables, wider, rs[1..]);
    }
  }

  // ---------------------------------------------------------------- where it does not

  /**
   Once a slice counts as exhausted, a request is answered right exactly when the slice is long enough or
   complete.
   */
  lemma {:induction false} ExhaustedAnswersExactly(table: seq<Bar>, e: Entry, cutoff: int, limit: nat, lo: nat, hi: nat)
    requires Table(table) && Aligned(table, cutoff) && CoversCutoff(table, e, cutoff, lo, hi) && e.exhausted
    ensures Served(e, cutoff, limit)
    ensures Cached(e, cutoff, limit) == Query(table, cutoff, limit) <==>
            limit <= Position(table, cutoff) - lo || lo == 0
  {
    hide Query, SelectRecent, Table, Aligned, CountBelow, Position;
    var p := Position(table, cutoff);
    CachedIsSlice(table, e, cutoff, limit, lo, hi);
    QueryIsSlice(table, cutoff, limit);
    assert |table[p - Min(limit, p - lo)..p]| == Min(limit, p - lo);
    assert |table[p - Min(limit, p)..p]| == Min(limit, p);
  }

  /** A failed fetch leaves the slice as it was and marks it exhausted, wherever it starts. */
  lemma {:induction false} FailedFetchExhausts(table: seq<Bar>, e: Entry, cutoff: int, limit: nat, lo: nat, hi: nat)
    requires Table(table) && Aligned(table, cutoff) && CoversCutoff(table, e, cutoff, lo, hi)
    requires !Served(e, cutoff, limit)
    ensures var after := Stored(e, [], Missing(e, cutoff, limit));
            after.exhausted && CoversCutoff(table, after, cutoff, lo, hi)
  {
    FetchedIsBelow(table, e, cutoff, limit, lo, hi);
    MergeSlices(table, lo, hi, lo, lo);
    assert table[lo..lo] == [];
  }

  /** The newest bar below the cutoff belongs to the answer of the query. */
  lemma {:induction false} QueryHolds(table: seq<Bar>, cutoff: int, limit: nat, k: nat)
    requires Table(table) && Aligned(table, cutoff) && limit >= 1
    requires k < Position(table, cutoff) <= k + limit
    ensures table[k] in Query(table, cutoff, limit)
  {
    hide Query, Aligned, Position;
    var p := Position(table, cutoff);
    QueryIsSlice(table, cutoff, limit);
    assert table[p - Min(limit, p)..p][k - (p - Min(limit, p))] == table[k];
  }

  lemma {:induction false} NotInRun(table: seq<Bar>, lo: nat, hi: nat, k: nat)
    requires StrictlySorted(table, OpenTime) && lo <= hi <= |table| && k < |table| && !(lo <= k < hi)
    ensures table[k] !in table[lo..hi]
  {
    forall i | 0 <= i < |table[lo..hi]| ensures table[lo..hi][i] != table[k] {
      assert lo + i < k ==> OpenTime(table[lo + i]) < OpenTime(table[k]);
      assert k < lo + i ==> OpenTime(table[k]) < OpenTime(table[lo + i]);
    }
  }

  lemma {:induction false} SelectedAreThere(rows: seq<Bar>, cutoff: int, limit: nat)
    ensures forall x :: x in SelectRecent(rows, cutoff, limit) ==> x in rows
    decreases |rows|
  {
    if limit == 0 || rows == [] {
    } else {
      var init, last := rows[..|rows| - 1], rows[|rows| - 1];
      SelectedAreThere(init, cutoff, limit - 1);
      SelectedAreThere(init, cutoff, limit);
      assert last in rows;
    }
  }

  lemma {:induction false} AnswersFromRows(
    e: Entry, between: Entry, fetched: seq<Bar>, cutoff: int, limit: nat, x: Bar)
    requires x !in Merged(between.rows, fetched)
    ensures x !in Answer(e, between, fetched, cutoff, limit)
  {
    hide Merged, SelectRecent, CountBelow;
    var rows := Merged(between.rows, fetched);
    SelectedAreThere(rows, cutoff,
      if |fetched| < Missing(e, cutoff, limit) then Min(limit, CountBelow(rows, cutoff))
      else EffectiveLimit(e, cutoff, limit));
  }

  /**
   Other tasks may have stored or cleared while the database was read.  Whatever honest slice the entry has become, the
   answer is right exactly when it reaches down to where the cached one started; otherwise the store leaves a gap.
   */
  lemma {:induction false} ChangedDuringFetchExactly(
    table: seq<Bar>, e: Entry, between: Entry, cutoff: int, limit: nat, lo: nat, hi: nat, lo': nat, hi': nat)
    requires Table(table) && Aligned(table, cutoff)
    requires CoversCutoff(table, e, cutoff, lo, hi) && !Served(e, cutoff, limit)
    requires CoversCutoff(table, between, cutoff, lo', hi') && Honest(between, lo')
    ensures var missing := Missing(e, cutoff, limit);
            var fetched := Query(table, FetchBefore(e, cutoff, limit), missing);
            && (Answer(e, between, fetched, cutoff, limit) == Query(table, cutoff, limit) <==> lo' <= lo)
            && (lo < lo' ==>
                  Stored(between, fetched, missing).rows == table[lo - Min(missing, lo)..lo] + table[lo'..hi'])
  {
    hide Merged, Query, SelectRecent, CountBelow, Position, Aligned;
    if lo' <= lo {
      var _ := MissRefinesQuery(table, e, between, cutoff, limit, lo, hi, lo', hi');
    } else {
      var missing := Missing(e, cutoff, limit);
      var fetched := Query(table, FetchBefore(e, cutoff, limit), missing);
      var low := lo - Min(missing, lo);
      FetchedIsBelow(table, e, cutoff, limit, lo, hi);
      TableSorted(table);
      MergeApart(table, lo', hi', low, lo);
      NotInRun(table, low, lo, lo);
      NotInRun(table, lo', hi', lo);
      AnswersFromRows(e, between, fetched, cutoff, limit, table[lo]);
      QueryHolds(table, cutoff, limit, lo);
    }
  }

  /**
   If the cache is cleared during the fetch, the answer is right exactly when nothing had been cached below the
   cutoff.
   */
  lemma {:induction false} ClearedDuringFetchExactly(
    table: seq<Bar>, e: Entry, cutoff: int, limit: nat, lo: nat, hi: nat)
    requires Table(table) && Aligned(table, cutoff)
    requires CoversCutoff(table, e, cutoff, lo, hi) && !Served(e, cutoff, limit)
    ensures var fetched := Query(table, FetchBefore(e, cutoff, limit), Missing(e, cutoff, limit));
            Answer(e, NO_ENTRY, fetched, cutoff, limit) == Query(table, cutoff, limit) <==>
              lo == Position(table, cutoff)
  {
    hide Answer, Query, Position, Aligned, Table, Served;
    var p := Position(table, cutoff);
    assert table[p..p] == [];
    ChangedDuringFetchExactly(table, e, NO_ENTRY, cutoff, limit, lo, hi, p, p);
  }

  // ---------------------------------------------------------------- cutoffs outside the slice

  /**
   A cutoff past the slice: the cache goes on answering by itself, and right exactly when the slice still
   reaches it.
   */
  lemma {:induction false} HitPastSliceExactly(table: seq<Bar>, e: Entry, cutoff: int, limit: nat, lo: nat, hi: nat)
    requires Table(table) && Aligned(table, cutoff) && limit >= 1
    requires IsSlice(table, e, lo, hi) && Honest(e, lo) && Served(e, cutoff, limit) && lo <= Position(table, cutoff)
    ensures Cached(e, cutoff, limit) == Query(table, cutoff, limit) <==> Position(table, cutoff) <= hi
  {
    hide Query, SelectRecent, CountBelow, Position, Aligned;
    var p := Position(table, cutoff);
    if p <= hi {
      HitRefinesQuery(table, e, cutoff, limit, lo, hi);
    } else {
      TableSorted(table);
      NotInRun(table, lo, hi, p - 1);
      SelectedAreThere(e.rows, cutoff, EffectiveLimit(e, cutoff, limit));
      QueryHolds(table, cutoff, limit, p - 1);
    }
  }

  /** A fetch extends the slice downwards only, so it does not help a cutoff past the slice. */
  lemma {:induction false} MissPastSliceExactly(table: seq<Bar>, e: Entry, cutoff: int, limit: nat, lo: nat, hi: nat)
    requires Table(table) && Aligned(table, cutoff) && limit >= 1
    requires IsSlice(table, e, lo, hi) && Honest(e, lo) && !Served(e, cutoff, limit) && lo < hi
             && lo <= Position(table, cutoff)
    ensures var fetched := Query(table, FetchBefore(e, cutoff, limit), Missing(e, cutoff, limit));
            Answer(e, e, fetched, cutoff, limit) == Query(table, cutoff, limit) <==> Position(table, cutoff) <= hi
  {
    hide Merged, Query, SelectRecent, CountBelow, Position, Aligned;
    var p := Position(table, cutoff);
    if p <= hi {
      var _ := MissRefinesQuery(table, e, e, cutoff, limit, lo, hi, lo, hi);
    } else {
      var missing := Missing(e, cutoff, limit);
      var low := lo - Min(missing, lo);
      TableSorted(table);
      FetchedPastSlice(table, e, cutoff, limit, lo, hi);
      MergeSlices(table, lo, hi, low, lo);
      NotInRun(table, low, hi, p - 1);
      AnswersFromRows(e, e, table[low..lo], cutoff, limit, table[p - 1]);
      QueryHolds(table, cutoff, limit, p - 1);
    }
  }

  lemma {:induction false} FetchedPastSlice(table: seq<Bar>, e: Entry, cutoff: int, limit: nat, lo: nat, hi: nat)
    requires Table(table) && IsSlice(table, e, lo, hi) && !Served(e, cutoff, limit)
    requires lo < hi < Position(table, cutoff)
    ensures var missing := Missing(e, cutoff, limit);
            Query(table, FetchBefore(e, cutoff, limit), missing) == table[lo - Min(missing, lo)..lo]
  {
    PositionSplits(table, cutoff);
    SelectBelow(table, cutoff, lo, hi, limit);
    hide Query, SelectRecent, CountBelow, Position, Aligned, Table;
    OpenTimeIsCutoff(table, lo);
    QueryIsSlice(table, table[lo].openTime, Missing(e, cutoff, limit));
  }

  lemma {:induction false} SplitAround(table: seq<Bar>, cutoff: int, low: nat, lo: nat, hi: nat)
    requires StrictlySorted(table, OpenTime) && low <= Position(table, cutoff) <= lo <= hi <= |table|
    ensures var below := table[low..Position(table, cutoff)];
            forall i :: 0 <= i < |below| ==> below[i].openTime < cutoff
    ensures forall i :: 0 <= i < |table[lo..hi]| ==> cutoff <= table[lo..hi][i].openTime
  {
    PositionSplits(table, cutoff);
  }

  lemma {:induction false} NothingCachedBelow(
    table: seq<Bar>, e: Entry, cutoff: int, limit: nat, lo: nat, hi: nat)
    requires StrictlySorted(table, OpenTime) && limit >= 1
    requires IsSlice(table, e, lo, hi) && Honest(e, lo) && Position(table, cutoff) < lo
    ensures !Served(e, cutoff, limit) && Missing(e, cutoff, limit) == limit == EffectiveLimit(e, cutoff, limit)
    ensures FetchBefore(e, cutoff, limit) == cutoff
  {
    SplitAround(table, cutoff, Position(table, cutoff), lo, hi);
    SelectSkips([], table[lo..hi], cutoff, limit);
    assert [] + table[lo..hi] == table[lo..hi];
    assert SelectRecent([], cutoff, limit) == [];
    hide SelectRecent, Position, StrictlySorted;
  }

  /** A cutoff below the slice is answered right, but the store leaves an entry that is no honest slice of the table. */
  lemma {:induction false} CutoffBelowSlice(table: seq<Bar>, e: Entry, cutoff: int, limit: nat, lo: nat, hi: nat)
    requires Table(table) && Aligned(table, cutoff) && limit >= 1
    requires IsSlice(table, e, lo, hi) && Honest(e, lo) && Position(table, cutoff) < lo < hi
    ensures var p := Position(table, cutoff);
            var missing := Missing(e, cutoff, limit);
            var fetched := Query(table, FetchBefore(e, cutoff, limit), missing);
            var after := Stored(e, fetched, missing);
            && !Served(e, cutoff, limit)
            && Answer(e, e, fetched, cutoff, limit) == Query(table, cutoff, limit)
            && after.rows == table[p - Min(limit, p)..p] + table[lo..hi]
            && forall a, b :: !(IsSlice(table, after, a, b) && Honest(after, a))
  {
    hide Merged, Query, SelectRecent, CountBelow, Position, Aligned, Served, Missing, FetchBefore;
    var p := Position(table, cutoff);
    var low := p - Min(limit, p);
    TableSorted(table);
    NothingCachedBelow(table, e, cutoff, limit, lo, hi);
    SplitAround(table, cutoff, low, lo, hi);
    GapSelect(table[low..p], table[lo..hi], cutoff, limit);
    QueryIsSlice(table, cutoff, limit);
    MergeApart(table, lo, hi, low, p);
    var after := Stored(e, table[low..p], limit);
    forall a: nat, b: nat ensures !(IsSlice(table, after, a, b) && Honest(after, a)) {
      GapIsNoSlice(table, after, low, p, lo, hi, a, b);
    }
  }

  lemma {:induction false} SelectSkips(below: seq<Bar>, above: seq<Bar>, cutoff: int, limit: nat)
    requires forall i :: 0 <= i < |above| ==> cutoff <= above[i].openTime
    ensures SelectRecent(below + above, cutoff, limit) == SelectRecent(below, cutoff, limit)
    ensures CountBelow(below + above, cutoff) == CountBelow(below, cutoff)
    decreases |above|
  {
    if above == [] {
      assert below + above == below;
    } else {
      var all := below + above;
      assert all[..|all| - 1] == below + above[..|above| - 1];
      SelectSkips(below, above[..|above| - 1], cutoff, limit);
    }
  }

  lemma {:induction false} CountAll(rows: seq<Bar>, cutoff: int)
    requires forall i :: 0 <= i < |rows| ==> rows[i].openTime < cutoff
    ensures CountBelow(rows, cutoff) == |rows|
  {
    if rows == [] {
    } else {
      CountAll(rows[..|rows| - 1], cutoff);
    }
  }

  lemma {:induction false} GapSelect(below: seq<Bar>, above: seq<Bar>, cutoff: int, limit: nat)
    requires forall i :: 0 <= i < |below| ==> below[i].openTime < cutoff
    requires forall i :: 0 <= i < |above| ==> cutoff <= above[i].openTime
    requires |below| <= limit
    ensures var rows := below + above;
            SelectRecent(rows, cutoff, if |below| < limit then Min(limit, CountBelow(rows, cutoff)) else limit) == below
  {
    CountAll(below, cutoff);
    SelectSkips(below, above, cutoff, |below|);
    SelectSkips(below, above, cutoff, limit);
    SelectSuffix(below, cutoff, |below|);
    SelectSuffix(below, cutoff, limit);
  }

  lemma {:induction false} DistinctBars(table: seq<Bar>, i: nat, j: nat)
    requires StrictlySorted(table, OpenTime) && i < |table| && j < |table|
    ensures table[i] == table[j] ==> i == j
  {
    assert i < j ==> OpenTime(table[i]) < OpenTime(table[j]);
    assert j < i ==> OpenTime(table[j]) < OpenTime(table[i]);
  }

  lemma {:induction false} GapIsNoSlice(
    table: seq<Bar>, after: Entry, low: nat, p: nat, lo: nat, hi: nat, a: nat, b: nat)
    requires StrictlySorted(table, OpenTime) && low <= p < lo < hi <= |table|
    requires after.rows == table[low..p] + table[lo..hi] && (low < p || after.exhausted)
    ensures !(IsSlice(table, after, a, b) && Honest(after, a))
  {
    var rows := after.rows;
    assert rows[p - low] == table[lo];
    assert low < p ==> rows[0] == table[low];
    if IsSlice(table, after, a, b) {
      assert rows[0] == table[a] && rows[p - low] == table[a + (p - low)];
      DistinctBars(table, low, a);
      DistinctBars(table, lo, a + (p - low));
    }
  }

  // ---------------------------------------------------------------- the closed flag

  /** The query gives the table's own rows exactly when its newest bar had ended by the cutoff. */
  lemma {:induction false} QueryFlagsExactly(table: seq<Bar>, cutoff: int, limit: nat)
    requires Table(table) && limit >= 1
    ensures var p := Position(table, cutoff);
            Query(table, cutoff, limit) == table[p - Min(limit, p)..p] <==> p == 0 || table[p - 1].closeTime <= cutoff
  {
    var p := Position(table, cutoff);
    QueryIsStamped(table, cutoff, limit);
    hide Query, Stamped, Position, Aligned, Table;
    if p == 0 || table[p - 1].closeTime <= cutoff {
      NewestEnded(table, cutoff);
      QueryIsSlice(table, cutoff, limit);
    } else {
      NewestReopens(table, cutoff, p - Min(limit, p), p);
    }
  }

  lemma QueryIsStamped(table: seq<Bar>, cutoff: int, limit: nat)
    ensures var p := Position(table, cutoff);
            Query(table, cutoff, limit) == Stamped(table[p - Min(limit, p)..p], cutoff)
  {
  }

  lemma {:induction false} NewestReopens(table: seq<Bar>, cutoff: int, from: nat, p: nat)
    requires Table(table) && from < p <= |table| && cutoff < table[p - 1].closeTime
    ensures Stamped(table[from..p], cutoff) != table[from..p]
  {
    var rows := table[from..p];
    assert rows[|rows| - 1] == table[p - 1];
    assert Stamped(rows, cutoff)[|rows| - 1].isClosed != rows[|rows| - 1].isClosed;
  }

  lemma {:induction false} NewestEnded(table: seq<Bar>, cutoff: int)
    requires Table(table)
    ensures Aligned(table, cutoff) <==>
            Position(table, cutoff) == 0 || table[Position(table, cutoff) - 1].closeTime <= cutoff
  {
    var p := Position(table, cutoff);
    PositionSplits(table, cutoff);
    if p > 0 {
      var newest := table[p - 1];
      assert forall i :: 0 <= i < p - 1 ==> table[i].closeTime <= newest.openTime;
    }
  }

  /** The same bars, whatever their closed flags. */
  ghost predicate SameBars(rows: seq<Bar>, bars: seq<Bar>) {
    |rows| == |bars| && forall k :: 0 <= k < |rows| ==> rows[k] == bars[k].(isClosed := rows[k].isClosed)
  }

  /** A run of the table whose rows carry whatever closed flags their fetches gave them. */
  ghost predicate FlaggedSlice(table: seq<Bar>, e: Entry, lo: nat, hi: nat) {
    lo <= hi <= |table| && SameBars(e.rows, table[lo..hi])
  }

  /** Every row carries the flag that a fetch at the cutoff would give it. */
  ghost predicate FlagsFit(rows: seq<Bar>, cutoff: int) {
    forall k :: 0 <= k < |rows| ==> (rows[k].isClosed <==> rows[k].closeTime <= cutoff)
  }

  lemma {:induction false} RunWithin(rows: seq<Bar>, lo: nat, hi: nat, from: nat, end: nat)
    requires lo <= from <= end <= hi <= |rows|
    ensures rows[lo..hi][from - lo..end - lo] == rows[from..end]
  {
    var run, within := rows[lo..hi], rows[from..end];
    forall k | 0 <= k < |within| ensures run[from - lo..end - lo][k] == within[k] {
      assert run[from - lo + k] == rows[from + k];
    }
  }

  lemma {:induction false} SameBarsWithin(rows: seq<Bar>, bars: seq<Bar>, from: nat, end: nat)
    requires SameBars(rows, bars) && from <= end <= |rows|
    ensures SameBars(rows[from..end], bars[from..end])
  {
  }

  lemma {:induction false} SameBarsJoined(rows: seq<Bar>, rest: seq<Bar>, bars: seq<Bar>, others: seq<Bar>)
    requires SameBars(rows, bars) && SameBars(rest, others)
    ensures SameBars(rows + rest, bars + others)
  {
  }

  lemma {:induction false} FlagsDecide(rows: seq<Bar>, bars: seq<Bar>, cutoff: int)
    requires SameBars(rows, bars)
    ensures rows == Stamped(bars, cutoff) <==> FlagsFit(rows, cutoff)
  {
    var asked := Stamped(bars, cutoff);
    forall k | 0 <= k < |rows| ensures rows[k] == asked[k] <==> (rows[k].isClosed <==> rows[k].closeTime <= cutoff) {
      assert asked[k] == bars[k].(isClosed := bars[k].closeTime <= cutoff);
    }
  }

  lemma {:induction false} SamePosition(table: seq<Bar>, flagged: seq<Bar>, cutoff: int)
    requires SameBars(flagged, table)
    ensures Position(flagged, cutoff) == Position(table, cutoff)
    decreases |table|
  {
    if table == [] {
    } else {
      SamePosition(table[..|table| - 1], flagged[..|flagged| - 1], cutoff);
    }
  }

  /** The table with the flags that the entry's rows carry: the entry is a slice of it. */
  lemma {:induction false} FlaggedTable(table: seq<Bar>, e: Entry, cutoff: int, lo: nat, hi: nat)
    returns (flagged: seq<Bar>)
    requires StrictlySorted(table, OpenTime) && FlaggedSlice(table, e, lo, hi)
    ensures |flagged| == |table| && SameBars(flagged, table) && StrictlySorted(flagged, OpenTime)
    ensures flagged[lo..hi] == e.rows && Position(flagged, cutoff) == Position(table, cutoff)
  {
    flagged := table[..lo] + e.rows + table[hi..];
    forall i | 0 <= i < |table| ensures flagged[i] == table[i].(isClosed := flagged[i].isClosed) {
      assert lo <= i < hi ==> flagged[i] == e.rows[i - lo] && table[lo..hi][i - lo] == table[i];
    }
    assert forall i :: 0 <= i < |table| ==> OpenTime(flagged[i]) == OpenTime(table[i]);
    forall i, j | 0 <= i < j < |flagged| ensures OpenTime(flagged[i]) < OpenTime(flagged[j]) {
      assert OpenTime(table[i]) < OpenTime(table[j]);
    }
    assert flagged[lo..hi] == e.rows;
    SamePosition(table, flagged, cutoff);
  }

  lemma {:induction false} CachedWithin(table: seq<Bar>, e: Entry, cutoff: int, limit: nat, lo: nat, hi: nat)
    requires StrictlySorted(table, OpenTime) && IsSlice(table, e, lo, hi)
    requires lo <= Position(table, cutoff) <= hi
    ensures var p := Position(table, cutoff);
            var k := Min(limit, p - lo);
            && EffectiveLimit(e, cutoff, limit) == (if e.exhausted then k else limit)
            && Cached(e, cutoff, limit) == table[p - k..p] && table[p - k..p] == e.rows[p - lo - k..p - lo]
            && |Cached(e, cutoff, limit)| == k
  {
    var p := Position(table, cutoff);
    var k := Min(limit, p - lo);
    hide Cached, Position, StrictlySorted, EffectiveLimit;
    CachedInOrder(table, e, cutoff, limit, lo, hi);
    RunWithin(table, lo, hi, p - k, p);
  }

  /** What a flagged slice serves: the last rows below the cutoff, with their flags. */
  lemma {:induction false} CachedFlagged(table: seq<Bar>, e: Entry, cutoff: int, limit: nat, lo: nat, hi: nat)
    requires StrictlySorted(table, OpenTime) && FlaggedSlice(table, e, lo, hi)
    requires lo <= Position(table, cutoff) <= hi
    ensures var p := Position(table, cutoff);
            var k := Min(limit, p - lo);
            && EffectiveLimit(e, cutoff, limit) == (if e.exhausted then k else limit)
            && Cached(e, cutoff, limit) == e.rows[p - lo - k..p - lo]
            && SameBars(Cached(e, cutoff, limit), table[p - k..p]) && |Cached(e, cutoff, limit)| == k
  {
    var p := Position(table, cutoff);
    var k := Min(limit, p - lo);
    hide Cached, Position, StrictlySorted, SameBars, EffectiveLimit;
    assert hi <= |table|;
    hide FlaggedSlice;
    var flagged := FlaggedTable(table, e, cutoff, lo, hi);
    CachedWithin(flagged, e, cutoff, limit, lo, hi);
    SameBarsWithin(flagged, table, p - k, p);
  }

  /** An answer from the cache alone reaches down as far as the query's. */
  lemma {:induction false} ServedReaches(table: seq<Bar>, e: Entry, cutoff: int, limit: nat, lo: nat, hi: nat)
    requires StrictlySorted(table, OpenTime) && FlaggedSlice(table, e, lo, hi) && Honest(e, lo)
    requires lo <= Position(table, cutoff) <= hi && Served(e, cutoff, limit)
    ensures var p := Position(table, cutoff);
            lo <= p - Min(limit, p) && SameBars(Cached(e, cutoff, limit), table[p - Min(limit, p)..p])
  {
    var p := Position(table, cutoff);
    var k := Min(limit, p - lo);
    hide Cached, Position, StrictlySorted, EffectiveLimit, FlaggedSlice, SameBars;
    CachedFlagged(table, e, cutoff, limit, lo, hi);
    assert k == Min(limit, p);
  }

  /**
   For any entry whose rows carry flags from earlier fetches and any cutoff within it, whether or not its bars have
   ended: an answer from the cache is right if and only if every served row carries the flag the query would give it.
   */
  lemma {:induction false} HitFlagsExactly(table: seq<Bar>, e: Entry, cutoff: int, limit: nat, lo: nat, hi: nat)
    requires Table(table) && FlaggedSlice(table, e, lo, hi) && Honest(e, lo)
    requires lo <= Position(table, cutoff) <= hi && Served(e, cutoff, limit)
    ensures Cached(e, cutoff, limit) == Query(table, cutoff, limit) <==> FlagsFit(Cached(e, cutoff, limit), cutoff)
  {
    var p := Position(table, cutoff);
    TableSorted(table);
    hide Table, Cached, Served, Position, StrictlySorted, FlaggedSlice, SameBars, FlagsFit, Stamped;
    ServedReaches(table, e, cutoff, limit, lo, hi);
    FlagsDecide(Cached(e, cutoff, limit), table[p - Min(limit, p)..p], cutoff);
  }

  /** A bar that ends by the opening of a later one has ended by every cutoff past that opening. */
  lemma {:induction false} EndedBefore(table: seq<Bar>, cutoff: int, low: nat, lo: nat)
    requires Table(table) && low <= lo < |table| && table[lo].openTime < cutoff
    ensures var bars := table[low..lo]; FlagsFit(Stamped(bars, table[lo].openTime), cutoff)
  {
    var bars := table[low..lo];
    forall k | 0 <= k < |bars| ensures bars[k].closeTime <= table[lo].openTime {
      assert bars[k] == table[low + k];
    }
  }

  lemma {:induction false} StampedFits(bars: seq<Bar>, cutoff: int)
    ensures SameBars(Stamped(bars, cutoff), bars) && FlagsFit(Stamped(bars, cutoff), cutoff)
  {
  }

  /** A miss serves all that is cached below the cutoff and asks for what lies before it. */
  lemma {:induction false} MissingFlagged(table: seq<Bar>, e: Entry, cutoff: int, limit: nat, lo: nat, hi: nat)
    requires StrictlySorted(table, OpenTime) && FlaggedSlice(table, e, lo, hi)
    requires lo <= Position(table, cutoff) <= hi && !Served(e, cutoff, limit)
    ensures var p := Position(table, cutoff);
            && Missing(e, cutoff, limit) == limit - (p - lo) > 0
            && Cached(e, cutoff, limit) == e.rows[..p - lo]
            && FetchBefore(e, cutoff, limit) == (if lo < p then table[lo].openTime else cutoff)
  {
    var p := Position(table, cutoff);
    CachedFlagged(table, e, cutoff, limit, lo, hi);
    assert |e.rows| == hi - lo && (lo < hi ==> e.rows[0].openTime == table[lo..hi][0].openTime == table[lo].openTime);
    hide SelectRecent, CountBelow, Position, StrictlySorted, Cached, FlaggedSlice, SameBars, EffectiveLimit;
    assert |Cached(e, cutoff, limit)| == Min(limit, p - lo);
  }

  /** What a miss fetches: the rows just below the flagged slice, with flags that fit the cutoff. */
  lemma {:induction false} FetchedFlagsFit(table: seq<Bar>, e: Entry, cutoff: int, limit: nat, lo: nat, hi: nat)
    requires Table(table) && FlaggedSlice(table, e, lo, hi)
    requires lo <= Position(table, cutoff) <= hi && !Served(e, cutoff, limit)
    ensures var missing := Missing(e, cutoff, limit);
            var fetched := Query(table, FetchBefore(e, cutoff, limit), missing);
            && missing == limit - (Position(table, cutoff) - lo) > 0
            && Cached(e, cutoff, limit) == e.rows[..Position(table, cutoff) - lo]
            && SameBars(fetched, table[lo - Min(missing, lo)..lo]) && FlagsFit(fetched, cutoff)
  {
    var p := Position(table, cutoff);
    TableSorted(table);
    PositionSplits(table, cutoff);
    MissingFlagged(table, e, cutoff, limit, lo, hi);
    var missing, before := Missing(e, cutoff, limit), FetchBefore(e, cutoff, limit);
    var low := lo - Min(missing, lo);
    assert lo < p ==> table[lo].openTime < cutoff;
    hide Position, StrictlySorted, Cached, Table, Stamped, FlaggedSlice, Missing, FetchBefore, FlagsFit, SameBars;
    StampedFits(table[low..lo], before);
    if lo < p {
      OpenTimeIsCutoff(table, lo);
      EndedBefore(table, cutoff, low, lo);
    }
  }

  /** A fetch puts its rows in front of those already held, whatever their flags. */
  lemma {:induction false} FlaggedMerge(
    table: seq<Bar>, e: Entry, fetched: seq<Bar>, missing: nat, low: nat, lo: nat, hi: nat)
    requires StrictlySorted(table, OpenTime) && FlaggedSlice(table, e, lo, hi)
    requires low <= lo && SameBars(fetched, table[low..lo])
    ensures Stored(e, fetched, missing).rows == fetched + e.rows
    ensures FlaggedSlice(table, Stored(e, fetched, missing), low, hi)
  {
    var all := Entry(fetched + e.rows, e.exhausted);
    assert |fetched| == lo - low && |e.rows| == hi - lo;
    hide Merged, SameBars, StrictlySorted, Position;
    SameBarsJoined(fetched, e.rows, table[low..lo], table[lo..hi]);
    assert table[low..lo] + table[lo..hi] == table[low..hi];
    var flagged := FlaggedTable(table, all, 0, low, hi);
    SplitRun(flagged, fetched, e.rows, low, lo, hi);
    hide FlaggedSlice;
    MergeSlices(flagged, lo, hi, low, lo);
  }

  lemma {:induction false} SplitRun(rows: seq<Bar>, front: seq<Bar>, back: seq<Bar>, low: nat, lo: nat, hi: nat)
    requires low <= lo <= hi <= |rows| && rows[low..hi] == front + back && |front| == lo - low
    ensures rows[low..lo] == front && rows[lo..hi] == back
  {
    RunWithin(rows, low, hi, low, lo);
    RunWithin(rows, low, hi, lo, hi);
  }

  /** The answer is taken from the stored rows; a short fetch means that the table starts there. */
  lemma {:induction false} AnswerFromStored(e: Entry, fetched: seq<Bar>, cutoff: int, limit: nat, lo: nat)
    requires !Served(e, cutoff, limit) && |fetched| == Min(Missing(e, cutoff, limit), lo)
    ensures var rows := Stored(e, fetched, Missing(e, cutoff, limit)).rows;
            Answer(e, e, fetched, cutoff, limit) ==
              SelectRecent(rows, cutoff,
                           if lo < Missing(e, cutoff, limit) then Min(limit, CountBelow(rows, cutoff)) else limit)
  {
    hide Merged, SelectRecent, CountBelow;
  }

  /** The answer selected from a flagged slice that reaches down as far as the limit or the table's start. */
  lemma {:induction false} SelectFlagged(
    table: seq<Bar>, all: Entry, cutoff: int, limit: nat, lo: nat, low: nat, hi: nat)
    requires StrictlySorted(table, OpenTime) && FlaggedSlice(table, all, low, hi)
    requires lo <= Position(table, cutoff) <= hi && Position(table, cutoff) - lo < limit
    requires var missing := limit - (Position(table, cutoff) - lo); low == lo - Min(missing, lo)
    ensures var p := Position(table, cutoff);
            var missing := limit - (p - lo);
            var answer :=
              SelectRecent(all.rows, cutoff, if lo < missing then Min(limit, CountBelow(all.rows, cutoff)) else limit);
            answer == all.rows[..p - low] && SameBars(answer, table[low..p])
  {
    var p := Position(table, cutoff);
    hide SelectRecent, CountBelow, Position, StrictlySorted, SameBars;
    var flagged := FlaggedTable(table, all, cutoff, low, hi);
    hide FlaggedSlice;
    AnswerFromSlice(flagged, cutoff, limit, lo, low, hi);
    assert low == p - Min(limit, p);
    RunWithin(flagged, low, hi, low, p);
    SameBarsWithin(flagged, table, low, p);
  }

  lemma {:induction false} TakeJoined(front: seq<Bar>, back: seq<Bar>, n: nat)
    requires n <= |back|
    ensures (front + back)[..|front| + n] == front + back[..n]
  {
  }

  /** What is selected after such a merge: the fetched rows and all that was cached below the cutoff. */
  lemma {:induction false} SelectStored(
    table: seq<Bar>, e: Entry, fetched: seq<Bar>, cutoff: int, limit: nat, missing: nat, lo: nat, hi: nat)
    requires StrictlySorted(table, OpenTime) && FlaggedSlice(table, e, lo, hi)
    requires lo <= Position(table, cutoff) <= hi && missing == limit - (Position(table, cutoff) - lo) > 0
    requires SameBars(fetched, table[lo - Min(missing, lo)..lo])
    ensures var p, rows := Position(table, cutoff), Stored(e, fetched, missing).rows;
            var answer :=
              SelectRecent(rows, cutoff, if lo < missing then Min(limit, CountBelow(rows, cutoff)) else limit);
            answer == fetched + e.rows[..p - lo] && SameBars(answer, table[p - Min(limit, p)..p])
  {
    var p, low := Position(table, cutoff), lo - Min(missing, lo);
    assert |fetched| == lo - low && |e.rows| == hi - lo && low == p - Min(limit, p);
    hide Merged, SelectRecent, CountBelow, Position, StrictlySorted, SameBars, FlaggedSlice;
    FlaggedMerge(table, e, fetched, missing, low, lo, hi);
    SelectFlagged(table, Stored(e, fetched, missing), cutoff, limit, lo, low, hi);
    TakeJoined(fetched, e.rows, p - lo);
  }

  /** The answer after such a merge. */
  lemma {:induction false} AnswerFlagged(
    table: seq<Bar>, e: Entry, fetched: seq<Bar>, cutoff: int, limit: nat, lo: nat, hi: nat)
    requires StrictlySorted(table, OpenTime) && FlaggedSlice(table, e, lo, hi)
    requires lo <= Position(table, cutoff) <= hi && !Served(e, cutoff, limit)
    requires Missing(e, cutoff, limit) == limit - (Position(table, cutoff) - lo) > 0
    requires SameBars(fetched, table[lo - Min(Missing(e, cutoff, limit), lo)..lo])
    ensures var p := Position(table, cutoff);
            && Answer(e, e, fetched, cutoff, limit) == fetched + e.rows[..p - lo]
            && SameBars(Answer(e, e, fetched, cutoff, limit), table[p - Min(limit, p)..p])
  {
    assert |fetched| == Min(Missing(e, cutoff, limit), lo);
    hide Merged, SelectRecent, CountBelow, Position, StrictlySorted, SameBars, Missing, Answer, Served, FlaggedSlice;
    AnswerFromStored(e, fetched, cutoff, limit, lo);
    SelectStored(table, e, fetched, cutoff, limit, Missing(e, cutoff, limit), lo, hi);
  }

  lemma {:induction false} FlagsFitTogether(front: seq<Bar>, back: seq<Bar>, cutoff: int)
    ensures FlagsFit(front + back, cutoff) <==> FlagsFit(front, cutoff) && FlagsFit(back, cutoff)
  {
    var all := front + back;
    assert forall k :: 0 <= k < |front| ==> all[k] == front[k];
    assert forall k :: 0 <= k < |back| ==> all[|front| + k] == back[k];
  }

  lemma {:induction false} FetchedAndCachedDecide(
    table: seq<Bar>, e: Entry, fetched: seq<Bar>, cutoff: int, limit: nat, lo: nat, hi: nat)
    requires StrictlySorted(table, OpenTime) && FlaggedSlice(table, e, lo, hi)
    requires lo <= Position(table, cutoff) <= hi && !Served(e, cutoff, limit)
    requires Missing(e, cutoff, limit) == limit - (Position(table, cutoff) - lo) > 0
    requires Cached(e, cutoff, limit) == e.rows[..Position(table, cutoff) - lo]
    requires SameBars(fetched, table[lo - Min(Missing(e, cutoff, limit), lo)..lo]) && FlagsFit(fetched, cutoff)
    ensures Answer(e, e, fetched, cutoff, limit) == Query(table, cutoff, limit) <==>
            FlagsFit(Cached(e, cutoff, limit), cutoff)
  {
    var p := Position(table, cutoff);
    AnswerFlagged(table, e, fetched, cutoff, limit, lo, hi);
    hide Answer, Cached, FlaggedSlice, Missing, Served, Position, StrictlySorted, SameBars, FlagsFit, Stamped;
    FlagsDecide(Answer(e, e, fetched, cutoff, limit), table[p - Min(limit, p)..p], cutoff);
    FlagsFitTogether(fetched, Cached(e, cutoff, limit), cutoff);
  }

  /**
   The same for an answer after a fetch: the rows just fetched fit, so it is right if and only if those that were
   cached fit; and the entry is again a slice with some flags.
   */
  lemma {:induction false} MissFlagsExactly(table: seq<Bar>, e: Entry, cutoff: int, limit: nat, lo: nat, hi: nat)
    requires Table(table) && FlaggedSlice(table, e, lo, hi) && Honest(e, lo)
    requires lo <= Position(table, cutoff) <= hi && !Served(e, cutoff, limit)
    ensures var missing := Missing(e, cutoff, limit);
            var fetched := Query(table, FetchBefore(e, cutoff, limit), missing);
            var after := Stored(e, fetched, missing);
            && (Answer(e, e, fetched, cutoff, limit) == Query(table, cutoff, limit) <==>
                  FlagsFit(Cached(e, cutoff, limit), cutoff))
            && FlaggedSlice(table, after, lo - Min(missing, lo), hi) && Honest(after, lo - Min(missing, lo))
  {
    var missing := Missing(e, cutoff, limit);
    var fetched := Query(table, FetchBefore(e, cutoff, limit), missing);
    TableSorted(table);
    FetchedFlagsFit(table, e, cutoff, limit, lo, hi);
    assert |fetched| < missing ==> lo - Min(missing, lo) == 0;
    hide Merged, Position, StrictlySorted, Table, Cached, Missing, FetchBefore, Answer, Query, SameBars, FlagsFit;
    hide FlaggedSlice, Served;
    FlaggedMerge(table, e, fetched, missing, lo - Min(missing, lo), lo, hi);
    FetchedAndCachedDecide(table, e, fetched, cutoff, limit, lo, hi);
  }

  /**
   A first request at one cutoff and a later one at a cutoff between the same two bars: the entry answers the later one
   by itself, and right exactly when the newest bar had ended by the earlier cutoff.
   */
  lemma {:induction false} LaterRequestExactly(table: seq<Bar>, early: int, late: int, limit: nat)
    requires Table(table) && limit >= 1 && Aligned(table, late) && Position(table, early) == Position(table, late)
    ensures var p := Position(table, early);
            var e := Stored(NO_ENTRY, Query(table, early, limit), Missing(NO_ENTRY, early, limit));
            && Served(e, late, limit)
            && (Cached(e, late, limit) == Query(table, late, limit) <==> p == 0 || table[p - 1].closeTime <= early)
  {
    var p := Position(table, early);
    var fetched := Query(table, early, limit);
    FetchedOnce(table, early, late, limit);
    assert Missing(NO_ENTRY, early, limit) == limit;
    hide Merged, Query, SelectRecent, CountBelow, Position, Aligned;
    QueryIsSlice(table, late, limit);
    QueryFlagsExactly(table, early, limit);
  }

  /** The rows of a first fetch are stored as they are, and served as they are. */
  lemma {:induction false} FetchedOnce(table: seq<Bar>, early: int, late: int, limit: nat)
    requires Table(table) && limit >= 1 && Position(table, early) == Position(table, late)
    ensures var fetched := Query(table, early, limit);
            var e := Stored(NO_ENTRY, fetched, limit);
            && e.rows == fetched && |fetched| == Min(limit, Position(table, early))
            && EffectiveLimit(e, late, limit) == (if |fetched| < limit then |fetched| else limit)
            && Cached(e, late, limit) == fetched
  {
    var p := Position(table, early);
    var fetched := Query(table, early, limit);
    PositionSplits(table, late);
    assert StrictlySorted(fetched, OpenTime) by {
      forall i, j | 0 <= i < j < |fetched| ensures OpenTime(fetched[i]) < OpenTime(fetched[j]) {
        assert OpenTime(table[p - Min(limit, p) + i]) < OpenTime(table[p - Min(limit, p) + j]);
      }
    }
    forall i | 0 <= i < |fetched| ensures fetched[i].openTime < late {
      assert table[p - Min(limit, p) + i].openTime < late;
    }
    hide Merged, Query, SelectRecent, CountBelow, Table;
    MergeAlone(fetched);
    CountAll(fetched, late);
    SelectSuffix(fetched, late, |fetched|);
    SelectSuffix(fetched, late, limit);
  }

  /** One bar: fetched while it was still open at the cutoff, it is served as open after it has ended. */
  lemma {:induction false} OpenFlagIsServedLater(bar: Bar, early: int, late: int)
    requires bar.isClosed && bar.openTime < early < bar.closeTime <= late
    ensures var table := [bar];
            var e := Stored(NO_ENTRY, Query(table, early, 1), Missing(NO_ENTRY, early, 1));
            && Table(table) && !Aligned(table, early) && Aligned(table, late)
            && !Served(NO_ENTRY, early, 1) && Served(e, late, 1)
            && Cached(e, late, 1) == [bar.(isClosed := false)] && Query(table, late, 1) == [bar]
  {
    var table := [bar];
    assert Position(table, early) == Position(table, late) == 1;
    assert table[0..1] == table && table[0].closeTime > early;
    assert bar.(isClosed := true) == bar;
    assert SelectRecent([], early, 1) == [];
    hide Merged, SelectRecent, CountBelow;
    FetchedOnce(table, early, late, 1);
    LaterRequestExactly(table, early, late, 1);
  }
}
