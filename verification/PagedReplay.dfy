/**
 Canonical replay from the database: the range is tiled into fetch windows, and each window is read
 page by page behind a lexicographic cursor, with a LIMIT on every source table and again on their union.
 */
module PagedReplay {
  import opened Options
  import opened Ordering

  const CANONICAL_REPLAY_FETCH_WINDOW_MINUTES := 360

  /** The sort key of a replay row; the texts compare as the database compares text. */
  datatype Key = Key(eventTs: int, msgType: string, market: string, symbol: string, routingKey: string, rowTid: string)

  /** A row sits in a window by its bucket, and is ordered by its key. */
  datatype Row = Row(bucket: int, key: Key, data: string)

  predicate TextLess(a: string, b: string) { Lex(a, b, CharLess) }

  function Texts(k: Key): seq<string> { [k.msgType, k.market, k.symbol, k.routingKey, k.rowTid] }

  predicate KeyLess(a: Key, b: Key) {
    a.eventTs < b.eventTs || (a.eventTs == b.eventTs && Lex(Texts(a), Texts(b), TextLess))
  }

  predicate RowLess(a: Row, b: Row) { KeyLess(a.key, b.key) }

  /** The per-source ORDER BY, which leaves the constant message type out. */
  predicate SourceRowLess(a: Row, b: Row) {
    || a.key.eventTs < b.key.eventTs
    || (a.key.eventTs == b.key.eventTs && Lex(Texts(a.key)[1..], Texts(b.key)[1..], TextLess))
  }

  lemma {:induction false} TextOrder()
    ensures StrictTotal(TextLess)
  {
    assert StrictTotal(CharLess);
    forall a, b, c | TextLess(a, b) && TextLess(b, c) ensures TextLess(a, c) { LexTransitive(a, b, c, CharLess); }
    forall a: string, b: string ensures !TextLess(a, a) && (a != b ==> TextLess(a, b) || TextLess(b, a)) {
      LexTotal(a, b, CharLess);
    }
  }

  lemma {:induction false} KeyOrder(a: Key, b: Key, c: Key)
    ensures !KeyLess(a, a)
    ensures KeyLess(a, b) && KeyLess(b, c) ==> KeyLess(a, c)
    ensures a != b ==> KeyLess(a, b) || KeyLess(b, a)
  {
    TextOrder();
    LexTotal(Texts(a), Texts(b), TextLess);
    if Lex(Texts(a), Texts(b), TextLess) && Lex(Texts(b), Texts(c), TextLess) {
      LexTransitive(Texts(a), Texts(b), Texts(c), TextLess);
    }
    if a != b && a.eventTs == b.eventTs {
      assert Texts(a)[0] == a.msgType && Texts(a)[1] == a.market && Texts(a)[2] == a.symbol
             && Texts(a)[3] == a.routingKey && Texts(a)[4] == a.rowTid;
      assert Texts(b)[0] == b.msgType && Texts(b)[1] == b.market && Texts(b)[2] == b.symbol
             && Texts(b)[3] == b.routingKey && Texts(b)[4] == b.rowTid;
    }
  }

  ghost predicate DistinctKeys(rows: set<Row>) {
    forall a, b :: a in rows && b in rows && a.key == b.key ==> a == b
  }

  lemma {:induction false} RowOrder(rows: set<Row>)
    requires DistinctKeys(rows)
    ensures Orders(RowLess, rows)
  {
    forall a, b, c ensures !RowLess(a, a) && (RowLess(a, b) && RowLess(b, c) ==> RowLess(a, c)) {
      KeyOrder(a.key, b.key, c.key);
    }
    forall a, b | a in rows && b in rows && a != b ensures RowLess(a, b) || RowLess(b, a) {
      KeyOrder(a.key, b.key, b.key);
    }
  }

  ghost predicate OneMessageType(rows: set<Row>) {
    forall a, b :: a in rows && b in rows ==> a.key.msgType == b.key.msgType
  }

  /** Within one source the two ORDER BY clauses agree. */
  lemma {:induction false} SourceOrderAgrees(a: Row, b: Row)
    requires a.key.msgType == b.key.msgType
    ensures SourceRowLess(a, b) <==> RowLess(a, b)
  {
    TextOrder();
  }

  lemma {:induction false} SourceOrder(rows: set<Row>)
    requires DistinctKeys(rows) && OneMessageType(rows)
    ensures Orders(SourceRowLess, rows) && Orders(RowLess, rows)
  {
    RowOrder(rows);
    TextOrder();
    forall a, b, c: Row
      ensures !SourceRowLess(a, a)
      ensures SourceRowLess(a, b) && SourceRowLess(b, c) ==> SourceRowLess(a, c)
    {
      LexTotal(Texts(a.key)[1..], Texts(a.key)[1..], TextLess);
      if Lex(Texts(a.key)[1..], Texts(b.key)[1..], TextLess) && Lex(Texts(b.key)[1..], Texts(c.key)[1..], TextLess) {
        LexTransitive(Texts(a.key)[1..], Texts(b.key)[1..], Texts(c.key)[1..], TextLess);
      }
    }
    forall a, b | a in rows && b in rows ensures SourceRowLess(a, b) <==> RowLess(a, b) { SourceOrderAgrees(a, b); }
  }

  lemma {:induction false} SourceListing(rows: set<Row>)
    requires DistinctKeys(rows) && OneMessageType(rows)
    requires Orders(SourceRowLess, rows) && Orders(RowLess, rows)
    ensures Listed(rows, SourceRowLess) == Listed(rows, RowLess)
  {
    var bySource := Listed(rows, SourceRowLess);
    ListedAscends(rows, SourceRowLess);
    ListedAscends(rows, RowLess);
    forall i, j | 0 <= i < j < |bySource| ensures RowLess(bySource[i], bySource[j]) {
      SourceOrderAgrees(bySource[i], bySource[j]);
    }
    AscendingUnique(bySource, Listed(rows, RowLess), RowLess);
  }

  // ---------------------------------------------------------------- one page

  function AllRows(sources: seq<set<Row>>): (rows: set<Row>)
    ensures forall r :: r in rows <==> exists i :: 0 <= i < |sources| && r in sources[i]
  {
    if sources == [] then {} else sources[0] + AllRows(sources[1..])
  }

  /** The tables of one database: unchanging, one message type each, no two rows with one key. */
  ghost predicate Tables(sources: seq<set<Row>>) {
    && (forall i :: 0 <= i < |sources| ==> OneMessageType(sources[i]))
    && DistinctKeys(AllRows(sources))
  }

  function InWindow(rows: set<Row>, from: int, end: int, cursor: Option<Key>): set<Row> {
    set r | r in rows && from <= r.bucket < end && (cursor.None? || KeyLess(cursor.value, r.key))
  }

  /** What one source contributes to a page: its rows in the window behind the cursor, ordered and limited. */
  function SourcePage(rows: set<Row>, from: int, end: int, cursor: Option<Key>, limit: nat): (page: set<Row>)
    requires DistinctKeys(rows) && OneMessageType(rows)
  {
    var selected := InWindow(rows, from, end, cursor);
    SourceOrder(selected);
    var listed := FirstN(selected, SourceRowLess, limit);
    set r | r in listed
  }

  function Candidates(sources: seq<set<Row>>, from: int, end: int, cursor: Option<Key>, limit: nat): (rows: set<Row>)
    requires Tables(sources)
    ensures rows <= InWindow(AllRows(sources), from, end, cursor)
  {
    if sources == [] then {}
    else
      assert Tables(sources[1..]) by {
        assert forall r :: r in AllRows(sources[1..]) ==> r in AllRows(sources);
      }
      assert forall r :: r in sources[0] ==> r in AllRows(sources);
      SourcePage(sources[0], from, end, cursor, limit) + Candidates(sources[1..], from, end, cursor, limit)
  }

  /** The paged query: every source limited, the union ordered by the whole key and limited again. */
  function FetchBackfillBatch(
    sources: seq<set<Row>>, from: int, end: int, cursor: Option<Key>, limit: nat): (page: seq<Row>)
    requires Tables(sources)
  {
    if from >= end then []
    else
      var effectiveLimit := if limit < 1 then 1 else limit;
      var candidates := Candidates(sources, from, end, cursor, effectiveLimit);
      RowOrder(candidates);
      FirstN(candidates, RowLess, effectiveLimit)
  }

  // ---------------------------------------------------------------- a page is the next rows

  /** A row among the first n of the whole database is among the first n of its own table. */
  lemma {:induction false} FirstOverallIsFirstInSource(all: set<Row>, own: set<Row>, n: nat, r: Row)
    requires DistinctKeys(all) && own <= all && OneMessageType(own) && r in own
    requires Orders(RowLess, all) && Orders(RowLess, own) && Orders(SourceRowLess, own)
    requires r in FirstN(all, RowLess, n)
    ensures r in FirstN(own, SourceRowLess, n)
  {
    hide RowLess, SourceRowLess;
    FirstNByRank(all, RowLess, n, r);
    FirstNByRank(own, RowLess, n, r);
    SubsetSize(Before(own, RowLess, r), Before(all, RowLess, r));
    SourceListing(own);
  }

  lemma {:induction false} CandidatesHold(
    sources: seq<set<Row>>, i: nat, from: int, end: int, cursor: Option<Key>, limit: nat, r: Row)
    requires Tables(sources) && i < |sources|
    requires DistinctKeys(sources[i]) && r in SourcePage(sources[i], from, end, cursor, limit)
    ensures r in Candidates(sources, from, end, cursor, limit)
  {
    if i == 0 {
    } else {
      assert forall x :: x in AllRows(sources[1..]) ==> x in AllRows(sources);
      CandidatesHold(sources[1..], i - 1, from, end, cursor, limit, r);
    }
  }

  lemma {:induction false} NextRowIsCandidate(
    sources: seq<set<Row>>, from: int, end: int, cursor: Option<Key>, limit: nat, r: Row)
    requires Tables(sources)
    requires var rest := InWindow(AllRows(sources), from, end, cursor);
             Orders(RowLess, rest) && r in FirstN(rest, RowLess, limit)
    ensures r in Candidates(sources, from, end, cursor, limit)
  {
    var rest := InWindow(AllRows(sources), from, end, cursor);
    var i :| 0 <= i < |sources| && r in sources[i];
    assert forall x :: x in sources[i] ==> x in AllRows(sources);
    hide Orders, RowLess, SourceRowLess, KeyLess, Candidates, FirstN, DistinctKeys, OneMessageType;
    var own := InWindow(sources[i], from, end, cursor);
    SourceOrder(own);
    FirstOverallIsFirstInSource(rest, own, limit, r);
    CandidatesHold(sources, i, from, end, cursor, limit, r);
  }

  /** Limiting every source and then the union gives exactly the next rows of the whole window, one at the least. */
  lemma {:induction false} BatchIsNextRows(sources: seq<set<Row>>, from: int, end: int, cursor: Option<Key>, limit: nat)
    requires Tables(sources)
    ensures var rest := InWindow(AllRows(sources), from, end, cursor);
            Orders(RowLess, rest) && FetchBackfillBatch(sources, from, end, cursor, limit) ==
              FirstN(rest, RowLess, Max(limit, 1))
  {
    var rest := InWindow(AllRows(sources), from, end, cursor);
    hide Orders, RowLess, SourceRowLess, KeyLess, Candidates, FirstN;
    RowOrder(rest);
    var n := Max(limit, 1);
    if from >= end {
      assert rest == {};
      NothingListed(rest, n);
    } else {
      forall r | r in FirstN(rest, RowLess, n) ensures r in Candidates(sources, from, end, cursor, n) {
        NextRowIsCandidate(sources, from, end, cursor, n, r);
      }
      FirstNOfSuperset(rest, Candidates(sources, from, end, cursor, n), RowLess, n);
    }
  }

  // ---------------------------------------------------------------- the whole replay

  /** Every row of a window, in key order. */
  function WindowRows(sources: seq<set<Row>>, from: int, end: int): seq<Row>
    requires Tables(sources)
  {
    var rows := InWindow(AllRows(sources), from, end, None);
    RowOrder(rows);
    Listed(rows, RowLess)
  }

  function WindowEnd(from: int, end: int): int {
    Min(from + CANONICAL_REPLAY_FETCH_WINDOW_MINUTES, end)
  }

  /** The windows of [from, end), one after the other. */
  function ReplayRows(sources: seq<set<Row>>, from: int, end: int): seq<Row>
    requires Tables(sources)
    decreases end - from
  {
    if from >= end then []
    else WindowRows(sources, from, WindowEnd(from, end)) + ReplayRows(sources, WindowEnd(from, end), end)
  }

  /** The rows still to be read behind a cursor, in key order. */
  ghost function RowsBehind(sources: seq<set<Row>>, from: int, end: int, cursor: Option<Key>): seq<Row>
    requires Tables(sources)
  {
    var rows := InWindow(AllRows(sources), from, end, cursor);
    RowOrder(rows);
    Listed(rows, RowLess)
  }

  lemma {:induction false} CursorMovesOn(rows: set<Row>, from: int, end: int, cursor: Option<Key>, last: Row)
    requires last in InWindow(rows, from, end, cursor)
    ensures Beyond(InWindow(rows, from, end, cursor), RowLess, last) == InWindow(rows, from, end, Some(last.key))
  {
    hide KeyLess;
    forall r | r in rows && cursor.Some? && KeyLess(last.key, r.key) ensures KeyLess(cursor.value, r.key) {
      KeyOrder(cursor.value, last.key, r.key);
    }
  }

  lemma NothingListed(rows: set<Row>, limit: nat)
    requires rows == {} && Orders(RowLess, rows)
    ensures Listed(rows, RowLess) == FirstN(rows, RowLess, limit) == []
  {
  }

  lemma {:induction false} NextPage(sources: seq<set<Row>>, from: int, end: int, cursor: Option<Key>, limit: nat)
    requires Tables(sources) && from < end && limit >= 1
    ensures var page := FetchBackfillBatch(sources, from, end, cursor, limit);
            if page == [] then RowsBehind(sources, from, end, cursor) == []
            else RowsBehind(sources, from, end, cursor)
                 == page + RowsBehind(sources, from, end, Some(page[|page| - 1].key))
  {
    hide Orders, RowLess, Candidates, FetchBackfillBatch, InWindow, Listed, Beyond, Tables;
    var rest := InWindow(AllRows(sources), from, end, cursor);
    BatchIsNextRows(sources, from, end, cursor, limit);
    var page := FetchBackfillBatch(sources, from, end, cursor, limit);
    if rest == {} {
      NothingListed(rest, limit);
    } else {
      ListedSplits(rest, RowLess, limit);
      hide FirstN;
      assert page[|page| - 1] in page;
      CursorMovesOn(AllRows(sources), from, end, cursor, page[|page| - 1]);
    }
  }

  /** The replay loop: windows outside, pages behind a fresh cursor inside. */
  method ReplayCanonicalRange(sources: seq<set<Row>>, from: int, end: int, batchLimit: int) returns (visited: seq<Row>)
    requires Tables(sources)
    ensures visited == ReplayRows(sources, from, end)
  {
    hide Tables, WindowRows;
    visited := [];
    if from >= end { return; }
    var windowFrom := from;
    var effectiveLimit: nat := if batchLimit < 1 then 1 else batchLimit;
    while windowFrom < end
      invariant windowFrom <= end
      invariant visited + ReplayRows(sources, windowFrom, end) == ReplayRows(sources, from, end)
      decreases end - windowFrom
    {
      var windowTo := WindowEnd(windowFrom, end);
      var inWindow := ReadWindow(sources, windowFrom, windowTo, effectiveLimit);
      visited := visited + inWindow;
      windowFrom := windowTo;
    }
  }

  method ReadWindow(sources: seq<set<Row>>, from: int, end: int, limit: nat) returns (rows: seq<Row>)
    requires Tables(sources) && from < end && limit >= 1
    ensures rows == WindowRows(sources, from, end)
  {
    hide Tables, FetchBackfillBatch, RowsBehind, WindowRows;
    rows := [];
    var cursor: Option<Key> := None;
    WholeWindowIsBehindNoCursor(sources, from, end);
    while true
      invariant rows + RowsBehind(sources, from, end, cursor) == WindowRows(sources, from, end)
      decreases |RowsBehind(sources, from, end, cursor)|
    {
      var page := FetchBackfillBatch(sources, from, end, cursor, limit);
      NextPage(sources, from, end, cursor, limit);
      if page == [] { break; }
      cursor := Some(page[|page| - 1].key);
      assert rows + (page + RowsBehind(sources, from, end, cursor)) ==
        (rows + page) + RowsBehind(sources, from, end, cursor);
      rows := rows + page;
    }
  }

  lemma {:induction false} WholeWindowIsBehindNoCursor(sources: seq<set<Row>>, from: int, end: int)
    requires Tables(sources)
    ensures RowsBehind(sources, from, end, None) == WindowRows(sources, from, end)
  {
  }

  function Visits(rows: seq<Row>, r: Row): nat {
    if rows == [] then 0 else (if rows[0] == r then 1 else 0) + Visits(rows[1..], r)
  }

  lemma {:induction false} VisitsConcat(a: seq<Row>, b: seq<Row>, r: Row)
    ensures Visits(a + b, r) == Visits(a, r) + Visits(b, r)
  {
    if a == [] {
      assert a + b == b;
    } else {
      VisitsConcat(a[1..], b, r);
      assert (a + b)[1..] == a[1..] + b;
    }
  }

  lemma {:induction false} ListedVisitsOnce(rows: set<Row>, r: Row)
    requires Orders(RowLess, rows)
    ensures Visits(Listed(rows, RowLess), r) == if r in rows then 1 else 0
    decreases |rows|
  {
    hide RowLess;
    if rows == {} {
    } else {
      var least := Least(rows, RowLess);
      ListedVisitsOnce(rows - {least}, r);
      assert Listed(rows, RowLess) == [least] + Listed(rows - {least}, RowLess);
    }
  }

  /** Replay visits every row of the range exactly once and nothing else, for any limit and any tables. */
  lemma {:induction false} ReplayVisitsExactlyOnce(sources: seq<set<Row>>, from: int, end: int, r: Row)
    requires Tables(sources)
    ensures Visits(ReplayRows(sources, from, end), r)
            == if r in AllRows(sources) && from <= r.bucket < end then 1 else 0
    decreases end - from
  {
    if end <= from {
    } else {
      hide Tables, WindowRows, RowLess, AllRows, Visits;
      var windowTo := WindowEnd(from, end);
      WindowVisitsOnce(sources, from, windowTo, r);
      VisitsConcat(WindowRows(sources, from, windowTo), ReplayRows(sources, windowTo, end), r);
      ReplayVisitsExactlyOnce(sources, windowTo, end, r);
    }
  }

  lemma {:induction false} WindowVisitsOnce(sources: seq<set<Row>>, from: int, end: int, r: Row)
    requires Tables(sources)
    ensures Visits(WindowRows(sources, from, end), r)
            == if r in AllRows(sources) && from <= r.bucket < end then 1 else 0
  {
    hide KeyLess, Visits, Listed;
    var rows := InWindow(AllRows(sources), from, end, None);
    RowOrder(rows);
    ListedVisitsOnce(rows, r);
  }

  /** Within a window, rows come strictly ascending in the whole key. */
  lemma {:induction false} WindowRowsAscend(sources: seq<set<Row>>, from: int, end: int)
    requires Tables(sources)
    ensures Ascending(WindowRows(sources, from, end), RowLess)
  {
    var rows := InWindow(AllRows(sources), from, end, None);
    RowOrder(rows);
    ListedAscends(rows, RowLess);
  }

  // ---------------------------------------------------------------- the order of the replay, spelled out

  /** The first difference decides: a smaller character, or an end where the other goes on. */
  ghost predicate TextPrecedes(a: string, b: string) {
    exists n: nat :: FirstDifference(a, b, n) && SmallerAt(a, b, n)
  }

  predicate SmallerAt(a: string, b: string, n: nat) {
    if n < |a| && n < |b| then a[n] < b[n] else n < |b|
  }

  ghost predicate FirstDifference(a: string, b: string, n: nat) {
    n <= |a| && n <= |b| && a[..n] == b[..n] && (n < |a| ==> n < |b| && a[n] != b[n])
  }

  lemma {:induction false} SameStart(a: string, b: string, n: nat)
    requires FirstDifference(a, b, n)
    ensures n > 0 ==> a != [] && b != [] && a[0] == b[0]
  {
    assert n > 0 ==> a[..n][0] == b[..n][0];
  }

  lemma {:induction false} DifferAtOnce(a: string, b: string)
    requires a == [] || b == [] || a[0] != b[0]
    ensures TextPrecedes(a, b) <==> b != [] && (a == [] || a[0] < b[0])
  {
    if n: nat :| FirstDifference(a, b, n) && SmallerAt(a, b, n) {
      SameStart(a, b, n);
    }
    if b != [] && (a == [] || a[0] < b[0]) {
      assert FirstDifference(a, b, 0) && SmallerAt(a, b, 0);
    }
  }

  lemma {:induction false} DifferLater(a: string, b: string)
    requires a != [] && b != [] && a[0] == b[0]
    ensures TextPrecedes(a, b) <==> TextPrecedes(a[1..], b[1..])
  {
    if n: nat :| FirstDifference(a, b, n) && SmallerAt(a, b, n) {
      assert n > 0;
      assert a[1..][..n - 1] == a[..n][1..] && b[1..][..n - 1] == b[..n][1..];
      assert FirstDifference(a[1..], b[1..], n - 1) && SmallerAt(a[1..], b[1..], n - 1);
    }
    if n: nat :| FirstDifference(a[1..], b[1..], n) && SmallerAt(a[1..], b[1..], n) {
      assert a == [a[0]] + a[1..] && b == [b[0]] + b[1..];
      assert a[..n + 1] == [a[0]] + a[1..][..n] && b[..n + 1] == [b[0]] + b[1..][..n];
      assert FirstDifference(a, b, n + 1) && SmallerAt(a, b, n + 1);
    }
  }

  /** The text order is the order of the first difference. */
  lemma {:induction false} TextLessExactly(a: string, b: string)
    ensures TextLess(a, b) <==> TextPrecedes(a, b)
  {
    hide TextPrecedes;
    if a == [] || b == [] || a[0] != b[0] {
      DifferAtOnce(a, b);
    } else {
      DifferLater(a, b);
      TextLessExactly(a[1..], b[1..]);
    }
  }

  /** Earlier events first; at one instant message type, market, symbol, routing key and row id decide, in turn. */
  ghost predicate KeyPrecedes(a: Key, b: Key) {
    a.eventTs < b.eventTs || (a.eventTs == b.eventTs && (
      TextPrecedes(a.msgType, b.msgType) || (a.msgType == b.msgType && (
        TextPrecedes(a.market, b.market) || (a.market == b.market && (
          TextPrecedes(a.symbol, b.symbol) || (a.symbol == b.symbol && (
            TextPrecedes(a.routingKey, b.routingKey) || (a.routingKey == b.routingKey && (
              TextPrecedes(a.rowTid, b.rowTid)))))))))))
  }

  lemma {:induction false} LexStep(xs: seq<string>, ys: seq<string>)
    requires xs != [] && ys != []
    ensures Lex(xs, ys, TextLess) <==> TextLess(xs[0], ys[0]) || (xs[0] == ys[0] && Lex(xs[1..], ys[1..], TextLess))
  {
  }

  lemma {:induction false} LexOfFive(xs: seq<string>, ys: seq<string>)
    requires |xs| == |ys| == 5
    ensures Lex(xs, ys, TextLess) <==>
      TextLess(xs[0], ys[0]) || (xs[0] == ys[0] && (TextLess(xs[1], ys[1]) || (xs[1] == ys[1] && (
        TextLess(xs[2], ys[2]) || (xs[2] == ys[2] && (TextLess(xs[3], ys[3]) || (xs[3] == ys[3] &&
        TextLess(xs[4], ys[4]))))))))
  {
    hide TextLess;
    LexStep(xs, ys);
    LexStep(xs[1..], ys[1..]);
    assert xs[1..][1..] == xs[2..] && ys[1..][1..] == ys[2..];
    LexStep(xs[2..], ys[2..]);
    assert xs[2..][1..] == xs[3..] && ys[2..][1..] == ys[3..];
    LexStep(xs[3..], ys[3..]);
    assert xs[3..][1..] == xs[4..] && ys[3..][1..] == ys[4..];
    LexStep(xs[4..], ys[4..]);
    assert xs[4..][1..] == [] && ys[4..][1..] == [];
  }

  lemma {:induction false} KeyLessExactly(a: Key, b: Key)
    ensures KeyLess(a, b) <==> KeyPrecedes(a, b)
  {
    LexOfFive(Texts(a), Texts(b));
    TextLessExactly(a.msgType, b.msgType);
    TextLessExactly(a.market, b.market);
    TextLessExactly(a.symbol, b.symbol);
    TextLessExactly(a.routingKey, b.routingKey);
    TextLessExactly(a.rowTid, b.rowTid);
    hide TextLess, TextPrecedes;
  }

  /** The window of a bucket: six hours of minutes, counted from the start of the range. */
  function WindowOf(from: int, bucket: int): int {
    (bucket - from) / 360
  }

  ghost predicate ReplayOrdered(from: int, rows: seq<Row>) {
    forall i, j :: 0 <= i < j < |rows| ==> InReplayOrder(from, rows[i], rows[j])
  }

  ghost predicate InReplayOrder(from: int, a: Row, b: Row) {
    || WindowOf(from, a.bucket) < WindowOf(from, b.bucket)
    || (WindowOf(from, a.bucket) == WindowOf(from, b.bucket) && KeyPrecedes(a.key, b.key))
  }

  lemma {:induction false} WindowRowsAre(sources: seq<set<Row>>, from: int, end: int)
    requires Tables(sources)
    ensures forall r :: r in WindowRows(sources, from, end) <==> r in AllRows(sources) && from <= r.bucket < end
  {
  }

  lemma {:induction false} ReplayRowsAre(sources: seq<set<Row>>, from: int, end: int)
    requires Tables(sources)
    ensures forall r :: r in ReplayRows(sources, from, end) <==> r in AllRows(sources) && from <= r.bucket < end
    decreases end - from
  {
    if end <= from {
    } else {
      hide Tables, WindowRows, AllRows;
      var windowTo := WindowEnd(from, end);
      WindowRowsAre(sources, from, windowTo);
      ReplayRowsAre(sources, windowTo, end);
    }
  }

  lemma {:induction false} WindowInOrder(sources: seq<set<Row>>, from: int, end: int)
    requires Tables(sources) && from <= end <= from + 360
    ensures ReplayOrdered(from, WindowRows(sources, from, end))
  {
    hide Tables, WindowRows, AllRows, KeyPrecedes, KeyLess;
    var rows := WindowRows(sources, from, end);
    WindowRowsAre(sources, from, end);
    WindowRowsAscend(sources, from, end);
    forall i, j | 0 <= i < j < |rows| ensures InReplayOrder(from, rows[i], rows[j]) {
      assert rows[i] in rows && rows[j] in rows && RowLess(rows[i], rows[j]);
      KeyLessExactly(rows[i].key, rows[j].key);
    }
  }

  lemma {:induction false} LaterWindows(from: int, a: Row, b: Row)
    requires InReplayOrder(from + 360, a, b)
    ensures InReplayOrder(from, a, b)
  {
    hide KeyPrecedes;
    assert WindowOf(from, a.bucket) == WindowOf(from + 360, a.bucket) + 1;
    assert WindowOf(from, b.bucket) == WindowOf(from + 360, b.bucket) + 1;
  }

  lemma NoRowsOrdered(from: int)
    ensures ReplayOrdered(from, [])
  {
  }

  lemma {:induction false} OrderedTogether(from: int, head: seq<Row>, tail: seq<Row>)
    requires ReplayOrdered(from, head) && ReplayOrdered(from, tail)
    requires forall a, b :: a in head && b in tail ==> InReplayOrder(from, a, b)
    ensures ReplayOrdered(from, head + tail)
  {
    hide InReplayOrder;
    forall i, j | 0 <= i < j < |head + tail| ensures InReplayOrder(from, (head + tail)[i], (head + tail)[j]) {
      if j < |head| {
      } else if i < |head| {
        assert head[i] in head && tail[j - |head|] in tail;
      } else {
        assert InReplayOrder(from, tail[i - |head|], tail[j - |head|]);
      }
    }
  }

  lemma {:induction false} LaterRowsInOrder(from: int, rows: seq<Row>)
    requires ReplayOrdered(from + 360, rows)
    ensures ReplayOrdered(from, rows)
  {
    hide InReplayOrder;
    forall i, j | 0 <= i < j < |rows| ensures InReplayOrder(from, rows[i], rows[j]) {
      LaterWindows(from, rows[i], rows[j]);
    }
  }

  lemma {:induction false} NextWindowIsLater(from: int, head: seq<Row>, tail: seq<Row>)
    requires forall r :: r in head ==> from <= r.bucket < from + 360
    requires forall r :: r in tail ==> from + 360 <= r.bucket
    ensures forall a, b :: a in head && b in tail ==> InReplayOrder(from, a, b)
  {
    forall a, b | a in head && b in tail ensures InReplayOrder(from, a, b) {
      assert WindowOf(from, a.bucket) == 0 < WindowOf(from, b.bucket);
    }
  }

  /** Six-hour windows one after the other, and inside a window every row before those its key precedes. */
  lemma {:induction false} ReplayOrder(sources: seq<set<Row>>, from: int, end: int)
    requires Tables(sources)
    ensures ReplayOrdered(from, ReplayRows(sources, from, end))
    decreases end - from
  {
    hide Tables, WindowRows, AllRows, ReplayOrdered;
    NoRowsOrdered(from);
    if end <= from {
    } else {
      var windowTo := WindowEnd(from, end);
      var head, tail := WindowRows(sources, from, windowTo), ReplayRows(sources, windowTo, end);
      WindowInOrder(sources, from, windowTo);
      if tail != [] {
        WindowRowsAre(sources, from, windowTo);
        ReplayRowsAre(sources, windowTo, end);
        ReplayOrder(sources, windowTo, end);
        LaterRowsInOrder(from, tail);
        NextWindowIsLater(from, head, tail);
      }
      OrderedTogether(from, head, tail);
    }
  }
}
