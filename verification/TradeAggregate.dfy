/** Trade chunks folded into one minute, in whatever order they arrive. */
module TradeAggregate {
  import opened Options

  const PRICE_SCALE: real := 100.0

  datatype Level = Level(price: real, buyQty: real, sellQty: real)

  datatype Whale = Whale(
    trades: int, buys: int, sells: int,
    notionalTotal: real, notionalBuy: real, notionalSell: real,
    qtyTotal: real, qtyBuy: real, qtySell: real, maxSingle: real)

  datatype Chunk = Chunk(
    start: int, end: int, sourceEvents: int, trades: int,
    buyQty: real, sellQty: real, buyNotional: real, sellNotional: real,
    firstPrice: Option<real>, lastPrice: Option<real>, highPrice: Option<real>, lowPrice: Option<real>,
    levels: seq<Level>, whale: Whale)

  type Profile = map<int, (real, real)>

  /** The part of the aggregate that every chunk adds to. */
  datatype Totals = Totals(
    sourceEvents: int, trades: int,
    buyQty: real, sellQty: real, buyNotional: real, sellNotional: real,
    highPrice: Option<real>, lowPrice: Option<real>, profile: Profile, whale: Whale)

  /** A price of the minute together with the chunk time that chose it. */
  datatype Edge = Edge(at: Option<int>, price: Option<real>)

  datatype Trade = Trade(totals: Totals, open: Edge, close: Edge)

  const NO_WHALE := Whale(0, 0, 0, 0.0, 0.0, 0.0, 0.0, 0.0, 0.0, 0.0)
  const NO_TOTALS := Totals(0, 0, 0.0, 0.0, 0.0, 0.0, None, None, map[], NO_WHALE)
  const NO_TRADE := Trade(NO_TOTALS, Edge(None, None), Edge(None, None))

  /** Nearest tick, halves away from zero. */
  function PriceToTick(price: real): (tick: int)
    ensures -0.5 <= price * 100.0 - tick as real <= 0.5
    ensures price * 100.0 - tick as real == 0.5 ==> price < 0.0
    ensures price * 100.0 - tick as real == -0.5 ==> price > 0.0
  {
    var scaled := price * PRICE_SCALE;
    if scaled >= 0.0 then (scaled + 0.5).Floor else -((-scaled + 0.5).Floor)
  }

  function Higher(current: Option<real>, seen: Option<real>): Option<real> {
    if seen.None? then current
    else if current.None? then seen else Some(MaxReal(current.value, seen.value))
  }

  function Lower(current: Option<real>, seen: Option<real>): Option<real> {
    if seen.None? then current
    else if current.None? then seen else Some(MinReal(current.value, seen.value))
  }

  function At(profile: Profile, tick: int): (real, real) {
    if tick in profile then profile[tick] else (0.0, 0.0)
  }

  function AddLevel(profile: Profile, level: Level): Profile {
    var tick := PriceToTick(level.price);
    profile[tick := (At(profile, tick).0 + level.buyQty, At(profile, tick).1 + level.sellQty)]
  }

  function AddLevels(profile: Profile, levels: seq<Level>): Profile {
    if levels == [] then profile
    else AddLevel(AddLevels(profile, levels[..|levels| - 1]), levels[|levels| - 1])
  }

  function AddWhale(w: Whale, x: Whale): Whale {
    Whale(w.trades + Max(x.trades, 0), w.buys + Max(x.buys, 0), w.sells + Max(x.sells, 0),
          w.notionalTotal + x.notionalTotal, w.notionalBuy + x.notionalBuy, w.notionalSell + x.notionalSell,
          w.qtyTotal + x.qtyTotal, w.qtyBuy + x.qtyBuy, w.qtySell + x.qtySell, MaxReal(w.maxSingle, x.maxSingle))
  }

  function AddTotals(t: Totals, c: Chunk): Totals {
    Totals(t.sourceEvents + Max(c.sourceEvents, 0), t.trades + Max(c.trades, 0),
           t.buyQty + c.buyQty, t.sellQty + c.sellQty,
           t.buyNotional + c.buyNotional, t.sellNotional + c.sellNotional,
           Higher(t.highPrice, c.highPrice), Lower(t.lowPrice, c.lowPrice),
           AddLevels(t.profile, c.levels), AddWhale(t.whale, c.whale))
  }

  function Opening(e: Edge, c: Chunk): Edge {
    if e.at.None? || c.start < e.at.value then Edge(Some(c.start), c.firstPrice) else e
  }

  function Closing(e: Edge, c: Chunk): Edge {
    if e.at.None? || c.end >= e.at.value then Edge(Some(c.end), c.lastPrice) else e
  }

  function ApplyChunk(t: Trade, c: Chunk): Trade {
    Trade(AddTotals(t.totals, c), Opening(t.open, c), Closing(t.close, c))
  }

  function ApplyAll(t: Trade, chunks: seq<Chunk>): Trade {
    if chunks == [] then t else ApplyChunk(ApplyAll(t, chunks[..|chunks| - 1]), chunks[|chunks| - 1])
  }

  // ---------------------------------------------------------------- the accumulator object

  class TradeAgg {
    var sourceEventCount: int
    var tradeCount: int
    var buyQty: real
    var sellQty: real
    var buyNotional: real
    var sellNotional: real
    var firstChunkStart: Option<int>
    var firstPrice: Option<real>
    var lastChunkEnd: Option<int>
    var lastPrice: Option<real>
    var highPrice: Option<real>
    var lowPrice: Option<real>
    var profile: Profile
    var whale: Whale

    function View(): Trade
      reads this
    {
      Trade(Totals(sourceEventCount, tradeCount, buyQty, sellQty, buyNotional, sellNotional,
                   highPrice, lowPrice, profile, whale),
            Edge(firstChunkStart, firstPrice), Edge(lastChunkEnd, lastPrice))
    }

    constructor (t: Trade)
      ensures View() == t
    {
      sourceEventCount, tradeCount := t.totals.sourceEvents, t.totals.trades;
      buyQty, sellQty := t.totals.buyQty, t.totals.sellQty;
      buyNotional, sellNotional := t.totals.buyNotional, t.totals.sellNotional;
      highPrice, lowPrice := t.totals.highPrice, t.totals.lowPrice;
      profile, whale := t.totals.profile, t.totals.whale;
      firstChunkStart, firstPrice := t.open.at, t.open.price;
      lastChunkEnd, lastPrice := t.close.at, t.close.price;
    }

    method Apply(event: Chunk)
      modifies this
      ensures View() == ApplyChunk(old(View()), event)
    {
      hide Higher, Lower, Opening, Closing, AddLevels, AddWhale, Max;
      AddSums(event);
      TakeEdges(event);
      TakeExtremes(event);
      AddProfile(event.levels);
      AddWhaleStats(event.whale);
    }

    method AddWhaleStats(x: Whale)
      modifies this`whale
      ensures whale == AddWhale(old(whale), x)
    {
      whale := whale.(trades := whale.trades + Max(x.trades, 0), buys := whale.buys + Max(x.buys, 0),
                      sells := whale.sells + Max(x.sells, 0));
      whale := whale.(notionalTotal := whale.notionalTotal + x.notionalTotal,
                      notionalBuy := whale.notionalBuy + x.notionalBuy,
                      notionalSell := whale.notionalSell + x.notionalSell);
      whale := whale.(qtyTotal := whale.qtyTotal + x.qtyTotal, qtyBuy := whale.qtyBuy + x.qtyBuy,
                      qtySell := whale.qtySell + x.qtySell);
      whale := whale.(maxSingle := MaxReal(whale.maxSingle, x.maxSingle));
    }

    method AddSums(event: Chunk)
      modifies this`sourceEventCount, this`tradeCount, this`buyQty, this`sellQty, this`buyNotional, this`sellNotional
      ensures sourceEventCount == old(sourceEventCount) + Max(event.sourceEvents, 0)
      ensures tradeCount == old(tradeCount) + Max(event.trades, 0)
      ensures buyQty == old(buyQty) + event.buyQty && sellQty == old(sellQty) + event.sellQty
      ensures buyNotional == old(buyNotional) + event.buyNotional
      ensures sellNotional == old(sellNotional) + event.sellNotional
    {
      sourceEventCount := sourceEventCount + Max(event.sourceEvents, 0);
      tradeCount := tradeCount + Max(event.trades, 0);
      buyQty := buyQty + event.buyQty;
      sellQty := sellQty + event.sellQty;
      buyNotional := buyNotional + event.buyNotional;
      sellNotional := sellNotional + event.sellNotional;
    }

    method TakeEdges(event: Chunk)
      modifies this`firstChunkStart, this`firstPrice, this`lastChunkEnd, this`lastPrice
      ensures Edge(firstChunkStart, firstPrice) == Opening(old(Edge(firstChunkStart, firstPrice)), event)
      ensures Edge(lastChunkEnd, lastPrice) == Closing(old(Edge(lastChunkEnd, lastPrice)), event)
    {
      if firstChunkStart.None? || event.start < firstChunkStart.value {
        firstChunkStart := Some(event.start);
        firstPrice := event.firstPrice;
      }
      if lastChunkEnd.None? || event.end >= lastChunkEnd.value {
        lastChunkEnd := Some(event.end);
        lastPrice := event.lastPrice;
      }
    }

    method TakeExtremes(event: Chunk)
      modifies this`highPrice, this`lowPrice
      ensures highPrice == Higher(old(highPrice), event.highPrice)
      ensures lowPrice == Lower(old(lowPrice), event.lowPrice)
    {
      if event.highPrice.Some? {
        var high := event.highPrice.value;
        highPrice := Some(if highPrice.None? then high else MaxReal(highPrice.value, high));
      }
      if event.lowPrice.Some? {
        var low := event.lowPrice.value;
        lowPrice := Some(if lowPrice.None? then low else MinReal(lowPrice.value, low));
      }
    }

    method AddProfile(levels: seq<Level>)
      modifies this`profile
      ensures profile == AddLevels(old(profile), levels)
    {
      for i := 0 to |levels|
        invariant profile == AddLevels(old(profile), levels[..i])
      {
        var tick := PriceToTick(levels[i].price);
        if tick !in profile {
          profile := profile[tick := (0.0, 0.0)];
        }
        profile := profile[tick := (profile[tick].0 + levels[i].buyQty, profile[tick].1 + levels[i].sellQty)];
        assert levels[..i + 1][..i] == levels[..i];
      }
      assert levels[..|levels|] == levels;
    }
  }

  // ---------------------------------------------------------------- what a profile holds

  /** Buy and sell volume that the levels put on a tick. */
  function VolumeAt(levels: seq<Level>, tick: int): (real, real) {
    if levels == [] then (0.0, 0.0)
    else
      var (rest, last) := (VolumeAt(levels[..|levels| - 1], tick), levels[|levels| - 1]);
      if PriceToTick(last.price) == tick then (rest.0 + last.buyQty, rest.1 + last.sellQty) else rest
  }

  predicate Touches(levels: seq<Level>, tick: int) {
    exists k :: 0 <= k < |levels| && PriceToTick(levels[k].price) == tick
  }

  lemma {:induction false} ProfileSumsLevels(profile: Profile, levels: seq<Level>, tick: int)
    ensures tick in AddLevels(profile, levels) <==> tick in profile || Touches(levels, tick)
    ensures At(AddLevels(profile, levels), tick).0 == At(profile, tick).0 + VolumeAt(levels, tick).0
    ensures At(AddLevels(profile, levels), tick).1 == At(profile, tick).1 + VolumeAt(levels, tick).1
  {
    if levels == [] {
    } else {
      var init, last := levels[..|levels| - 1], levels[|levels| - 1];
      ProfileSumsLevels(profile, init, tick);
      assert Touches(levels, tick) <==> Touches(init, tick) || PriceToTick(last.price) == tick by {
        assert forall k :: 0 <= k < |init| ==> levels[k] == init[k];
        if Touches(init, tick) {
          var k :| 0 <= k < |init| && PriceToTick(init[k].price) == tick;
          assert PriceToTick(levels[k].price) == tick;
        }
      }
    }
  }

  /** One more level adds its buy volume to the buy side and its sell volume to the sell side of its own tick only. */
  lemma {:induction false} LevelAddsOnce(profile: Profile, levels: seq<Level>, level: Level, tick: int)
    ensures var before, after := AddLevels(profile, levels), AddLevels(profile, levels + [level]);
            && after.Keys == before.Keys + {PriceToTick(level.price)}
            && (tick == PriceToTick(level.price) ==>
                  && after[tick].0 == (if tick in before then before[tick].0 else 0.0) + level.buyQty
                  && after[tick].1 == (if tick in before then before[tick].1 else 0.0) + level.sellQty)
            && (tick in before && tick != PriceToTick(level.price) ==> after[tick] == before[tick])
  {
    assert (levels + [level])[..|levels|] == levels;
  }

  // ---------------------------------------------------------------- what the totals are

  function AddAll(t: Totals, chunks: seq<Chunk>): Totals {
    if chunks == [] then t else AddTotals(AddAll(t, chunks[..|chunks| - 1]), chunks[|chunks| - 1])
  }

  /** The quantities that add up, each named on a chunk and on the totals. */
  datatype Measure =
    | SourceEvents | Trades | BuyQty | SellQty | BuyNotional | SellNotional
    | WhaleTrades | WhaleBuys | WhaleSells
    | WhaleNotional | WhaleNotionalBuy | WhaleNotionalSell | WhaleQty | WhaleQtyBuy | WhaleQtySell

  function Contributes(c: Chunk, m: Measure): real {
    match m
    case SourceEvents => Max(c.sourceEvents, 0) as real
    case Trades => Max(c.trades, 0) as real
    case BuyQty => c.buyQty
    case SellQty => c.sellQty
    case BuyNotional => c.buyNotional
    case SellNotional => c.sellNotional
    case WhaleTrades => Max(c.whale.trades, 0) as real
    case WhaleBuys => Max(c.whale.buys, 0) as real
    case WhaleSells => Max(c.whale.sells, 0) as real
    case WhaleNotional => c.whale.notionalTotal
    case WhaleNotionalBuy => c.whale.notionalBuy
    case WhaleNotionalSell => c.whale.notionalSell
    case WhaleQty => c.whale.qtyTotal
    case WhaleQtyBuy => c.whale.qtyBuy
    case WhaleQtySell => c.whale.qtySell
  }

  function Recorded(t: Totals, m: Measure): real {
    match m
    case SourceEvents => t.sourceEvents as real
    case Trades => t.trades as real
    case BuyQty => t.buyQty
    case SellQty => t.sellQty
    case BuyNotional => t.buyNotional
    case SellNotional => t.sellNotional
    case WhaleTrades => t.whale.trades as real
    case WhaleBuys => t.whale.buys as real
    case WhaleSells => t.whale.sells as real
    case WhaleNotional => t.whale.notionalTotal
    case WhaleNotionalBuy => t.whale.notionalBuy
    case WhaleNotionalSell => t.whale.notionalSell
    case WhaleQty => t.whale.qtyTotal
    case WhaleQtyBuy => t.whale.qtyBuy
    case WhaleQtySell => t.whale.qtySell
  }

  function SumOf(chunks: seq<Chunk>, m: Measure): real {
    if chunks == [] then 0.0 else SumOf(chunks[..|chunks| - 1], m) + Contributes(chunks[|chunks| - 1], m)
  }

  /** Every additive field of the totals is the sum of the chunks' own field, counts clamped at zero. */
  lemma {:induction false} TotalsAreSums(chunks: seq<Chunk>, m: Measure)
    ensures Recorded(AddAll(NO_TOTALS, chunks), m) == SumOf(chunks, m)
  {
    if chunks == [] {
    } else {
      TotalsAreSums(chunks[..|chunks| - 1], m);
      AddsOne(AddAll(NO_TOTALS, chunks[..|chunks| - 1]), chunks[|chunks| - 1], m);
    }
  }

  lemma AddsOne(t: Totals, c: Chunk, m: Measure)
    ensures Recorded(AddTotals(t, c), m) == Recorded(t, m) + Contributes(c, m)
  {
    hide AddLevels, Max, Higher, Lower;
  }

  /** high and low are the extremes of the prices the chunks carry, absent exactly when none carries one. */
  ghost predicate AreExtremes(t: Totals, chunks: seq<Chunk>) {
    && (t.highPrice.None? <==> forall c :: c in chunks ==> c.highPrice.None?)
    && (t.highPrice.Some? ==> exists c :: c in chunks && c.highPrice == t.highPrice)
    && (t.highPrice.Some? ==> forall c :: c in chunks && c.highPrice.Some? ==> c.highPrice.value <= t.highPrice.value)
    && (t.lowPrice.None? <==> forall c :: c in chunks ==> c.lowPrice.None?)
    && (t.lowPrice.Some? ==> exists c :: c in chunks && c.lowPrice == t.lowPrice)
    && (t.lowPrice.Some? ==> forall c :: c in chunks && c.lowPrice.Some? ==> t.lowPrice.value <= c.lowPrice.value)
    && 0.0 <= t.whale.maxSingle && (forall c :: c in chunks ==> c.whale.maxSingle <= t.whale.maxSingle)
    && (t.whale.maxSingle == 0.0 || exists c :: c in chunks && c.whale.maxSingle == t.whale.maxSingle)
  }

  lemma {:induction false} TotalsAreExtremes(chunks: seq<Chunk>)
    ensures AreExtremes(AddAll(NO_TOTALS, chunks), chunks)
  {
    if chunks == [] {
    } else {
      var init, last := chunks[..|chunks| - 1], chunks[|chunks| - 1];
      TotalsAreExtremes(init);
      assert chunks == init + [last];
      ExtremesGrow(AddAll(NO_TOTALS, init), init, last);
    }
  }

  lemma {:induction false} ExtremesGrow(t: Totals, chunks: seq<Chunk>, last: Chunk)
    requires AreExtremes(t, chunks)
    ensures AreExtremes(AddTotals(t, last), chunks + [last])
  {
    hide AddLevels;
    var all := chunks + [last];
    assert forall c :: c in all <==> c in chunks || c == last;
    assert last in all;
  }

  function LevelsOf(chunks: seq<Chunk>): seq<Level> {
    if chunks == [] then [] else LevelsOf(chunks[..|chunks| - 1]) + chunks[|chunks| - 1].levels
  }

  /** The minute's profile is that of all its chunks' levels together. */
  lemma {:induction false} TotalsProfile(chunks: seq<Chunk>)
    ensures AddAll(NO_TOTALS, chunks).profile == AddLevels(map[], LevelsOf(chunks))
  {
    if chunks == [] {
    } else {
      var init, last := chunks[..|chunks| - 1], chunks[|chunks| - 1];
      TotalsProfile(init);
      LevelsConcat(map[], LevelsOf(init), last.levels);
    }
  }

  lemma {:induction false} LevelsConcat(profile: Profile, xs: seq<Level>, ys: seq<Level>)
    ensures AddLevels(profile, xs + ys) == AddLevels(AddLevels(profile, xs), ys)
    decreases |ys|
  {
    if ys == [] {
      assert xs + ys == xs;
    } else {
      assert (xs + ys)[..|xs + ys| - 1] == xs + ys[..|ys| - 1];
      LevelsConcat(profile, xs, ys[..|ys| - 1]);
    }
  }

  // ---------------------------------------------------------------- order of arrival

  lemma {:induction false} LevelsCommute(profile: Profile, xs: seq<Level>, ys: seq<Level>)
    ensures AddLevels(AddLevels(profile, xs), ys) == AddLevels(AddLevels(profile, ys), xs)
  {
    var (p, q) := (AddLevels(AddLevels(profile, xs), ys), AddLevels(AddLevels(profile, ys), xs));
    forall tick ensures (tick in p <==> tick in q) && (tick in p ==> p[tick] == q[tick]) {
      ProfileSumsLevels(profile, xs, tick);
      ProfileSumsLevels(AddLevels(profile, xs), ys, tick);
      ProfileSumsLevels(profile, ys, tick);
      ProfileSumsLevels(AddLevels(profile, ys), xs, tick);
      assert At(p, tick).0 == At(q, tick).0 && At(p, tick).1 == At(q, tick).1;
    }
  }

  lemma {:induction false} TotalsCommute(t: Totals, a: Chunk, b: Chunk)
    ensures AddTotals(AddTotals(t, a), b) == AddTotals(AddTotals(t, b), a)
  {
    hide AddLevels, Max, MaxReal;
    LevelsCommute(t.profile, a.levels, b.levels);
    WhaleCommutes(t.whale, a.whale, b.whale);
    ExtremesCommute(t, a, b);
  }

  lemma {:induction false} WhaleCommutes(w: Whale, x: Whale, y: Whale)
    ensures AddWhale(AddWhale(w, x), y) == AddWhale(AddWhale(w, y), x)
  {
    hide Max;
  }

  lemma {:induction false} ExtremesCommute(t: Totals, a: Chunk, b: Chunk)
    ensures Higher(Higher(t.highPrice, a.highPrice), b.highPrice) ==
            Higher(Higher(t.highPrice, b.highPrice), a.highPrice)
    ensures Lower(Lower(t.lowPrice, a.lowPrice), b.lowPrice) == Lower(Lower(t.lowPrice, b.lowPrice), a.lowPrice)
  {
  }

  /** A chunk counts the same wherever in the sequence it stands. */
  lemma {:induction false} MoveToEnd(t: Totals, xs: seq<Chunk>, k: nat)
    requires k < |xs|
    ensures AddAll(t, xs) == AddTotals(AddAll(t, xs[..k] + xs[k + 1..]), xs[k])
    decreases |xs|
  {
    hide AddTotals;
    var last := |xs| - 1;
    var rest := xs[..k] + xs[k + 1..];
    if k == last {
      assert rest == xs[..last];
    } else {
      MoveToEnd(t, xs[..last], k);
      assert xs[..last][..k] + xs[..last][k + 1..] == rest[..|rest| - 1];
      assert rest[|rest| - 1] == xs[last];
      TotalsCommute(AddAll(t, rest[..|rest| - 1]), xs[k], xs[last]);
    }
  }

  lemma {:induction false} TotalsIgnoreOrder(t: Totals, xs: seq<Chunk>, ys: seq<Chunk>)
    requires multiset(xs) == multiset(ys)
    ensures AddAll(t, xs) == AddAll(t, ys)
    decreases |xs|
  {
    hide AddTotals;
    if xs == [] {
      assert multiset(ys) == multiset{};
    } else {
      var k := WithoutLast(xs, ys);
      TotalsIgnoreOrder(t, xs[..|xs| - 1], ys[..k] + ys[k + 1..]);
      MoveToEnd(t, ys, k);
    }
  }

  lemma {:induction false} WithoutLast(xs: seq<Chunk>, ys: seq<Chunk>) returns (k: nat)
    requires multiset(xs) == multiset(ys) && xs != []
    ensures k < |ys| && ys[k] == xs[|xs| - 1]
    ensures multiset(xs[..|xs| - 1]) == multiset(ys[..k] + ys[k + 1..])
  {
    var init, last := xs[..|xs| - 1], xs[|xs| - 1];
    assert last in multiset(xs);
    k :| 0 <= k < |ys| && ys[k] == last;
    assert xs == init + [last];
    assert ys == ys[..k] + [last] + ys[k + 1..];
    assert multiset(xs) == multiset(init) + multiset{last};
    assert multiset(ys) == multiset(ys[..k] + ys[k + 1..]) + multiset{last};
    CancelOne(multiset(init), multiset(ys[..k] + ys[k + 1..]), last);
  }

  lemma CancelOne(a: multiset<Chunk>, b: multiset<Chunk>, c: Chunk)
    requires a + multiset{c} == b + multiset{c}
    ensures a == b
  {
    assert a == (a + multiset{c}) - multiset{c};
  }

  /** The opening price comes from the first listed of the chunks that start earliest. */
  ghost predicate IsOpening(chunks: seq<Chunk>, k: nat) {
    && k < |chunks|
    && (forall j :: 0 <= j < |chunks| ==> chunks[k].start <= chunks[j].start)
    && (forall j :: 0 <= j < k ==> chunks[k].start < chunks[j].start)
  }

  /** The closing price comes from the last listed of the chunks that end latest. */
  ghost predicate IsClosing(chunks: seq<Chunk>, k: nat) {
    && k < |chunks|
    && (forall j :: 0 <= j < |chunks| ==> chunks[j].end <= chunks[k].end)
    && (forall j :: k < j < |chunks| ==> chunks[j].end < chunks[k].end)
  }

  function OpeningOf(chunks: seq<Chunk>): Edge {
    if chunks == [] then Edge(None, None) else Opening(OpeningOf(chunks[..|chunks| - 1]), chunks[|chunks| - 1])
  }

  function ClosingOf(chunks: seq<Chunk>): Edge {
    if chunks == [] then Edge(None, None) else Closing(ClosingOf(chunks[..|chunks| - 1]), chunks[|chunks| - 1])
  }

  lemma {:induction false} ApplyAllParts(chunks: seq<Chunk>)
    ensures ApplyAll(NO_TRADE, chunks) == Trade(AddAll(NO_TOTALS, chunks), OpeningOf(chunks), ClosingOf(chunks))
  {
    hide AddTotals, Opening, Closing;
    if chunks == [] {
    } else {
      ApplyAllParts(chunks[..|chunks| - 1]);
    }
  }

  lemma {:induction false} OpeningChunk(chunks: seq<Chunk>) returns (k: nat)
    requires chunks != []
    ensures IsOpening(chunks, k) && OpeningOf(chunks) == Edge(Some(chunks[k].start), chunks[k].firstPrice)
  {
    var n := |chunks| - 1;
    k := n;
    if n > 0 {
      var j := OpeningChunk(chunks[..n]);
      k := if chunks[n].start < chunks[j].start then n else j;
    } else {
      assert OpeningOf(chunks[..0]) == Edge(None, None);
    }
  }

  lemma {:induction false} ClosingChunk(chunks: seq<Chunk>) returns (k: nat)
    requires chunks != []
    ensures IsClosing(chunks, k) && ClosingOf(chunks) == Edge(Some(chunks[k].end), chunks[k].lastPrice)
  {
    var n := |chunks| - 1;
    k := n;
    if n > 0 {
      var j := ClosingChunk(chunks[..n]);
      k := if chunks[n].end >= chunks[j].end then n else j;
    } else {
      assert ClosingOf(chunks[..0]) == Edge(None, None);
    }
  }

  lemma {:induction false} EdgesOf(chunks: seq<Chunk>) returns (first: nat, last: nat)
    requires chunks != []
    ensures IsOpening(chunks, first) && IsClosing(chunks, last)
    ensures ApplyAll(NO_TRADE, chunks) == Trade(AddAll(NO_TOTALS, chunks),
              Edge(Some(chunks[first].start), chunks[first].firstPrice),
              Edge(Some(chunks[last].end), chunks[last].lastPrice))
  {
    ApplyAllParts(chunks);
    first := OpeningChunk(chunks);
    last := ClosingChunk(chunks);
  }

  /** Chunks that tie for the earliest start agree on the first price, those that tie for the latest end on the last. */
  ghost predicate TiesAgree(chunks: seq<Chunk>) {
    && (forall a, b :: a in chunks && b in chunks && Earliest(chunks, a) && Earliest(chunks, b) ==>
          a.firstPrice == b.firstPrice)
    && (forall a, b :: a in chunks && b in chunks && Latest(chunks, a) && Latest(chunks, b) ==>
          a.lastPrice == b.lastPrice)
  }

  ghost predicate Earliest(chunks: seq<Chunk>, c: Chunk) { forall x :: x in chunks ==> c.start <= x.start }
  ghost predicate Latest(chunks: seq<Chunk>, c: Chunk) { forall x :: x in chunks ==> x.end <= c.end }

  ghost predicate SameForEveryOrder(chunks: seq<Chunk>) {
    forall ys: seq<Chunk> :: multiset(ys) == multiset(chunks) ==> ApplyAll(NO_TRADE, ys) == ApplyAll(NO_TRADE, chunks)
  }

  lemma {:induction false} SameMembers(xs: seq<Chunk>, ys: seq<Chunk>)
    requires multiset(xs) == multiset(ys)
    ensures forall c :: c in xs <==> c in ys
    ensures |xs| == |ys|
  {
    assert forall c :: c in xs <==> c in multiset(xs);
    assert forall c :: c in ys <==> c in multiset(ys);
    assert |multiset(xs)| == |xs| && |multiset(ys)| == |ys|;
  }

  lemma {:induction false} OrderIrrelevantIfTiesAgree(xs: seq<Chunk>, ys: seq<Chunk>)
    requires TiesAgree(xs) && multiset(xs) == multiset(ys)
    ensures ApplyAll(NO_TRADE, xs) == ApplyAll(NO_TRADE, ys)
  {
    SameMembers(xs, ys);
    if xs != [] {
      var f, l := EdgesOf(xs);
      var g, m := EdgesOf(ys);
      TotalsIgnoreOrder(NO_TOTALS, xs, ys);
      assert Earliest(xs, xs[f]) && Latest(xs, xs[l]);
      assert xs[f] in ys && xs[l] in ys && ys[g] in xs && ys[m] in xs;
      assert Earliest(xs, ys[g]) && Latest(xs, ys[m]);
    }
  }

  /** A chunk that starts earliest can be listed first, one that ends latest last. */
  lemma {:induction false} CanLead(chunks: seq<Chunk>, c: Chunk) returns (order: seq<Chunk>)
    requires c in chunks
    ensures multiset(order) == multiset(chunks) && order != [] && order[0] == c
  {
    var k :| 0 <= k < |chunks| && chunks[k] == c;
    assert chunks == chunks[..k] + [c] + chunks[k + 1..];
    order := [c] + chunks[..k] + chunks[k + 1..];
  }

  lemma {:induction false} CanTrail(chunks: seq<Chunk>, c: Chunk) returns (order: seq<Chunk>)
    requires c in chunks
    ensures multiset(order) == multiset(chunks) && order != [] && order[|order| - 1] == c
  {
    var k :| 0 <= k < |chunks| && chunks[k] == c;
    assert chunks == chunks[..k] + [c] + chunks[k + 1..];
    order := chunks[..k] + chunks[k + 1..] + [c];
  }

  lemma {:induction false} LeaderOpens(chunks: seq<Chunk>, c: Chunk)
    requires SameForEveryOrder(chunks) && c in chunks
    ensures Earliest(chunks, c) ==> ApplyAll(NO_TRADE, chunks).open.price == c.firstPrice
    ensures Latest(chunks, c) ==> ApplyAll(NO_TRADE, chunks).close.price == c.lastPrice
  {
    if Earliest(chunks, c) {
      var order := CanLead(chunks, c);
      var f, _ := EdgesOf(order);
      SameMembers(order, chunks);
      assert order[f] in chunks;
      assert f == 0;
    }
    if Latest(chunks, c) {
      var order := CanTrail(chunks, c);
      var _, l := EdgesOf(order);
      SameMembers(order, chunks);
      assert order[l] in chunks;
      assert l == |order| - 1;
    }
  }

  /** The aggregate is the same for every order of arrival exactly when ties agree. */
  lemma {:induction false} OrderIrrelevantExactly(chunks: seq<Chunk>)
    ensures SameForEveryOrder(chunks) <==> TiesAgree(chunks)
  {
    if TiesAgree(chunks) {
      forall ys: seq<Chunk> | multiset(ys) == multiset(chunks)
        ensures ApplyAll(NO_TRADE, ys) == ApplyAll(NO_TRADE, chunks)
      {
        OrderIrrelevantIfTiesAgree(chunks, ys);
      }
    }
    if SameForEveryOrder(chunks) {
      forall c | c in chunks
        ensures Earliest(chunks, c) ==> ApplyAll(NO_TRADE, chunks).open.price == c.firstPrice
        ensures Latest(chunks, c) ==> ApplyAll(NO_TRADE, chunks).close.price == c.lastPrice
      {
        LeaderOpens(chunks, c);
      }
    }
  }
}
