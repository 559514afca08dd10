/** Replay minutes kept per market, flushed as ordered events once a minute is complete. */
module MinuteAccumulator {
  import opened Options
  import opened Ordering
  import opened TradeAggregate
  import V = VpinBuckets

  datatype Market = Spot | Futures

  datatype Key = Key(ts: int, market: Market)

  /** Aggregates other than the trade one are kept as the list of the messages applied to them. */
  type Body = int

  datatype TradeEntry = TradeEntry(agg: Trade, vpin: V.Vpin)

  datatype Entry = Entry(
    trade: Option<TradeEntry>, book: Option<seq<Body>>, liq: Option<seq<Body>>, funding: Option<seq<Body>>)

  const NO_ENTRY := Entry(None, None, None, None)

  datatype Data =
    | TradeData(chunk: Chunk, snapshot: Option<V.Vpin>)
    | BookData(body: Body)
    | LiqData(body: Body)
    | FundingData(body: Body)
    | OtherData

  datatype Message = Message(key: Key, data: Data)

  datatype Content =
    | FundingContent(bodies: seq<Body>)
    | LiqContent(bodies: seq<Body>)
    | BookContent(bodies: seq<Body>)
    | TradeContent(trade: TradeEntry)

  datatype Event = Event(ts: int, content: Content, market: Market)

  type Minutes = map<Key, Entry>
  type VpinStates = map<Market, V.Vpin>

  const LAST_MILLI := 59_999

  // ---------------------------------------------------------------- orders

  /** Markets compare by name. */
  function MarketRank(m: Market): int { if m.Futures? then 0 else 1 }

  /** Message types compare by name: md.agg.funding_mark.1m, liq, orderbook, trade. */
  function KindRank(c: Content): int {
    match c
    case FundingContent(_) => 0
    case LiqContent(_) => 1
    case BookContent(_) => 2
    case TradeContent(_) => 3
  }

  predicate KeyBefore(a: Key, b: Key) {
    a.ts < b.ts || (a.ts == b.ts && MarketRank(a.market) < MarketRank(b.market))
  }

  predicate EventBefore(a: Event, b: Event) {
    || a.ts < b.ts
    || (a.ts == b.ts && KindRank(a.content) < KindRank(b.content))
    || (a.ts == b.ts && KindRank(a.content) == KindRank(b.content) && MarketRank(a.market) < MarketRank(b.market))
  }

  /** The comparison of events as a number. */
  function EventRank(e: Event): int { e.ts * 8 + KindRank(e.content) * 2 + MarketRank(e.market) }

  function MarketName(m: Market): string { if m.Spot? then "spot" else "futures" }

  const PREFIX := "md.agg."

  function KindSuffix(c: Content): string {
    match c
    case FundingContent(_) => "funding_mark.1m"
    case LiqContent(_) => "liq.1m"
    case BookContent(_) => "orderbook.1m"
    case TradeContent(_) => "trade.1m"
  }

  function MessageType(c: Content): string { PREFIX + KindSuffix(c) }

  /** The ranks are the order of the names. */
  lemma {:induction false} RanksCompareNames(a: Event, b: Event)
    ensures MarketRank(a.market) < MarketRank(b.market) <==> Lex(MarketName(a.market), MarketName(b.market), CharLess)
    ensures KindRank(a.content) < KindRank(b.content) <==> Lex(MessageType(a.content), MessageType(b.content), CharLess)
  {
    LexPrefix(PREFIX, KindSuffix(a.content), KindSuffix(b.content), CharLess);
    LexIrreflexive(KindSuffix(a.content));
    LexIrreflexive(MarketName(a.market));
  }

  lemma {:induction false} LexIrreflexive(x: string)
    ensures !Lex(x, x, CharLess)
  {
    if x == [] {
    } else {
      LexIrreflexive(x[1..]);
    }
  }

  lemma RankIsOrder(a: Event, b: Event)
    ensures EventRank(a) < EventRank(b) <==> EventBefore(a, b)
  {
  }

  // ---------------------------------------------------------------- what a minute emits

  function EventsOf(key: Key, entry: Entry): seq<Event> {
    var ts := key.ts + LAST_MILLI;
    (if entry.trade.Some? then [Event(ts, TradeContent(entry.trade.value), key.market)] else []) +
    (if entry.book.Some? then [Event(ts, BookContent(entry.book.value), key.market)] else []) +
    (if entry.liq.Some? then [Event(ts, LiqContent(entry.liq.value), key.market)] else []) +
    (if entry.funding.Some? then [Event(ts, FundingContent(entry.funding.value), key.market)] else [])
  }

  function EventKey(e: Event): Key { Key(e.ts - LAST_MILLI, e.market) }

  /** Some minute of m emits e. */
  ghost predicate Holds(m: Minutes, e: Event) {
    EventKey(e) in m && e in EventsOf(EventKey(e), m[EventKey(e)])
  }

  function Retained(m: Minutes, before: int): Minutes { map k | k in m && k.ts >= before :: m[k] }

  ghost predicate InOrder(events: seq<Event>) { Ascending(events, EventBefore) }

  /** The events of exactly the minutes before the bound, in strict order of time, type and market. */
  ghost predicate IsFlush(m: Minutes, before: int, events: seq<Event>) {
    && InOrder(events)
    && forall e :: e in events <==> Holds(m, e) && EventKey(e).ts < before
  }

  /** No two flushes of the same minutes differ. */
  lemma {:induction false} FlushIsDetermined(m: Minutes, before: int, xs: seq<Event>, ys: seq<Event>)
    requires IsFlush(m, before, xs) && IsFlush(m, before, ys)
    ensures xs == ys
  {
    hide Holds;
    AscendingUnique(xs, ys, EventBefore);
  }

  lemma {:induction false} EventsOfKey(key: Key, entry: Entry)
    ensures forall e :: e in EventsOf(key, entry) ==> EventKey(e) == key
    ensures DistinctKeys(EventsOf(key, entry), EventRank)
  {
  }

  /** A minute emits one event for each kind of data it has, stamped with its last millisecond, and nothing else. */
  lemma {:induction false} EventsExactly(key: Key, entry: Entry, e: Event)
    ensures e in EventsOf(key, entry) <==>
            && e.ts + 1 == key.ts + 60_000 && e.market == key.market
            && match e.content
               case TradeContent(trade) => entry.trade == Some(trade)
               case BookContent(bodies) => entry.book == Some(bodies)
               case LiqContent(bodies) => entry.liq == Some(bodies)
               case FundingContent(bodies) => entry.funding == Some(bodies)
  {
  }

  lemma RankDecodes(a: Event, b: Event)
    requires EventRank(a) == EventRank(b)
    ensures EventKey(a) == EventKey(b)
  {
  }

  /** The events of the listed minutes, minute after minute. */
  function Emitted(m: Minutes, keys: seq<Key>): seq<Event>
    requires forall k :: k in keys ==> k in m
  {
    if keys == [] then []
    else
      var last := keys[|keys| - 1];
      Emitted(m, keys[..|keys| - 1]) + EventsOf(last, m[last])
  }

  function Without(m: Minutes, keys: seq<Key>): Minutes { map k | k in m && k !in keys :: m[k] }

  lemma WithoutReady(m: Minutes, before: int, keys: seq<Key>)
    requires forall k :: k in keys <==> k in m && k.ts < before
    ensures Without(m, keys) == Retained(m, before)
  {
  }

  lemma NothingEmitted(m: Minutes)
    ensures Emitted(m, []) == [] && Without(m, []) == m
  {
  }

  lemma {:induction false} EmittedStep(m: Minutes, keys: seq<Key>, i: nat)
    requires i < |keys| && forall k :: k in keys ==> k in m
    requires forall i, j :: 0 <= i < j < |keys| ==> keys[i] != keys[j]
    ensures keys[i] !in keys[..i] && keys[..i + 1] == keys[..i] + [keys[i]]
    ensures Emitted(m, keys[..i + 1]) == Emitted(m, keys[..i]) + EventsOf(keys[i], m[keys[i]])
    ensures keys[i] in Without(m, keys[..i]) && Without(m, keys[..i])[keys[i]] == m[keys[i]]
    ensures Without(m, keys[..i + 1]) == Without(m, keys[..i]) - {keys[i]}
  {
    assert keys[..i + 1][..i] == keys[..i];
  }

  lemma {:induction false} EmittedExactly(m: Minutes, keys: seq<Key>)
    requires forall k :: k in keys ==> k in m
    requires forall i, j :: 0 <= i < j < |keys| ==> keys[i] != keys[j]
    ensures forall e :: e in Emitted(m, keys) <==> Holds(m, e) && EventKey(e) in keys
    ensures DistinctKeys(Emitted(m, keys), EventRank)
  {
    if keys == [] {
    } else {
      var init, last := keys[..|keys| - 1], keys[|keys| - 1];
      var before, own := Emitted(m, init), EventsOf(last, m[last]);
      EmittedExactly(m, init);
      EventsOfKey(last, m[last]);
      assert keys == init + [last] && last !in init;
      hide EventsOf, EventRank, EventKey;
      OtherRanks(before, own, last);
    }
  }

  /** Events of other minutes have other ranks. */
  lemma {:induction false} OtherRanks(before: seq<Event>, own: seq<Event>, key: Key)
    requires forall e :: e in before ==> EventKey(e) != key
    requires forall e :: e in own ==> EventKey(e) == key
    ensures forall i, j :: 0 <= i < |before| && 0 <= j < |own| ==> EventRank(before[i]) != EventRank(own[j])
  {
    hide EventRank, EventKey;
    forall i, j | 0 <= i < |before| && 0 <= j < |own| ensures EventRank(before[i]) != EventRank(own[j]) {
      assert before[i] in before && own[j] in own;
      if EventRank(before[i]) == EventRank(own[j]) {
        RankDecodes(before[i], own[j]);
      }
    }
  }

  /** Sorting what the ready minutes emit gives their flush. */
  lemma {:induction false} SortedIsFlush(m: Minutes, before: int, keys: seq<Key>)
    requires forall k :: k in keys <==> k in m && k.ts < before
    requires forall i, j :: 0 <= i < j < |keys| ==> keys[i] != keys[j]
    ensures IsFlush(m, before, SortBy(Emitted(m, keys), EventRank))
  {
    hide EventRank, EventBefore, Holds, Emitted;
    var out := SortBy(Emitted(m, keys), EventRank);
    EmittedExactly(m, keys);
    SortByDistinct(Emitted(m, keys), EventRank);
    forall i, j | 0 <= i < j < |out| ensures EventBefore(out[i], out[j]) {
      RankIsOrder(out[i], out[j]);
    }
    forall e ensures e in out <==> Holds(m, e) && EventKey(e).ts < before {
      HoldsKey(m, e);
    }
  }

  lemma HoldsKey(m: Minutes, e: Event)
    ensures Holds(m, e) ==> EventKey(e) in m
  {
  }

  // ---------------------------------------------------------------- ingesting

  datatype Acc = Acc(minutes: Minutes, vpins: VpinStates)

  function EntryAt(m: Minutes, key: Key): Entry { if key in m then m[key] else NO_ENTRY }

  function VpinAt(v: VpinStates, market: Market): V.Vpin { if market in v then v[market] else V.EMPTY }

  const VPIN_PARAMETERS := V.Config(V.DEFAULT_BUCKET_SIZE, V.DEFAULT_ROLLING_BUCKETS, V.TOLERANCE)

  function NextVpin(state: V.Vpin, chunk: Chunk, snapshot: Option<V.Vpin>): V.Vpin {
    if snapshot.Some? then snapshot.value
    else V.Feed(VPIN_PARAMETERS, state, MaxReal(chunk.buyQty, 0.0), MaxReal(chunk.sellQty, 0.0))
  }

  function Appended(bodies: Option<seq<Body>>, body: Body): Option<seq<Body>> {
    Some(bodies.UnwrapOr([]) + [body])
  }

  function Grown(entry: Entry, data: Data, vpin: V.Vpin): Entry {
    match data
    case TradeData(chunk, _) =>
      var agg := if entry.trade.Some? then entry.trade.value.agg else NO_TRADE;
      entry.(trade := Some(TradeEntry(ApplyChunk(agg, chunk), vpin)))
    case BookData(body) => entry.(book := Appended(entry.book, body))
    case LiqData(body) => entry.(liq := Appended(entry.liq, body))
    case FundingData(body) => entry.(funding := Appended(entry.funding, body))
    case OtherData => entry
  }

  function IngestedVpins(v: VpinStates, msg: Message): VpinStates {
    if msg.data.TradeData? then
      v[msg.key.market := NextVpin(VpinAt(v, msg.key.market), msg.data.chunk, msg.data.snapshot)]
    else v
  }

  /** One message: its minute is opened if need be, even when the message turns out to be of no known type. */
  function Ingested(acc: Acc, msg: Message): Acc {
    var vpins := IngestedVpins(acc.vpins, msg);
    var entry := Grown(EntryAt(acc.minutes, msg.key), msg.data, VpinAt(vpins, msg.key.market));
    Acc(acc.minutes[msg.key := entry], vpins)
  }

  /**
   A trade moves its own market's machine only, on buckets of 50 over a window of 50 with a tolerance of 1e-12, or
   replaces it by the snapshot it carries; no other message moves a machine.
   */
  lemma {:induction false} TradeMovesItsMachine(acc: Acc, msg: Message, market: Market)
    ensures var (before, after) := (acc.vpins, Ingested(acc, msg).vpins);
            if !msg.data.TradeData? || market != msg.key.market then
              (market in after <==> market in before) && (market in before ==> after[market] == before[market])
            else
              && market in after
              && match msg.data.snapshot
                 case Some(state) => after[market] == state
                 case None =>
                   var start := if market in before then before[market] else V.Vpin(0.0, 0.0, 0.0, [], 0.0, 0.0);
                   var (buy, sell) := (msg.data.chunk.buyQty, msg.data.chunk.sellQty);
                   after[market] == V.Feed(V.Config(50.0, 50, 0.000000000001), start,
                                           if buy > 0.0 then buy else 0.0, if sell > 0.0 then sell else 0.0)
  {
    hide V.Feed, Grown;
  }

  // ---------------------------------------------------------------- the accumulator object

  class CanonicalReplayAccumulator {
    var minutes: Minutes
    var vpinStates: VpinStates

    constructor ()
      ensures minutes == map[] && vpinStates == map[]
    {
      minutes, vpinStates := map[], map[];
    }

    method MergeChunk(current: Option<TradeEntry>, chunk: Chunk) returns (agg: Trade)
      ensures agg == ApplyChunk(if current.Some? then current.value.agg else NO_TRADE, chunk)
    {
      var acc := new TradeAgg(if current.Some? then current.value.agg else NO_TRADE);
      acc.Apply(chunk);
      agg := acc.View();
    }

    method AdvanceVpin(market: Market, chunk: Chunk, snapshot: Option<V.Vpin>) returns (taken: V.Vpin)
      modifies this`vpinStates
      ensures taken == NextVpin(VpinAt(old(vpinStates), market), chunk, snapshot)
      ensures vpinStates == old(vpinStates)[market := taken]
    {
      hide V.Feed;
      var state := new V.ReplayVpinState();
      state.Restore(VpinAt(vpinStates, market));
      if snapshot.Some? {
        state.Restore(snapshot.value);
      } else {
        state.IngestFlow(chunk.buyQty, chunk.sellQty);
      }
      taken := state.Snapshot();
      vpinStates := vpinStates[market := taken];
    }

    method Ingest(event: Message) returns (supported: bool)
      modifies this
      ensures Acc(minutes, vpinStates) == Ingested(old(Acc(minutes, vpinStates)), event)
      ensures supported <==> !event.data.OtherData?
    {
      hide ApplyChunk, NextVpin;
      var key := event.key;
      var entry := EntryAt(minutes, key);
      minutes := minutes[key := entry];
      supported := true;
      match event.data {
        case TradeData(chunk, snapshot) =>
          var agg := MergeChunk(entry.trade, chunk);
          var vpin := AdvanceVpin(key.market, chunk, snapshot);
          minutes := minutes[key := entry.(trade := Some(TradeEntry(agg, vpin)))];
        case BookData(body) =>
          minutes := minutes[key := entry.(book := Appended(entry.book, body))];
        case LiqData(body) =>
          minutes := minutes[key := entry.(liq := Appended(entry.liq, body))];
        case FundingData(body) =>
          minutes := minutes[key := entry.(funding := Appended(entry.funding, body))];
        case OtherData =>
          supported := false;
      }
    }

    method FlushBefore(readyBefore: int) returns (out: seq<Event>)
      modifies this`minutes
      ensures IsFlush(old(minutes), readyBefore, out)
      ensures minutes == Retained(old(minutes), readyBefore)
    {
      hide IsFlush, EventsOf, EventRank, Emitted, Without, Retained;
      var readyKeys := ReadyKeys(minutes, readyBefore);
      out := [];
      assert readyKeys[..0] == [];
      NothingEmitted(minutes);
      for i := 0 to |readyKeys|
        invariant minutes == Without(old(minutes), readyKeys[..i])
        invariant out == Emitted(old(minutes), readyKeys[..i])
      {
        var key := readyKeys[i];
        EmittedStep(old(minutes), readyKeys, i);
        out := out + EventsOf(key, minutes[key]);
        minutes := minutes - {key};
      }
      assert readyKeys[..|readyKeys|] == readyKeys;
      SortedIsFlush(old(minutes), readyBefore, readyKeys);
      WithoutReady(old(minutes), readyBefore, readyKeys);
      out := SortBy(out, EventRank);
    }
  }

  /** The keys before the bound, in key order. */
  function ReadyKeys(m: Minutes, before: int): (keys: seq<Key>)
    ensures forall k :: k in keys <==> k in m && k.ts < before
    ensures forall i, j :: 0 <= i < j < |keys| ==> keys[i] != keys[j]
  {
    var ready := set k | k in m && k.ts < before;
    ListedAscends(ready, KeyBefore);
    Listed(ready, KeyBefore)
  }

  // ---------------------------------------------------------------- flushing in several steps

  lemma {:induction false} RetainedHolds(m: Minutes, before: int, e: Event)
    ensures Holds(Retained(m, before), e) <==> Holds(m, e) && EventKey(e).ts >= before
  {
  }

  /** Every accumulated event is emitted or still held, and never both. */
  lemma {:induction false} FlushPartitions(m: Minutes, before: int, out: seq<Event>, e: Event)
    requires IsFlush(m, before, out)
    ensures Holds(m, e) <==> e in out || Holds(Retained(m, before), e)
    ensures !(e in out && Holds(Retained(m, before), e))
  {
    RetainedHolds(m, before, e);
  }

  /** Flushing twice gives the same events, in the same order, as flushing once up to the later bound. */
  lemma {:induction false} FlushInTwoSteps(m: Minutes, t1: int, t2: int, first: seq<Event>, second: seq<Event>)
    requires t1 <= t2 && IsFlush(m, t1, first) && IsFlush(Retained(m, t1), t2, second)
    ensures IsFlush(m, t2, first + second)
    ensures Retained(Retained(m, t1), t2) == Retained(m, t2)
  {
    hide Holds, EventKey;
    forall e ensures e in first + second <==> Holds(m, e) && EventKey(e).ts < t2 {
      RetainedHolds(m, t1, e);
    }
    forall i, j | 0 <= i < |first| && 0 <= j < |second| ensures EventBefore(first[i], second[j]) {
      assert first[i] in first && second[j] in second;
      RetainedHolds(m, t1, second[j]);
      EarlierKey(first[i], second[j]);
    }
  }

  lemma EarlierKey(a: Event, b: Event)
    ensures EventKey(a).ts < EventKey(b).ts ==> EventBefore(a, b)
  {
  }

  // ---------------------------------------------------------------- whole replays

  datatype Op = Take(msg: Message) | Flush(bound: int)

  function FlushOf(m: Minutes, bound: int): seq<Event> {
    SortBy(Emitted(m, ReadyKeys(m, bound)), EventRank)
  }

  /** The state a replay leaves and the events it has emitted along the way. */
  function Replay(ops: seq<Op>): (Acc, seq<Event>) {
    if ops == [] then (Acc(map[], map[]), [])
    else
      var ((acc, out), last) := (Replay(ops[..|ops| - 1]), ops[|ops| - 1]);
      match last
      case Take(msg) => (Ingested(acc, msg), out)
      case Flush(bound) => (acc.(minutes := Retained(acc.minutes, bound)), out + FlushOf(acc.minutes, bound))
  }

  /** The same messages with no flushing at all. */
  function Accumulated(ops: seq<Op>): Acc {
    if ops == [] then Acc(map[], map[])
    else
      var (acc, last) := (Accumulated(ops[..|ops| - 1]), ops[|ops| - 1]);
      if last.Take? then Ingested(acc, last.msg) else acc
  }

  /** The latest flush bound, not below floor. */
  function Bound(ops: seq<Op>, floor: int): int {
    if ops == [] then floor
    else
      var (b, last) := (Bound(ops[..|ops| - 1], floor), ops[|ops| - 1]);
      if last.Flush? then Max(b, last.bound) else b
  }

  /** No message is for a minute already flushed, and bounds do not move back; floor is below everything. */
  ghost predicate OnTime(ops: seq<Op>, floor: int) {
    ops != [] ==>
      var (init, last) := (ops[..|ops| - 1], ops[|ops| - 1]);
      && OnTime(init, floor)
      && (last.Take? ==> Bound(init, floor) <= last.msg.key.ts)
      && (last.Flush? ==> Bound(init, floor) <= last.bound)
  }

  lemma {:induction false} IngestAboveBound(all: Acc, acc: Acc, msg: Message, bound: int, e: Event)
    requires bound <= msg.key.ts && acc == Acc(Retained(all.minutes, bound), all.vpins)
    ensures Ingested(acc, msg) == Acc(Retained(Ingested(all, msg).minutes, bound), Ingested(all, msg).vpins)
    ensures EventKey(e).ts < bound ==> (Holds(Ingested(all, msg).minutes, e) <==> Holds(all.minutes, e))
  {
    hide Grown, IngestedVpins;
  }

  lemma {:induction false} FlushOfIsFlush(m: Minutes, bound: int)
    ensures IsFlush(m, bound, FlushOf(m, bound))
  {
    SortedIsFlush(m, bound, ReadyKeys(m, bound));
  }

  /**
   A replay that flushes as it goes, with no message later than its minute's flush, emits exactly the events, in the
   order, of one flush after the last message, and holds exactly the rest.
   */
  lemma {:induction false} FlushingAsYouGo(ops: seq<Op>, floor: int)
    requires OnTime(ops, floor)
    ensures var ((acc, out), all) := (Replay(ops), Accumulated(ops));
            && IsFlush(all.minutes, Bound(ops, floor), out)
            && acc == Acc(Retained(all.minutes, Bound(ops, floor)), all.vpins)
            && (forall k :: k in all.minutes ==> floor <= k.ts)
    decreases |ops|
  {
    hide IsFlush, Retained, FlushOf, Ingested;
    if ops == [] {
      NothingReplayed(floor);
    } else {
      var (init, last) := (ops[..|ops| - 1], ops[|ops| - 1]);
      FlushingAsYouGo(init, floor);
      var ((acc, out), all, bound) := (Replay(init), Accumulated(init), Bound(init, floor));
      BoundAboveFloor(init, floor);
      match last {
        case Take(msg) =>
          MessageAboveBound(all, acc, msg, bound, out);
        case Flush(next) =>
          FlushOfIsFlush(acc.minutes, next);
          FlushInTwoSteps(all.minutes, bound, next, out, FlushOf(acc.minutes, next));
      }
    }
  }

  lemma {:induction false} MessageAboveBound(all: Acc, acc: Acc, msg: Message, bound: int, out: seq<Event>)
    requires bound <= msg.key.ts && acc == Acc(Retained(all.minutes, bound), all.vpins)
    requires IsFlush(all.minutes, bound, out)
    ensures Ingested(acc, msg) == Acc(Retained(Ingested(all, msg).minutes, bound), Ingested(all, msg).vpins)
    ensures IsFlush(Ingested(all, msg).minutes, bound, out)
    ensures forall k :: k in Ingested(all, msg).minutes <==> k in all.minutes || k == msg.key
  {
    hide Holds, EventKey, InOrder, Grown, IngestedVpins;
    IngestAboveBound(all, acc, msg, bound, Event(0, LiqContent([]), Spot));
    forall e ensures e in out <==> Holds(Ingested(all, msg).minutes, e) && EventKey(e).ts < bound {
      IngestAboveBound(all, acc, msg, bound, e);
    }
  }

  lemma NothingReplayed(floor: int)
    ensures IsFlush(map[], floor, []) && Retained(map[], floor) == map[]
  {
  }

  lemma {:induction false} BoundAboveFloor(ops: seq<Op>, floor: int)
    ensures floor <= Bound(ops, floor)
  {
    if ops == [] {
    } else {
      BoundAboveFloor(ops[..|ops| - 1], floor);
    }
  }

  /** A chunk that comes after its minute's flush makes the minute be emitted again, with that chunk alone. */
  lemma {:induction false} LateChunkSplitsMinute(all: Acc, msg: Message, bound: int, next: int)
    requires msg.data.TradeData? && msg.key.ts < bound <= next
    requires msg.key in all.minutes && all.minutes[msg.key].trade.Some?
    ensures var late := Ingested(all.(minutes := Retained(all.minutes, bound)), msg);
            var (first, second) := (FlushOf(all.minutes, bound), FlushOf(late.minutes, next));
            && msg.key in late.minutes && late.minutes[msg.key].trade.Some?
            && late.minutes[msg.key].trade.value.agg == ApplyChunk(NO_TRADE, msg.data.chunk)
            && !InOrder(first + second)
  {
    hide FlushOf, ApplyChunk, NextVpin;
    var key := msg.key;
    var late := Ingested(all.(minutes := Retained(all.minutes, bound)), msg);
    var first, second := FlushOf(all.minutes, bound), FlushOf(late.minutes, next);
    var a := Event(key.ts + LAST_MILLI, TradeContent(all.minutes[key].trade.value), key.market);
    var b := Event(key.ts + LAST_MILLI, TradeContent(late.minutes[key].trade.value), key.market);
    FlushOfIsFlush(all.minutes, bound);
    FlushOfIsFlush(late.minutes, next);
    EventsExactly(key, all.minutes[key], a);
    EventsExactly(key, late.minutes[key], b);
    OutOfOrder(first, second, a, b);
  }

  /** The events a late message adds: one of its own kind, or none when its type is unknown. */
  function LateEvents(late: Acc, msg: Message): seq<Event> {
    EventsOf(msg.key, EntryAt(late.minutes, msg.key))
  }

  predicate HasKind(entry: Entry, data: Data) {
    match data
    case TradeData(_, _) => entry.trade.Some?
    case BookData(_) => entry.book.Some?
    case LiqData(_) => entry.liq.Some?
    case FundingData(_) => entry.funding.Some?
    case OtherData => false
  }

  /** A minute that has nothing of the message's kind gains exactly the late event; one that has ties with it. */
  lemma {:induction false} GrownEvents(key: Key, entry: Entry, data: Data, vpin: V.Vpin, z: Event)
    ensures !HasKind(entry, data) ==>
              (z in EventsOf(key, Grown(entry, data, vpin)) <==>
                 z in EventsOf(key, entry) || z in EventsOf(key, Grown(NO_ENTRY, data, vpin)))
    ensures |EventsOf(key, Grown(NO_ENTRY, data, vpin))| == if data.OtherData? then 0 else 1
    ensures HasKind(entry, data) ==>
              exists x, y :: x in EventsOf(key, entry) && y in EventsOf(key, Grown(NO_ENTRY, data, vpin))
                && !EventBefore(x, y)
  {
    hide ApplyChunk;
    var late := Grown(NO_ENTRY, data, vpin);
    EventsExactly(key, entry, z);
    EventsExactly(key, late, z);
    EventsExactly(key, Grown(entry, data, vpin), z);
    if HasKind(entry, data) {
      TiedEvents(key, entry, late, data);
    }
  }

  lemma {:induction false} TiedEvents(key: Key, entry: Entry, late: Entry, data: Data)
    requires HasKind(entry, data) && HasKind(late, data)
    ensures exists x, y :: x in EventsOf(key, entry) && y in EventsOf(key, late) && !EventBefore(x, y)
  {
    var ts := key.ts + LAST_MILLI;
    match data {
      case TradeData(_, _) => Tied(key, entry, late, TradeContent(entry.trade.value), TradeContent(late.trade.value));
      case BookData(_) => Tied(key, entry, late, BookContent(entry.book.value), BookContent(late.book.value));
      case LiqData(_) => Tied(key, entry, late, LiqContent(entry.liq.value), LiqContent(late.liq.value));
      case FundingData(_) =>
        Tied(key, entry, late, FundingContent(entry.funding.value), FundingContent(late.funding.value));
    }
  }

  lemma {:induction false} Tied(key: Key, entry: Entry, late: Entry, c: Content, d: Content)
    requires KindRank(c) == KindRank(d)
    requires Event(key.ts + LAST_MILLI, c, key.market) in EventsOf(key, entry)
    requires Event(key.ts + LAST_MILLI, d, key.market) in EventsOf(key, late)
    ensures exists x, y :: x in EventsOf(key, entry) && y in EventsOf(key, late) && !EventBefore(x, y)
  {
    var x, y := Event(key.ts + LAST_MILLI, c, key.market), Event(key.ts + LAST_MILLI, d, key.market);
    assert !EventBefore(x, y);
  }

  lemma {:induction false} LateIngest(all: Acc, msg: Message, bound: int)
    requires msg.key.ts < bound
    ensures var late, full := Ingested(all.(minutes := Retained(all.minutes, bound)), msg), Ingested(all, msg);
            exists vpin ::
              && full.minutes == all.minutes[msg.key := Grown(EntryAt(all.minutes, msg.key), msg.data, vpin)]
              && late.minutes == Retained(all.minutes, bound)[msg.key := Grown(NO_ENTRY, msg.data, vpin)]
  {
    hide Grown, IngestedVpins;
    var vpin := VpinAt(IngestedVpins(all.vpins, msg), msg.key.market);
    assert Ingested(all, msg).minutes == all.minutes[msg.key := Grown(EntryAt(all.minutes, msg.key), msg.data, vpin)];
  }

  /** Which events the minutes with and without the early flush hold. */
  lemma {:induction false} LateHolds(all: Acc, msg: Message, bound: int, next: int, z: Event)
    requires msg.key.ts < bound <= next
    ensures var late := Ingested(all.(minutes := Retained(all.minutes, bound)), msg);
            && (Holds(late.minutes, z) <==>
                  z in LateEvents(late, msg) || (Holds(all.minutes, z) && bound <= EventKey(z).ts))
            && (!HasKind(EntryAt(all.minutes, msg.key), msg.data) ==>
                  (Holds(Ingested(all, msg).minutes, z) <==> Holds(all.minutes, z) || z in LateEvents(late, msg)))
            && (z in LateEvents(late, msg) ==> EventKey(z) == msg.key)
  {
    hide Grown, EventsOf;
    LateIngest(all, msg, bound);
    var late := Ingested(all.(minutes := Retained(all.minutes, bound)), msg);
    var vpin :|
      && Ingested(all, msg).minutes == all.minutes[msg.key := Grown(EntryAt(all.minutes, msg.key), msg.data, vpin)]
      && late.minutes == Retained(all.minutes, bound)[msg.key := Grown(NO_ENTRY, msg.data, vpin)];
    EventsOfKey(msg.key, Grown(NO_ENTRY, msg.data, vpin));
    GrownEvents(msg.key, EntryAt(all.minutes, msg.key), msg.data, vpin, z);
    NoEvents(msg.key);
  }

  lemma NoEvents(key: Key)
    ensures EventsOf(key, NO_ENTRY) == []
  {
  }

  /** A minute that already held the late message's kind has a flushed event the late one does not come after. */
  lemma {:induction false} LateTies(all: Acc, msg: Message, bound: int, first: seq<Event>)
    requires msg.key.ts < bound && IsFlush(all.minutes, bound, first)
    requires HasKind(EntryAt(all.minutes, msg.key), msg.data)
    ensures var late := Ingested(all.(minutes := Retained(all.minutes, bound)), msg);
            exists x, y :: x in first && y in LateEvents(late, msg) && !EventBefore(x, y)
  {
    hide Grown, EventsOf;
    var entry := EntryAt(all.minutes, msg.key);
    LateIngest(all, msg, bound);
    var late := Ingested(all.(minutes := Retained(all.minutes, bound)), msg);
    var vpin :|
      && Ingested(all, msg).minutes == all.minutes[msg.key := Grown(entry, msg.data, vpin)]
      && late.minutes == Retained(all.minutes, bound)[msg.key := Grown(NO_ENTRY, msg.data, vpin)];
    GrownEvents(msg.key, entry, msg.data, vpin, Event(0, LiqContent([]), Spot));
    var x, y :| x in EventsOf(msg.key, entry) && y in EventsOf(msg.key, Grown(NO_ENTRY, msg.data, vpin))
      && !EventBefore(x, y);
    EventsOfKey(msg.key, entry);
    assert Holds(all.minutes, x);
  }

  /**
   A message later than its minute's flush, exactly: flushing as you go still emits what one flush would if and only
   if every event already emitted comes before the event the message adds.  An unknown message adds none.
   */
  lemma {:induction false} LateMessageExactly(all: Acc, msg: Message, bound: int, next: int)
    requires msg.key.ts < bound <= next
    ensures var late := Ingested(all.(minutes := Retained(all.minutes, bound)), msg);
            var (first, second) := (FlushOf(all.minutes, bound), FlushOf(late.minutes, next));
            && |LateEvents(late, msg)| == (if msg.data.OtherData? then 0 else 1)
            && (IsFlush(Ingested(all, msg).minutes, next, first + second) <==>
                  forall x, y :: x in first && y in LateEvents(late, msg) ==> EventBefore(x, y))
  {
    hide FlushOf, Holds, Ingested, LateEvents, EventKey, EventBefore, HasKind;
    var late := Ingested(all.(minutes := Retained(all.minutes, bound)), msg);
    var first, second := FlushOf(all.minutes, bound), FlushOf(late.minutes, next);
    FlushOfIsFlush(all.minutes, bound);
    FlushOfIsFlush(late.minutes, next);
    LateCount(all, msg, bound);
    forall z
      ensures z in second <==> (z in LateEvents(late, msg) || (Holds(all.minutes, z) && bound <= EventKey(z).ts < next))
      ensures z in LateEvents(late, msg) ==> EventKey(z) == msg.key && z in second
    {
      LateHolds(all, msg, bound, next, z);
    }
    if forall x, y :: x in first && y in LateEvents(late, msg) ==> EventBefore(x, y) {
      LateInOrder(all, msg, bound, next, first, second);
    } else {
      var x, y :| x in first && y in LateEvents(late, msg) && !EventBefore(x, y);
      OutOfOrder(first, second, x, y);
    }
  }

  lemma {:induction false} LateCount(all: Acc, msg: Message, bound: int)
    requires msg.key.ts < bound
    ensures var late := Ingested(all.(minutes := Retained(all.minutes, bound)), msg);
            |LateEvents(late, msg)| == if msg.data.OtherData? then 0 else 1
  {
    hide Grown, EventsOf;
    LateIngest(all, msg, bound);
    var late := Ingested(all.(minutes := Retained(all.minutes, bound)), msg);
    var vpin :|
      && Ingested(all, msg).minutes == all.minutes[msg.key := Grown(EntryAt(all.minutes, msg.key), msg.data, vpin)]
      && late.minutes == Retained(all.minutes, bound)[msg.key := Grown(NO_ENTRY, msg.data, vpin)];
    GrownEvents(msg.key, NO_ENTRY, msg.data, vpin, Event(0, LiqContent([]), Spot));
  }

  lemma {:induction false} OutOfOrder(first: seq<Event>, second: seq<Event>, x: Event, y: Event)
    requires x in first && y in second && !EventBefore(x, y)
    ensures !InOrder(first + second)
  {
    var i :| 0 <= i < |first| && first[i] == x;
    var j :| 0 <= j < |second| && second[j] == y;
    assert !EventBefore((first + second)[i], (first + second)[|first| + j]);
  }

  lemma {:induction false} LateInOrder(
    all: Acc, msg: Message, bound: int, next: int, first: seq<Event>, second: seq<Event>)
    requires msg.key.ts < bound <= next && IsFlush(all.minutes, bound, first)
    requires var late := Ingested(all.(minutes := Retained(all.minutes, bound)), msg);
             && IsFlush(late.minutes, next, second)
             && forall x, y :: x in first && y in LateEvents(late, msg) ==> EventBefore(x, y)
    ensures IsFlush(Ingested(all, msg).minutes, next, first + second)
  {
    hide Holds, Ingested, LateEvents, EventKey, EventBefore, HasKind;
    var late := Ingested(all.(minutes := Retained(all.minutes, bound)), msg);
    if HasKind(EntryAt(all.minutes, msg.key), msg.data) {
      LateTies(all, msg, bound, first);
    }
    forall z ensures z in first + second <==> Holds(Ingested(all, msg).minutes, z) && EventKey(z).ts < next {
      LateHolds(all, msg, bound, next, z);
    }
    forall i, j | 0 <= i < |first| && 0 <= j < |second| ensures EventBefore(first[i], second[j]) {
      assert first[i] in first && second[j] in second;
      LateHolds(all, msg, bound, next, second[j]);
      EarlierKey(first[i], second[j]);
    }
  }

  // ---------------------------------------------------------------- what a minute has gathered

  /** The trade chunks taken for a minute, in order of arrival. */
  function ChunksFor(ops: seq<Op>, key: Key): seq<Chunk> {
    if ops == [] then []
    else
      var (rest, last) := (ChunksFor(ops[..|ops| - 1], key), ops[|ops| - 1]);
      if last.Take? && last.msg.key == key && last.msg.data.TradeData? then rest + [last.msg.data.chunk] else rest
  }

  /** A minute's trade aggregate is the fold of its own chunks, whatever came between them. */
  lemma {:induction false} MinuteFoldsItsChunks(ops: seq<Op>, key: Key)
    ensures var (entry, chunks) := (EntryAt(Accumulated(ops).minutes, key), ChunksFor(ops, key));
            && (entry.trade.Some? <==> chunks != [])
            && (entry.trade.Some? ==> entry.trade.value.agg == ApplyAll(NO_TRADE, chunks))
    decreases |ops|
  {
    hide ApplyChunk, NextVpin;
    if ops == [] {
    } else {
      var (init, last) := (ops[..|ops| - 1], ops[|ops| - 1]);
      MinuteFoldsItsChunks(init, key);
      var rest := ChunksFor(init, key);
      if last.Take? && last.msg.key == key && last.msg.data.TradeData? {
        assert ChunksFor(ops, key)[..|rest|] == rest;
      }
    }
  }

  datatype Kind = BookKind | LiqKind | FundingKind

  function BodiesFor(ops: seq<Op>, key: Key, kind: Kind): seq<Body> {
    if ops == [] then []
    else
      var (rest, last) := (BodiesFor(ops[..|ops| - 1], key, kind), ops[|ops| - 1]);
      if last.Take? && last.msg.key == key then
        match last.msg.data
        case BookData(body) => if kind.BookKind? then rest + [body] else rest
        case LiqData(body) => if kind.LiqKind? then rest + [body] else rest
        case FundingData(body) => if kind.FundingKind? then rest + [body] else rest
        case _ => rest
      else rest
  }

  function BodiesIn(entry: Entry, kind: Kind): Option<seq<Body>> {
    match kind
    case BookKind => entry.book
    case LiqKind => entry.liq
    case FundingKind => entry.funding
  }

  /** A minute's other aggregates have been applied exactly their own messages, in order of arrival. */
  lemma {:induction false} MinuteKeepsItsBodies(ops: seq<Op>, key: Key, kind: Kind)
    ensures var (entry, bodies) := (EntryAt(Accumulated(ops).minutes, key), BodiesFor(ops, key, kind));
            BodiesIn(entry, kind) == if bodies == [] then None else Some(bodies)
    decreases |ops|
  {
    hide ApplyChunk, NextVpin;
    if ops == [] {
    } else {
      MinuteKeepsItsBodies(ops[..|ops| - 1], key, kind);
    }
  }

  /** Two replays whose chunks of a minute are the same up to order give it the same aggregate when ties agree. */
  lemma {:induction false} ArrivalOrderIrrelevant(ops: seq<Op>, ops': seq<Op>, key: Key)
    requires multiset(ChunksFor(ops, key)) == multiset(ChunksFor(ops', key))
    requires TiesAgree(ChunksFor(ops, key))
    ensures var (e, e') := (EntryAt(Accumulated(ops).minutes, key), EntryAt(Accumulated(ops').minutes, key));
            && (e.trade.Some? <==> e'.trade.Some?)
            && (e.trade.Some? ==> e.trade.value.agg == e'.trade.value.agg)
  {
    MinuteFoldsItsChunks(ops, key);
    MinuteFoldsItsChunks(ops', key);
    SameMembers(ChunksFor(ops, key), ChunksFor(ops', key));
    OrderIrrelevantIfTiesAgree(ChunksFor(ops, key), ChunksFor(ops', key));
  }

  // ---------------------------------------------------------------- the readings

  ghost predicate SnapshotsSound(ops: seq<Op>) {
    forall k :: 0 <= k < |ops| && ops[k].Take? && ops[k].msg.data.TradeData? && ops[k].msg.data.snapshot.Some? ==>
      V.Sound(VPIN_PARAMETERS, ops[k].msg.data.snapshot.value)
  }

  /** The state a market's machine last restarted from, and the flows it has taken since. */
  function FlowsSince(ops: seq<Op>, market: Market): (V.Vpin, seq<(real, real)>) {
    if ops == [] then (V.EMPTY, [])
    else
      var ((start, flows), last) := (FlowsSince(ops[..|ops| - 1], market), ops[|ops| - 1]);
      if last.Take? && last.msg.data.TradeData? && last.msg.key.market == market then
        if last.msg.data.snapshot.Some? then (last.msg.data.snapshot.value, [])
        else
          var chunk := last.msg.data.chunk;
          (start, flows + [(MaxReal(chunk.buyQty, 0.0), MaxReal(chunk.sellQty, 0.0))])
      else (start, flows)
  }

  /** Each market's machine has been fed exactly its own trades since its last snapshot, whatever was flushed. */
  lemma {:induction false} MachineFedItsFlows(ops: seq<Op>, market: Market)
    ensures var (start, flows) := FlowsSince(ops, market);
            VpinAt(Replay(ops).0.vpins, market) == V.FeedAll(VPIN_PARAMETERS, start, flows)
    decreases |ops|
  {
    hide V.Feed, Grown, FlushOf, Retained;
    if ops == [] {
    } else {
      var (init, last) := (ops[..|ops| - 1], ops[|ops| - 1]);
      MachineFedItsFlows(init, market);
      if last.Take? && last.msg.data.TradeData? && last.msg.key.market == market && last.msg.data.snapshot.None? {
        var (start, flows) := FlowsSince(init, market);
        var chunk := last.msg.data.chunk;
        V.FeedAllSnoc(VPIN_PARAMETERS, start, flows, (MaxReal(chunk.buyQty, 0.0), MaxReal(chunk.sellQty, 0.0)));
      }
    }
  }

  /** The replay up to the last trade taken for a minute. */
  function UpToLastTrade(ops: seq<Op>, key: Key): seq<Op> {
    if ops == [] then []
    else
      var last := ops[|ops| - 1];
      if last.Take? && last.msg.key == key && last.msg.data.TradeData? then ops
      else UpToLastTrade(ops[..|ops| - 1], key)
  }

  /** A minute carries the state its market's machine was in right after the minute's last trade. */
  lemma {:induction false} MinuteCarriesReading(ops: seq<Op>, key: Key)
    ensures var (entry, upTo) := (EntryAt(Accumulated(ops).minutes, key), UpToLastTrade(ops, key));
            var (start, flows) := FlowsSince(upTo, key.market);
            && (entry.trade.Some? <==> upTo != [])
            && (entry.trade.Some? ==> entry.trade.value.vpin == V.FeedAll(VPIN_PARAMETERS, start, flows))
    decreases |ops|
  {
    hide V.Feed, V.FeedAll, ApplyChunk, FlowsSince;
    if ops == [] {
    } else {
      var (init, last) := (ops[..|ops| - 1], ops[|ops| - 1]);
      MinuteCarriesReading(init, key);
      if last.Take? && last.msg.key == key && last.msg.data.TradeData? {
        SameMachines(ops);
        MachineFedItsFlows(ops, key.market);
      }
    }
  }

  /** Flushing does not touch the machines. */
  lemma {:induction false} SameMachines(ops: seq<Op>)
    ensures Replay(ops).0.vpins == Accumulated(ops).vpins
  {
    hide NextVpin, Grown, FlushOf;
    if ops == [] {
    } else {
      SameMachines(ops[..|ops| - 1]);
    }
  }

  /** Every market's bucket machine stays sound through ingesting, restoring and flushing. */
  lemma {:induction false} VpinsStaySound(ops: seq<Op>, market: Market)
    requires SnapshotsSound(ops)
    ensures V.Sound(VPIN_PARAMETERS, VpinAt(Replay(ops).0.vpins, market))
    decreases |ops|
  {
    hide V.Sound, V.Feed, Grown;
    if ops == [] {
      EmptyIsSound();
    } else {
      var (init, last) := (ops[..|ops| - 1], ops[|ops| - 1]);
      assert SnapshotsSound(init) by {
        assert forall k :: 0 <= k < |init| ==> init[k] == ops[k];
      }
      VpinsStaySound(init, market);
      if last.Take? && last.msg.data.TradeData? && last.msg.key.market == market {
        var chunk := last.msg.data.chunk;
        assert last == ops[|ops| - 1];
        if last.msg.data.snapshot.None? {
          V.FeedKeepsSound(VPIN_PARAMETERS, VpinAt(Replay(init).0.vpins, market),
                           MaxReal(chunk.buyQty, 0.0), MaxReal(chunk.sellQty, 0.0));
        }
      }
    }
  }

  lemma EmptyIsSound()
    ensures V.Sound(VPIN_PARAMETERS, V.EMPTY)
  {
    V.EmptyIsSound(VPIN_PARAMETERS);
  }

  // ---------------------------------------------------------------- the validator's loop

  const GRACE_MILLIS := 5_000

  datatype Row = Row(eventTs: int, msg: Message)

  function FloorMinute(ts: int): int { ts - ts % 60_000 }

  function FlushBound(eventTs: int): int { FloorMinute(eventTs - GRACE_MILLIS) }

  /** A minute is kept by the flush behind a row exactly while it has not ended five seconds before the row. */
  lemma {:induction false} KeptWithinGrace(eventTs: int, minute: int)
    requires minute % 60_000 == 0
    ensures FlushBound(eventTs) <= minute <==> eventTs - 5_000 < minute + 60_000
  {
    var q, r := (eventTs - 5_000) / 60_000, (eventTs - 5_000) % 60_000;
    assert eventTs - 5_000 == q * 60_000 + r && minute == (minute / 60_000) * 60_000;
    assert FlushBound(eventTs) == q * 60_000;
  }

  /** Each row is taken, then the minutes that the grace has closed are flushed. */
  function RowOps(rows: seq<Row>): seq<Op> {
    if rows == [] then []
    else
      var last := rows[|rows| - 1];
      RowOps(rows[..|rows| - 1]) + [Take(last.msg)] + [Flush(FlushBound(last.eventTs))]
  }

  function MaxSeen(rows: seq<Row>): (latest: int)
    requires rows != []
    ensures forall k :: 0 <= k < |rows| ==> rows[k].eventTs <= latest
    ensures exists k :: 0 <= k < |rows| && rows[k].eventTs == latest
  {
    var last := rows[|rows| - 1].eventTs;
    if |rows| == 1 then last else Max(MaxSeen(rows[..|rows| - 1]), last)
  }

  predicate Known(row: Row) { !row.msg.data.OtherData? }

  method TakeRow(acc: CanonicalReplayAccumulator, row: Row, ghost rows: seq<Row>, ghost out: seq<Event>)
    returns (ok: bool, flushed: seq<Event>)
    requires rows != [] && rows[|rows| - 1] == row
    requires (Acc(acc.minutes, acc.vpinStates), out) == Replay(RowOps(rows[..|rows| - 1]))
    modifies acc
    ensures ok == Known(row)
    ensures ok ==> (Acc(acc.minutes, acc.vpinStates), out + flushed) == Replay(RowOps(rows))
  {
    hide Ingested, FlushOf, Retained, IsFlush, Replay, FlushBound;
    ghost var before := Acc(acc.minutes, acc.vpinStates);
    flushed := [];
    ok := acc.Ingest(row.msg);
    if ok {
      ghost var taken := Acc(acc.minutes, acc.vpinStates);
      flushed := acc.FlushBefore(FlushBound(row.eventTs));
      RowStep(rows, before, out, taken, flushed);
    }
  }

  /** A message of an unknown type ends the validation with an error. */
  method ReplayAll(rows: seq<Row>, latenessSecs: nat, now: int) returns (ok: bool, events: seq<Event>, held: Acc)
    ensures ok <==> forall k :: 0 <= k < |rows| ==> Known(rows[k])
    ensures ok && rows != [] ==>
              (held, events) == Replay(RowOps(rows) + [Flush(MaxSeen(rows) + (latenessSecs + 61) * 1000)])
    ensures rows == [] ==> held.minutes == map[] && events == []
  {
    hide Ingested, FlushOf, Retained, IsFlush, Known, FlushBound, Replay, RowOps;
    NothingYet();
    var acc := new CanonicalReplayAccumulator();
    var maxSeen: Option<int> := None;
    ok, events, held := true, [], Acc(map[], map[]);
    assert rows[..0] == [];
    for i := 0 to |rows|
      invariant fresh(acc) && ok && forall k :: 0 <= k < i ==> Known(rows[k])
      invariant (Acc(acc.minutes, acc.vpinStates), events) == Replay(RowOps(rows[..i]))
      invariant maxSeen == if i == 0 then None else Some(MaxSeen(rows[..i]))
    {
      assert rows[..i + 1][..i] == rows[..i];
      maxSeen := Some(if maxSeen.Some? then Max(maxSeen.value, rows[i].eventTs) else rows[i].eventTs);
      var flushed;
      ok, flushed := TakeRow(acc, rows[i], rows[..i + 1], events);
      if !ok {
        return;
      }
      events := events + flushed;
    }
    assert rows[..|rows|] == rows;
    var tail := if maxSeen.Some? then maxSeen.value + (latenessSecs + 61) * 1000 else now + 600_000;
    ghost var last := Acc(acc.minutes, acc.vpinStates);
    var flushed := acc.FlushBefore(tail);
    FlushStep(RowOps(rows), last, events, tail, flushed);
    NoRowsNoEvents(tail);
    events := events + flushed;
    held := Acc(acc.minutes, acc.vpinStates);
  }

  lemma NothingYet()
    ensures Replay(RowOps([])) == (Acc(map[], map[]), [])
  {
  }

  lemma {:induction false} FlushStep(ops: seq<Op>, acc: Acc, out: seq<Event>, bound: int, flushed: seq<Event>)
    requires (acc, out) == Replay(ops) && IsFlush(acc.minutes, bound, flushed)
    ensures Replay(ops + [Flush(bound)]) == (acc.(minutes := Retained(acc.minutes, bound)), out + flushed)
  {
    hide IsFlush, Retained, FlushOf;
    FlushOfIsFlush(acc.minutes, bound);
    FlushIsDetermined(acc.minutes, bound, flushed, FlushOf(acc.minutes, bound));
    assert (ops + [Flush(bound)])[..|ops|] == ops;
  }

  lemma {:induction false} RowStep(rows: seq<Row>, acc: Acc, out: seq<Event>, taken: Acc, flushed: seq<Event>)
    requires rows != [] && (acc, out) == Replay(RowOps(rows[..|rows| - 1]))
    requires taken == Ingested(acc, rows[|rows| - 1].msg)
    requires IsFlush(taken.minutes, FlushBound(rows[|rows| - 1].eventTs), flushed)
    ensures Replay(RowOps(rows)) ==
            (taken.(minutes := Retained(taken.minutes, FlushBound(rows[|rows| - 1].eventTs))), out + flushed)
  {
    hide IsFlush, Retained, Ingested, FlushBound;
    var last := rows[|rows| - 1];
    var ops := RowOps(rows[..|rows| - 1]) + [Take(last.msg)];
    assert ops[..|ops| - 1] == RowOps(rows[..|rows| - 1]);
    FlushStep(ops, taken, out, FlushBound(last.eventTs), flushed);
  }

  /** Rows come in time order, and no chunk belongs to a minute that ended more than the grace before an earlier row. */
  ghost predicate WithinGrace(rows: seq<Row>) {
    forall i, j :: 0 <= i < j < |rows| ==>
      rows[i].eventTs <= rows[j].eventTs && FlushBound(rows[i].eventTs) <= rows[j].msg.key.ts
  }

  ghost predicate FloorBelow(rows: seq<Row>, floor: int) {
    forall i :: 0 <= i < |rows| ==> floor <= rows[i].msg.key.ts && floor <= FlushBound(rows[i].eventTs)
  }

  lemma FloorsInOrder(a: int, b: int)
    requires a <= b
    ensures FlushBound(a) <= FlushBound(b)
  {
  }

  lemma {:induction false} OnTimeSnoc(ops: seq<Op>, op: Op, floor: int)
    requires OnTime(ops, floor)
    requires Bound(ops, floor) <= if op.Take? then op.msg.key.ts else op.bound
    ensures OnTime(ops + [op], floor)
    ensures Bound(ops + [op], floor) == if op.Take? then Bound(ops, floor) else op.bound
  {
    assert (ops + [op])[..|ops|] == ops;
  }

  lemma {:induction false} GraceIsOnTime(rows: seq<Row>, floor: int)
    requires WithinGrace(rows) && FloorBelow(rows, floor)
    ensures OnTime(RowOps(rows), floor)
    ensures Bound(RowOps(rows), floor) == if rows == [] then floor else FlushBound(rows[|rows| - 1].eventTs)
  {
    if rows == [] {
    } else {
      hide FlushBound, OnTime, Bound;
      var n := |rows| - 1;
      var init, last := rows[..n], rows[n];
      assert WithinGrace(init) && FloorBelow(init, floor) by {
        assert forall i :: 0 <= i < n ==> init[i] == rows[i];
      }
      GraceIsOnTime(init, floor);
      if n > 0 {
        assert init[n - 1] == rows[n - 1];
        FloorsInOrder(rows[n - 1].eventTs, last.eventTs);
      }
      OnTimeSnoc(RowOps(init), Take(last.msg), floor);
      OnTimeSnoc(RowOps(init) + [Take(last.msg)], Flush(FlushBound(last.eventTs)), floor);
    }
  }

  /** Flushing row by row and once more behind the latest row emits what that last flush alone would, in its order. */
  lemma {:induction false} FlushedBehind(rows: seq<Row>, floor: int, tail: int)
    requires rows != [] && WithinGrace(rows) && FloorBelow(rows, floor) && MaxSeen(rows) <= tail
    ensures var (held, events) := Replay(RowOps(rows) + [Flush(tail)]);
            && IsFlush(Accumulated(RowOps(rows)).minutes, tail, events)
            && held.minutes == Retained(Accumulated(RowOps(rows)).minutes, tail)
  {
    hide IsFlush, Retained, FlushOf, Ingested;
    var ops := RowOps(rows) + [Flush(tail)];
    assert ops[..|ops| - 1] == RowOps(rows);
    GraceIsOnTime(rows, floor);
    assert FlushBound(rows[|rows| - 1].eventTs) <= rows[|rows| - 1].eventTs <= MaxSeen(rows);
    FlushingAsYouGo(ops, floor);
  }

  /** The validator's incremental flushing emits what one flush at the end would, in the same order. */
  lemma {:induction false} ReplayIsOneFlush(rows: seq<Row>, floor: int, latenessSecs: nat)
    requires rows != [] && WithinGrace(rows) && FloorBelow(rows, floor)
    ensures var tail := MaxSeen(rows) + (latenessSecs + 61) * 1000;
            var (held, events) := Replay(RowOps(rows) + [Flush(tail)]);
            && IsFlush(Accumulated(RowOps(rows)).minutes, tail, events)
            && held.minutes == Retained(Accumulated(RowOps(rows)).minutes, tail)
  {
    hide Replay, RowOps, Accumulated, Retained, IsFlush, WithinGrace, FloorBelow;
    FlushedBehind(rows, floor, MaxSeen(rows) + (latenessSecs + 61) * 1000);
  }

  lemma {:induction false} TakenOpens(rows: seq<Row>)
    ensures forall key :: key in Accumulated(RowOps(rows)).minutes <==> OpenedBy(rows, key)
  {
    if rows == [] {
    } else {
      hide Grown, IngestedVpins;
      var init, last := rows[..|rows| - 1], rows[|rows| - 1];
      TakenOpens(init);
      var ops := RowOps(rows);
      assert ops[..|ops| - 1] == RowOps(init) + [Take(last.msg)];
      assert (RowOps(init) + [Take(last.msg)])[..|RowOps(init)|] == RowOps(init);
      assert Accumulated(ops) == Ingested(Accumulated(RowOps(init)), last.msg);
      forall key ensures OpenedBy(rows, key) <==> OpenedBy(init, key) || key == last.msg.key {
        if OpenedBy(init, key) {
          var k :| 0 <= k < |init| && init[k].msg.key == key;
          assert rows[k].msg.key == key;
        }
        if OpenedBy(rows, key) && key != last.msg.key {
          var k :| 0 <= k < |rows| && rows[k].msg.key == key;
          assert init[k].msg.key == key;
        }
        assert rows[|rows| - 1].msg.key == last.msg.key;
      }
    }
  }

  /** Some row belongs to the minute. */
  ghost predicate OpenedBy(rows: seq<Row>, key: Key) {
    exists k :: 0 <= k < |rows| && rows[k].msg.key == key
  }

  /** Every row's minute starts before the bound. */
  predicate AllBefore(rows: seq<Row>, bound: int) {
    forall k :: 0 <= k < |rows| ==> rows[k].msg.key.ts < bound
  }

  /** Every event of every accumulated minute, in strict order. */
  ghost predicate IsEverything(m: Minutes, events: seq<Event>) {
    InOrder(events) && forall e :: e in events <==> Holds(m, e)
  }

  /** What the replay of the rows with a last flush before the bound leaves held, and what it has emitted. */
  ghost predicate LeavesNothing(rows: seq<Row>, bound: int) {
    var (held, events) := Replay(RowOps(rows) + [Flush(bound)]);
    held.minutes == map[] && IsEverything(Accumulated(RowOps(rows)).minutes, events)
  }

  ghost predicate LeavesSome(rows: seq<Row>, bound: int) {
    Replay(RowOps(rows) + [Flush(bound)]).0.minutes != map[]
  }

  /**
   The final flush, exactly: if every row's minute starts before the latest row's time plus the lateness and 61
   seconds, it leaves no minute held, and the replay has then emitted every event of every minute; if not, it leaves
   some minute held.
   */
  lemma {:induction false} FinalFlushExactly(rows: seq<Row>, floor: int, latenessSecs: nat)
    requires rows != [] && WithinGrace(rows) && FloorBelow(rows, floor)
    ensures AllBefore(rows, MaxSeen(rows) + (latenessSecs + 61) * 1000) <==>
            LeavesNothing(rows, MaxSeen(rows) + (latenessSecs + 61) * 1000)
    ensures AllBefore(rows, MaxSeen(rows) + (latenessSecs + 61) * 1000) <==>
            !LeavesSome(rows, MaxSeen(rows) + (latenessSecs + 61) * 1000)
  {
    hide Replay, RowOps, WithinGrace, FloorBelow, AllBefore, LeavesNothing, LeavesSome;
    FlushedExactly(rows, floor, MaxSeen(rows) + (latenessSecs + 61) * 1000);
  }

  lemma {:induction false} FlushedExactly(rows: seq<Row>, floor: int, tail: int)
    requires rows != [] && WithinGrace(rows) && FloorBelow(rows, floor) && MaxSeen(rows) <= tail
    ensures AllBefore(rows, tail) <==> LeavesNothing(rows, tail)
    ensures AllBefore(rows, tail) <==> !LeavesSome(rows, tail)
  {
    hide Replay, RowOps, Accumulated, Retained, IsFlush, IsEverything, OpenedBy, AllBefore, WithinGrace, FloorBelow;
    FlushedBehind(rows, floor, tail);
    TakenOpens(rows);
    var (held, events) := Replay(RowOps(rows) + [Flush(tail)]);
    FlushDecides(Accumulated(RowOps(rows)).minutes, rows, tail, held.minutes, events);
  }

  lemma {:induction false} FlushDecides(all: Minutes, rows: seq<Row>, tail: int, held: Minutes, events: seq<Event>)
    requires IsFlush(all, tail, events) && held == Retained(all, tail)
    requires forall key :: key in all <==> OpenedBy(rows, key)
    ensures held == map[] <==> AllBefore(rows, tail)
    ensures held == map[] ==> IsEverything(all, events)
  {
    hide IsFlush, IsEverything, Retained, OpenedBy, AllBefore;
    NothingRetained(all, rows, tail);
    if held == map[] {
      EverythingFlushed(all, tail, events);
    }
  }

  lemma {:induction false} NothingRetained(m: Minutes, rows: seq<Row>, tail: int)
    requires forall key :: key in m <==> OpenedBy(rows, key)
    ensures Retained(m, tail) == map[] <==> AllBefore(rows, tail)
  {
    forall k | 0 <= k < |rows| ensures rows[k].msg.key in m {
      assert OpenedBy(rows, rows[k].msg.key);
    }
    if Retained(m, tail) == map[] {
      forall k | 0 <= k < |rows| ensures rows[k].msg.key.ts < tail {
        assert rows[k].msg.key !in Retained(m, tail);
      }
    } else if AllBefore(rows, tail) {
      forall key ensures key !in Retained(m, tail) {}
    }
  }

  lemma {:induction false} EverythingFlushed(m: Minutes, tail: int, events: seq<Event>)
    requires IsFlush(m, tail, events) && Retained(m, tail) == map[]
    ensures IsEverything(m, events)
  {
    forall e ensures Holds(m, e) ==> EventKey(e).ts < tail {
      assert Holds(m, e) && EventKey(e).ts >= tail ==> EventKey(e) in Retained(m, tail);
    }
  }

  /** With no rows there is nothing to flush, whatever the clock says. */
  lemma {:induction false} NoRowsNoEvents(bound: int)
    ensures Replay(RowOps([]) + [Flush(bound)]) == (Acc(map[], map[]), [])
  {
    var ops := RowOps([]) + [Flush(bound)];
    assert ops == [Flush(bound)] && ops[..|ops| - 1] == [];
    assert Retained(map[], bound) == map[];
    FlushOfIsFlush(map[], bound);
    NothingReplayed(bound);
    FlushIsDetermined(map[], bound, FlushOf(map[], bound), []);
    hide FlushOf, Retained;
    assert Replay([]) == (Acc(map[], map[]), []);
    assert Replay(ops) == (Acc(Retained(map[], bound), map[]), [] + FlushOf(map[], bound));
    assert [] + FlushOf(map[], bound) == [];
  }
}
