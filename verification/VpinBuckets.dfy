/** The VPIN bucket machine: volume fills fixed-size buckets, the imbalances of the last ones make the reading. */
module VpinBuckets {
  import opened Options

  const TOLERANCE: real := 0.000000000001
  const DEFAULT_BUCKET_SIZE: real := 50.0
  const DEFAULT_ROLLING_BUCKETS: nat := 50

  datatype Config = Config(bucketSize: real, rolling: nat, tolerance: real) {
    ghost predicate Valid() { 0.0 <= tolerance && 2.0 * tolerance < bucketSize && 0 < rolling }
  }

  /** The mutable part of the machine, which is also what a snapshot carries. */
  datatype Vpin = Vpin(buy: real, sell: real, fill: real, imbalances: seq<real>, sum: real, last: real)

  const EMPTY := Vpin(0.0, 0.0, 0.0, [], 0.0, 0.0)

  function Abs(a: real): real { if a < 0.0 then -a else a }
  function Clamp01(a: real): real { MinReal(MaxReal(a, 0.0), 1.0) }

  function Sum(xs: seq<real>): real {
    if xs == [] then 0.0 else xs[0] + Sum(xs[1..])
  }

  function LastOf(xs: seq<real>, n: nat): seq<real> {
    if |xs| <= n then xs else xs[|xs| - n..]
  }

  // ---------------------------------------------------------------- one bucket

  predicate Full(c: Config, s: Vpin) { s.fill + c.tolerance >= c.bucketSize }

  function Emptied(s: Vpin): Vpin { s.(buy := 0.0, sell := 0.0, fill := 0.0) }

  /** The reading after a bucket of the given imbalance has been added to the window. */
  function Reading(c: Config, window: seq<real>, sum: real): real
    requires c.Valid()
  {
    if |window| >= c.rolling && c.bucketSize > c.tolerance
    then Clamp01(sum / (c.rolling as real * c.bucketSize))
    else 0.0
  }

  function Close(c: Config, s: Vpin): Vpin
    requires c.Valid()
  {
    if s.fill <= c.tolerance then Emptied(s)
    else
      var grown := s.imbalances + [Abs(s.buy - s.sell)];
      var window := LastOf(grown, c.rolling);
      var sum := s.sum + Abs(s.buy - s.sell) - Sum(grown[..|grown| - |window|]);
      Vpin(0.0, 0.0, 0.0, window, sum, Reading(c, window, sum))
  }

  function Settle(c: Config, s: Vpin): Vpin
    requires c.Valid()
  {
    if Full(c, s) then Close(c, s) else s
  }

  function Pour(s: Vpin, buyPart: real, sellPart: real): Vpin {
    s.(buy := s.buy + buyPart, sell := s.sell + sellPart, fill := s.fill + (buyPart + sellPart))
  }

  function Capacity(c: Config, s: Vpin): real { MaxReal(c.bucketSize - s.fill, 0.0) }

  function BuyPart(take: real, buy: real, sell: real): real
    requires buy + sell > 0.0
  {
    take * (buy / (buy + sell))
  }

  // ---------------------------------------------------------------- a whole flow

  /** Bounds the number of buckets a flow can still touch: it drops by one with every bucket filled. */
  function Rounds(c: Config, s: Vpin, remain: real): real
    requires c.Valid()
  {
    if remain <= c.tolerance then 0.0
    else 1.0 + MaxReal((remain + (if Full(c, s) then 0.0 else s.fill)) / c.bucketSize, 0.0)
  }

  function Feed(c: Config, s: Vpin, buy: real, sell: real): Vpin
    requires c.Valid()
    decreases Rounds(c, s, buy + sell)
  {
    if buy + sell <= c.tolerance then s
    else
      var open := Settle(c, s);
      var take := MinReal(buy + sell, Capacity(c, open));
      var buyPart := BuyPart(take, buy, sell);
      var poured := Settle(c, Pour(open, buyPart, take - buyPart));
      RoundsDrop(c, s, buy, sell);
      Feed(c, poured, buy - buyPart, sell - (take - buyPart))
  }

  lemma {:induction false} Scaled(a: real, b: real)
    requires b > 0.0
    ensures (a - b) / b == a / b - 1.0
    ensures a >= b ==> a / b >= 1.0
    ensures a >= 0.0 ==> a / b >= 0.0
  {
    var q := a / b;
    assert (q - 1.0) * b == a - b;
    IsQuotient(a - b, b, q - 1.0);
    assert a >= b ==> q * b >= 1.0 * b;
  }

  lemma {:induction false} IsQuotient(a: real, b: real, q: real)
    requires b > 0.0 && q * b == a
    ensures a / b == q
  {
    var r := a / b;
    assert (r - q) * b == 0.0;
  }

  /** A pour either uses up the flow or fills the open bucket. */
  lemma {:induction false} RoundsDrop(c: Config, s: Vpin, buy: real, sell: real)
    requires c.Valid() && buy + sell > c.tolerance
    ensures var open := Settle(c, s);
            var take := MinReal(buy + sell, Capacity(c, open));
            var buyPart := BuyPart(take, buy, sell);
            var poured := Settle(c, Pour(open, buyPart, take - buyPart));
            && Capacity(c, open) > c.tolerance
            && 0.0 <= Rounds(c, poured, (buy - buyPart) + (sell - (take - buyPart)))
            && Rounds(c, poured, (buy - buyPart) + (sell - (take - buyPart))) + 1.0 <= Rounds(c, s, buy + sell)
  {
    hide Close, BuyPart;
    var open := Settle(c, s);
    var take := MinReal(buy + sell, Capacity(c, open));
    var buyPart := BuyPart(take, buy, sell);
    CloseEmpties(c, s);
    CloseEmpties(c, Pour(open, buyPart, take - buyPart));
    Scaled(buy + sell + open.fill, c.bucketSize);
  }

  lemma {:induction false} CloseEmpties(c: Config, s: Vpin)
    requires c.Valid()
    ensures Close(c, s).buy == Close(c, s).sell == Close(c, s).fill == 0.0
  {
  }

  // ---------------------------------------------------------------- what every state keeps

  /** The reading: the total imbalance of a full window as a fraction of its volume, 0 before it is full. */
  ghost predicate IsMeanImbalance(c: Config, window: seq<real>, last: real)
    requires c.Valid()
  {
    && 0.0 <= last <= 1.0
    && last * (c.rolling as real * c.bucketSize) == if |window| < c.rolling then 0.0 else Sum(window)
  }

  ghost predicate WindowSound(c: Config, s: Vpin)
    requires c.Valid()
  {
    && |s.imbalances| <= c.rolling
    && (forall k :: 0 <= k < |s.imbalances| ==> 0.0 <= s.imbalances[k] <= c.bucketSize)
    && s.sum == Sum(s.imbalances)
    && IsMeanImbalance(c, s.imbalances, s.last)
  }

  ghost predicate FillSound(c: Config, s: Vpin) {
    && 0.0 <= s.buy && 0.0 <= s.sell
    && s.fill == s.buy + s.sell <= c.bucketSize
  }

  /** Between calls: a partly filled bucket, and a reading that is the mean imbalance of a full window. */
  ghost predicate Sound(c: Config, s: Vpin)
    requires c.Valid()
  {
    FillSound(c, s) && WindowSound(c, s) && !Full(c, s)
  }

  lemma {:induction false} EmptyIsSound(c: Config)
    requires c.Valid()
    ensures Sound(c, EMPTY)
  {
    assert 0.0 * (c.rolling as real * c.bucketSize) == 0.0;
  }

  lemma {:induction false} SumConcat(xs: seq<real>, ys: seq<real>)
    ensures Sum(xs + ys) == Sum(xs) + Sum(ys)
  {
    if xs == [] {
      assert xs + ys == ys;
    } else {
      assert (xs + ys)[1..] == xs[1..] + ys;
      SumConcat(xs[1..], ys);
    }
  }

  lemma {:induction false} SumBounded(xs: seq<real>, hi: real)
    requires forall k :: 0 <= k < |xs| ==> 0.0 <= xs[k] <= hi
    ensures 0.0 <= Sum(xs) <= |xs| as real * hi
  {
    if xs == [] {
    } else {
      SumBounded(xs[1..], hi);
      assert |xs| as real == |xs[1..]| as real + 1.0;
    }
  }

  /** The clamp of the reading never changes a value. */
  lemma {:induction false} ReadingIsMean(c: Config, window: seq<real>)
    requires c.Valid() && |window| <= c.rolling
    requires forall k :: 0 <= k < |window| ==> 0.0 <= window[k] <= c.bucketSize
    ensures IsMeanImbalance(c, window, Reading(c, window, Sum(window)))
  {
    SumBounded(window, c.bucketSize);
    if |window| == c.rolling {
      Fraction(Sum(window), c.rolling as real * c.bucketSize);
    }
  }

  lemma {:induction false} Fraction(a: real, b: real)
    requires 0.0 <= a <= b && 0.0 < b
    ensures 0.0 <= a / b <= 1.0 && a / b * b == a
  {
  }

  /** The k-th entry from the end. */
  function FromEnd(xs: seq<real>, k: nat): real
    requires k < |xs|
  {
    xs[|xs| - 1 - k]
  }

  /** The window is the last n of the list, or all of it. */
  ghost predicate IsLast(window: seq<real>, n: nat, xs: seq<real>) {
    && |window| == Min(n, |xs|)
    && forall k :: 0 <= k < |window| ==> FromEnd(window, k) == FromEnd(xs, k)
  }

  lemma {:induction false} LastOfIsLast(xs: seq<real>, n: nat)
    ensures IsLast(LastOf(xs, n), n, xs)
  {
  }

  lemma {:induction false} IsLastIsTail(window: seq<real>, n: nat, xs: seq<real>)
    requires IsLast(window, n, xs)
    ensures window == xs[|xs| - |window|..]
  {
    forall k | 0 <= k < |window| ensures window[k] == xs[|xs| - |window| + k] {
      assert FromEnd(window, |window| - 1 - k) == FromEnd(xs, |window| - 1 - k);
    }
  }

  /** Dropping from the front keeps the running sum equal to the sum of the window. */
  lemma {:induction false} WindowSlides(xs: seq<real>, x: real, n: nat)
    ensures var grown := xs + [x];
            var window := LastOf(grown, n);
            && |window| <= n
            && Sum(window) == Sum(xs) + x - Sum(grown[..|grown| - |window|])
            && (forall k :: 0 <= k < |window| ==> window[k] in xs || window[k] == x)
  {
    var grown := xs + [x];
    var window := LastOf(grown, n);
    SumConcat(xs, [x]);
    assert Sum([x]) == x;
    assert grown == grown[..|grown| - |window|] + window;
    SumConcat(grown[..|grown| - |window|], window);
  }

  lemma {:induction false} CloseKeepsSound(c: Config, s: Vpin)
    requires c.Valid() && FillSound(c, s) && WindowSound(c, s) && Full(c, s)
    ensures Sound(c, Close(c, s))
    ensures Close(c, s).imbalances == LastOf(s.imbalances + [Abs(s.buy - s.sell)], c.rolling)
  {
    hide Reading, IsMeanImbalance, LastOf, Sum;
    var x := Abs(s.buy - s.sell);
    var window := LastOf(s.imbalances + [x], c.rolling);
    WindowSlides(s.imbalances, x, c.rolling);
    forall k | 0 <= k < |window| ensures 0.0 <= window[k] <= c.bucketSize {
      if window[k] in s.imbalances {
        var j :| 0 <= j < |s.imbalances| && s.imbalances[j] == window[k];
      }
    }
    ReadingIsMean(c, window);
  }

  lemma {:induction false} PartWithin(take: real, buy: real, sell: real)
    requires 0.0 <= buy && 0.0 <= sell && 0.0 < buy + sell && 0.0 <= take <= buy + sell
    ensures 0.0 <= BuyPart(take, buy, sell) <= buy
    ensures 0.0 <= take - BuyPart(take, buy, sell) <= sell
  {
    var total := buy + sell;
    var q := buy / total;
    assert q * total == buy;
    Fraction(buy, total);
    assert take * q <= total * q;
    assert take * (1.0 - q) <= total * (1.0 - q);
    assert take * (1.0 - q) >= 0.0;
    assert take - BuyPart(take, buy, sell) == take * (1.0 - q);
    assert total * (1.0 - q) == sell;
  }

  /** The state after one pour, and how much of the flow it takes, in a sound state. */
  ghost function Poured(c: Config, s: Vpin, buy: real, sell: real): (Vpin, real, real)
    requires c.Valid() && buy + sell > c.tolerance
  {
    var take := MinReal(buy + sell, Capacity(c, s));
    var buyPart := BuyPart(take, buy, sell);
    (Pour(s, buyPart, take - buyPart), buyPart, take - buyPart)
  }

  lemma {:induction false} PourKeepsWindow(c: Config, s: Vpin, buyPart: real, sellPart: real)
    requires c.Valid() && WindowSound(c, s)
    ensures WindowSound(c, Pour(s, buyPart, sellPart))
  {
  }

  lemma {:induction false} PouredSound(c: Config, s: Vpin, buy: real, sell: real)
    requires c.Valid() && Sound(c, s) && 0.0 <= buy && 0.0 <= sell && buy + sell > c.tolerance
    ensures var (p, b, q) := Poured(c, s, buy, sell);
            && FillSound(c, p) && WindowSound(c, p)
            && 0.0 <= b <= buy && 0.0 <= q <= sell
            && p == Pour(s, b, q)
            && Sound(c, Settle(c, p))
            && Feed(c, s, buy, sell) == Feed(c, Settle(c, p), buy - b, sell - q)
            && Rounds(c, Settle(c, p), (buy - b) + (sell - q)) + 1.0 <= Rounds(c, s, buy + sell)
            && 0.0 <= Rounds(c, Settle(c, p), (buy - b) + (sell - q))
  {
    hide BuyPart, Close, WindowSound;
    RoundsDrop(c, s, buy, sell);
    PartWithin(MinReal(buy + sell, Capacity(c, s)), buy, sell);
    var (p, b, q) := Poured(c, s, buy, sell);
    PourKeepsWindow(c, s, b, q);
    if Full(c, p) {
      CloseKeepsSound(c, p);
    }
  }

  /** Feeding keeps the state sound, over any number of bucket closings. */
  lemma {:induction false} FeedKeepsSound(c: Config, s: Vpin, buy: real, sell: real)
    requires c.Valid() && Sound(c, s) && 0.0 <= buy && 0.0 <= sell
    ensures Sound(c, Feed(c, s, buy, sell))
    decreases Rounds(c, s, buy + sell)
  {
    hide Close, BuyPart, Capacity, WindowSound, FillSound, Rounds, Poured;
    if buy + sell <= c.tolerance {
    } else {
      var (p, b, q) := Poured(c, s, buy, sell);
      PouredSound(c, s, buy, sell);
      FeedKeepsSound(c, Settle(c, p), buy - b, sell - q);
    }
  }

  // ---------------------------------------------------------------- conservation of volume

  /** The buy and sell volumes of the buckets that a flow closes, in order. */
  ghost function Buckets(c: Config, s: Vpin, buy: real, sell: real): seq<(real, real)>
    requires c.Valid() && Sound(c, s) && 0.0 <= buy && 0.0 <= sell
    decreases Rounds(c, s, buy + sell)
  {
    if buy + sell <= c.tolerance then []
    else
      PouredSound(c, s, buy, sell);
      var (p, b, q) := Poured(c, s, buy, sell);
      (if Full(c, p) then [(p.buy, p.sell)] else []) + Buckets(c, Settle(c, p), buy - b, sell - q)
  }

  ghost function Buys(bs: seq<(real, real)>): real {
    if bs == [] then 0.0 else bs[0].0 + Buys(bs[1..])
  }

  ghost function Sells(bs: seq<(real, real)>): real {
    if bs == [] then 0.0 else bs[0].1 + Sells(bs[1..])
  }

  ghost function ImbalancesOf(bs: seq<(real, real)>): seq<real> {
    if bs == [] then [] else [Abs(bs[0].0 - bs[0].1)] + ImbalancesOf(bs[1..])
  }

  /** Keeping the last ones before more is added makes no difference to the last ones afterwards. */
  lemma {:induction false} LastOfAgain(xs: seq<real>, ys: seq<real>, n: nat, window: seq<real>)
    requires IsLast(window, n, LastOf(xs, n) + ys)
    ensures IsLast(window, n, xs + ys)
  {
    var kept := LastOf(xs, n);
    LastOfIsLast(xs, n);
    assert |window| == Min(n, |xs + ys|);
    forall k | 0 <= k < |window| ensures FromEnd(window, k) == FromEnd(xs + ys, k) {
      assert FromEnd(window, k) == FromEnd(kept + ys, k);
      assert |ys| <= k ==> FromEnd(kept, k - |ys|) == FromEnd(xs, k - |ys|);
    }
  }

  /**
   Every unit of volume ends in a closed bucket, in the open bucket, or in the leftover, which is within the
   tolerance; every closed bucket is full within the tolerance; the window is the imbalances of the last ones.
   */
  ghost predicate Conserved(c: Config, s: Vpin, buy: real, sell: real, bs: seq<(real, real)>, r: Vpin) {
    var (leftBuy, leftSell) := (s.buy + buy - Buys(bs) - r.buy, s.sell + sell - Sells(bs) - r.sell);
    && 0.0 <= leftBuy && 0.0 <= leftSell && leftBuy + leftSell <= c.tolerance
    && (forall k :: 0 <= k < |bs| ==> c.bucketSize - c.tolerance <= bs[k].0 + bs[k].1 <= c.bucketSize)
    && IsLast(r.imbalances, c.rolling, s.imbalances + ImbalancesOf(bs))
  }

  lemma {:induction false} ConservedByPour(
    c: Config, s: Vpin, b: real, q: real, buy: real, sell: real, bs: seq<(real, real)>, r: Vpin)
    requires Conserved(c, Pour(s, b, q), buy - b, sell - q, bs, r)
    ensures Conserved(c, s, buy, sell, bs, r)
  {
  }

  lemma {:induction false} ConservedByClose(c: Config, p: Vpin, buy: real, sell: real, bs: seq<(real, real)>, r: Vpin)
    requires c.Valid() && FillSound(c, p) && WindowSound(c, p) && Full(c, p)
    requires Conserved(c, Close(c, p), buy, sell, bs, r)
    ensures Conserved(c, p, buy, sell, [(p.buy, p.sell)] + bs, r)
  {
    hide Close, WindowSound, Sound, LastOf, IsLast, Abs;
    CloseEmpties(c, p);
    CloseKeepsSound(c, p);
    var all, x := [(p.buy, p.sell)] + bs, Abs(p.buy - p.sell);
    assert all[1..] == bs;
    LastOfAgain(p.imbalances + [x], ImbalancesOf(bs), c.rolling, r.imbalances);
    assert p.imbalances + ImbalancesOf(all) == (p.imbalances + [x]) + ImbalancesOf(bs);
  }

  lemma {:induction false} BucketsUnfold(c: Config, s: Vpin, buy: real, sell: real)
    requires c.Valid() && Sound(c, s) && 0.0 <= buy && 0.0 <= sell && buy + sell > c.tolerance
    ensures var (p, b, q) := Poured(c, s, buy, sell);
            && Sound(c, Settle(c, p)) && 0.0 <= b <= buy && 0.0 <= q <= sell
            && Buckets(c, s, buy, sell) ==
                 (if Full(c, p) then [(p.buy, p.sell)] else []) + Buckets(c, Settle(c, p), buy - b, sell - q)
  {
    hide Close, Feed, Poured, FillSound, WindowSound, Rounds, BuyPart, Capacity, Sound, Settle;
    PouredSound(c, s, buy, sell);
  }

  lemma {:induction false} NothingFed(c: Config, s: Vpin, buy: real, sell: real)
    requires c.Valid() && Sound(c, s) && 0.0 <= buy && 0.0 <= sell && buy + sell <= c.tolerance
    ensures Conserved(c, s, buy, sell, Buckets(c, s, buy, sell), Feed(c, s, buy, sell))
  {
    assert s.imbalances + [] == s.imbalances;
  }

  lemma {:induction false} VolumeConserved(c: Config, s: Vpin, buy: real, sell: real)
    requires c.Valid() && Sound(c, s) && 0.0 <= buy && 0.0 <= sell
    ensures Conserved(c, s, buy, sell, Buckets(c, s, buy, sell), Feed(c, s, buy, sell))
    decreases Rounds(c, s, buy + sell)
  {
    hide Close, Buckets, Feed, Poured, Conserved, FillSound, WindowSound, Rounds, BuyPart, Capacity, Sound;
    if buy + sell <= c.tolerance {
      NothingFed(c, s, buy, sell);
    } else {
      var (p, b, q) := Poured(c, s, buy, sell);
      PouredSound(c, s, buy, sell);
      BucketsUnfold(c, s, buy, sell);
      VolumeConserved(c, Settle(c, p), buy - b, sell - q);
      var rest, r := Buckets(c, Settle(c, p), buy - b, sell - q), Feed(c, s, buy, sell);
      if Full(c, p) {
        ConservedByClose(c, p, buy - b, sell - q, rest, r);
      } else {
        assert [] + rest == rest;
      }
      ConservedByPour(c, s, b, q, buy, sell, Buckets(c, s, buy, sell), r);
    }
  }

  /** The reading is the mean over the last `rolling` entries of the list as soon as there are that many. */
  ghost predicate ReadsLast(c: Config, last: real, xs: seq<real>)
    requires c.Valid()
  {
    IsFraction(last, c, if |xs| < c.rolling then 0.0 else Sum(xs[|xs| - c.rolling..]))
  }

  /** The reading times the volume of a full window is the total imbalance. */
  ghost predicate IsFraction(last: real, c: Config, total: real) {
    last * (c.rolling as real * c.bucketSize) == total
  }

  lemma {:induction false} SoundReadsLast(c: Config, r: Vpin, xs: seq<real>)
    requires c.Valid() && WindowSound(c, r) && IsLast(r.imbalances, c.rolling, xs)
    ensures ReadsLast(c, r.last, xs)
  {
    IsLastIsTail(r.imbalances, c.rolling, xs);
    hide Sum, FromEnd;
  }

  /**
   The rolling window over any number of closings: after a flow the window holds the imbalances of the last buckets,
   as many as there are up to the window's size, and the reading is their mean as soon as that many have closed.
   */
  lemma {:induction false} RollingWindow(c: Config, s: Vpin, buy: real, sell: real)
    requires c.Valid() && Sound(c, s) && 0.0 <= buy && 0.0 <= sell
    ensures var r := Feed(c, s, buy, sell);
            var joined := s.imbalances + ImbalancesOf(Buckets(c, s, buy, sell));
            && |r.imbalances| == Min(c.rolling, |joined|)
            && (forall k :: 0 <= k < |r.imbalances| ==> FromEnd(r.imbalances, k) == FromEnd(joined, k))
            && ReadsLast(c, r.last, joined)
  {
    var r := Feed(c, s, buy, sell);
    var joined := s.imbalances + ImbalancesOf(Buckets(c, s, buy, sell));
    hide Feed, Buckets, FillSound, ImbalancesOf, ReadsLast, FromEnd, WindowSound;
    VolumeConserved(c, s, buy, sell);
    FeedKeepsSound(c, s, buy, sell);
    SoundReadsLast(c, r, joined);
  }

  /** The imbalances of the closed buckets are the gaps between their two sides. */
  lemma {:induction false} ImbalancesAreGaps(bs: seq<(real, real)>)
    ensures |ImbalancesOf(bs)| == |bs|
    ensures forall k :: 0 <= k < |bs| ==> ImbalancesOf(bs)[k] == MaxReal(bs[k].0, bs[k].1) - MinReal(bs[k].0, bs[k].1)
  {
    if bs == [] {
    } else {
      ImbalancesAreGaps(bs[1..]);
    }
  }

  /** A bucket weighs the same whichever side is the heavier. */
  lemma {:induction false} SidesWeighAlike(c: Config, s: Vpin)
    requires c.Valid() && Full(c, s)
    ensures var swapped := s.(buy := s.sell, sell := s.buy);
            && Full(c, swapped) && Close(c, swapped) == Close(c, s)
            && |Close(c, s).imbalances| > 0
            && FromEnd(Close(c, s).imbalances, 0) == MaxReal(s.buy, s.sell) - MinReal(s.buy, s.sell)
  {
    var x := Abs(s.buy - s.sell);
    var grown := s.imbalances + [x];
    assert Abs(s.sell - s.buy) == x == MaxReal(s.buy, s.sell) - MinReal(s.buy, s.sell);
    LastOfIsLast(grown, c.rolling);
    assert FromEnd(LastOf(grown, c.rolling), 0) == FromEnd(grown, 0) == x;
    hide Reading, Sum, Abs, LastOf, IsLast;
  }

  // ---------------------------------------------------------------- batching

  /** The buy part of a volume whose buy share is ratio. */
  function Share(ratio: real, volume: real): real { volume * ratio }

  ghost function RatioPour(s: Vpin, volume: real, ratio: real): Vpin {
    Pour(s, Share(ratio, volume), volume - Share(ratio, volume))
  }

  lemma {:induction false} ShareAdds(ratio: real, x: real, y: real)
    ensures Share(ratio, x + y) == Share(ratio, x) + Share(ratio, y)
    ensures 0.0 <= ratio <= 1.0 && 0.0 <= x ==> 0.0 <= Share(ratio, x) <= x
  {
    if 0.0 <= ratio <= 1.0 && 0.0 <= x {
      assert x * ratio <= x * 1.0;
    }
  }

  lemma {:induction false} BuyPartIsShare(ratio: real, take: real, x: real)
    requires 0.0 < x
    ensures BuyPart(take, Share(ratio, x), x - Share(ratio, x)) == Share(ratio, take)
  {
    IsQuotient(x * ratio, x, ratio);
  }

  ghost predicate Proportioned(c: Config, s: Vpin, x: real, ratio: real) {
    c.Valid() && Sound(c, s) && 0.0 <= ratio <= 1.0 && 0.0 <= x
  }

  ghost function Room(c: Config, s: Vpin): real { c.bucketSize - s.fill }

  lemma {:induction false} RatioStep(c: Config, s: Vpin, x: real, ratio: real)
    requires Proportioned(c, s, x, ratio) && c.tolerance < x
    ensures var take := MinReal(x, Room(c, s));
            var next := Settle(c, RatioPour(s, take, ratio));
            && 0.0 < take && Proportioned(c, next, x - take, ratio)
            && (Room(c, s) <= x ==> next.fill == 0.0)
            && Feed(c, s, Share(ratio, x), x - Share(ratio, x))
                 == Feed(c, next, Share(ratio, x - take), (x - take) - Share(ratio, x - take))
            && 0.0 <= Rounds(c, next, x - take) && Rounds(c, next, x - take) + 1.0 <= Rounds(c, s, x)
  {
    hide Close, WindowSound, Rounds, Feed, BuyPart, Share;
    var take := MinReal(x, Room(c, s));
    ShareAdds(ratio, x, 0.0);
    ShareAdds(ratio, x - take, take);
    BuyPartIsShare(ratio, take, x);
    PouredSound(c, s, Share(ratio, x), x - Share(ratio, x));
    CloseEmpties(c, RatioPour(s, take, ratio));
  }

  /** A flow of total x whose buy share is ratio. */
  ghost function FeedRatio(c: Config, s: Vpin, x: real, ratio: real): Vpin
    requires Proportioned(c, s, x, ratio)
    decreases Rounds(c, s, x)
  {
    if x <= c.tolerance then s
    else
      var take := MinReal(x, Room(c, s));
      RatioStep(c, s, x, ratio);
      FeedRatio(c, Settle(c, RatioPour(s, take, ratio)), x - take, ratio)
  }

  lemma {:induction false} FeedIsFeedRatio(c: Config, s: Vpin, x: real, ratio: real)
    requires Proportioned(c, s, x, ratio)
    ensures Feed(c, s, Share(ratio, x), x - Share(ratio, x)) == FeedRatio(c, s, x, ratio)
    decreases Rounds(c, s, x)
  {
    hide Close, Sound, Rounds, Settle, Feed, Share, Room;
    if x <= c.tolerance {
      NothingToFeed(c, s, Share(ratio, x), x - Share(ratio, x));
    } else {
      var take := MinReal(x, Room(c, s));
      RatioStep(c, s, x, ratio);
      FeedIsFeedRatio(c, Settle(c, RatioPour(s, take, ratio)), x - take, ratio);
    }
  }

  lemma NothingToFeed(c: Config, s: Vpin, buy: real, sell: real)
    requires c.Valid() && buy + sell <= c.tolerance
    ensures Feed(c, s, buy, sell) == s
  {
  }

  lemma {:induction false} RatioPourAdds(s: Vpin, x: real, y: real, ratio: real)
    ensures RatioPour(RatioPour(s, x, ratio), y, ratio) == RatioPour(s, x + y, ratio)
  {
    ShareAdds(ratio, x, y);
  }

  // ---------------------------------------------------------------- pieces clear of the tolerance

  /** The piece is nothing, or more than the tolerance. */
  predicate Whole(c: Config, x: real) { x == 0.0 || c.tolerance < x }

  /** How far a volume reaches past the last bucket it fills. */
  function Past(c: Config, fill: real, x: real): real
    requires c.Valid()
  {
    (fill + x) - ((fill + x) / c.bucketSize).Floor as real * c.bucketSize
  }

  /** The piece is taken whole and ends at a bucket's end or clear of one. */
  predicate EndsClear(c: Config, fill: real, x: real)
    requires c.Valid()
  {
    x == 0.0 ||
    (c.tolerance < x && (Past(c, fill, x) == 0.0 || c.tolerance < Past(c, fill, x) < c.bucketSize - c.tolerance))
  }

  /** The fill that a clear piece leaves. */
  function EndFill(c: Config, fill: real, x: real): real
    requires c.Valid()
  {
    if x == 0.0 then fill else Past(c, fill, x)
  }

  /** Every piece but the last ends clear, and the last is taken whole. */
  predicate AllClear(c: Config, fill: real, xs: seq<real>)
    requires c.Valid()
    decreases |xs|
  {
    if xs == [] then true
    else if |xs| == 1 then Whole(c, xs[0])
    else EndsClear(c, fill, xs[0]) && AllClear(c, EndFill(c, fill, xs[0]), xs[1..])
  }

  lemma {:induction false} FloorPart(u: real, size: real, q: real, n: real)
    requires 0.0 < size && q * size == u && n <= q < n + 1.0
    ensures 0.0 <= u - n * size < size
  {
    var d := q - n;
    var part := d * size;
    assert part == u - n * size;
    Product(d, size);
    Product(1.0 - d, size);
    assert (1.0 - d) * size == 1.0 * size - part;
    assert 0.0 < (1.0 - d) * size;
  }

  lemma Product(a: real, b: real)
    requires 0.0 <= a && 0.0 < b
    ensures 0.0 <= a * b
    ensures 0.0 < a ==> 0.0 < a * b
  {
  }

  lemma {:induction false} LessFactor(q: real, size: real)
    requires 0.0 < size
    ensures q * size < size ==> q < 1.0
  {
    if 1.0 <= q {
      Product(q - 1.0, size);
      assert (q - 1.0) * size == q * size - size;
    }
  }

  lemma {:induction false} FloorSteps(u: real, size: real)
    requires 0.0 < size && 0.0 <= u
    ensures u < size ==> (u / size).Floor == 0
    ensures size <= u ==> (u / size).Floor == ((u - size) / size).Floor + 1
    ensures 0.0 <= u - (u / size).Floor as real * size < size
  {
    var q := u / size;
    assert q * size == u;
    assert (q - 1.0) * size == u - size;
    IsQuotient(u - size, size, q - 1.0);
    Scaled(u, size);
    LessFactor(q, size);
    FloorPart(u, size, q, q.Floor as real);
  }

  lemma {:induction false} PastSteps(c: Config, fill: real, x: real)
    requires c.Valid() && 0.0 <= fill && 0.0 <= x
    ensures fill + x < c.bucketSize ==> Past(c, fill, x) == fill + x
    ensures c.bucketSize <= fill + x ==> Past(c, fill, x) == Past(c, 0.0, x - (c.bucketSize - fill))
    ensures 0.0 <= Past(c, fill, x) < c.bucketSize
  {
    FloorSteps(fill + x, c.bucketSize);
    assert 0.0 + (x - (c.bucketSize - fill)) == (fill + x) - c.bucketSize;
    var n := ((fill + x) / c.bucketSize).Floor as real;
    assert n * c.bucketSize == (n - 1.0) * c.bucketSize + c.bucketSize;
  }

  /** Past a filled bucket the rest of a clear piece is clear in the empty one. */
  lemma {:induction false} ClearAfterBucket(c: Config, fill: real, x: real)
    requires c.Valid() && 0.0 <= fill && 0.0 < c.bucketSize - fill <= x && EndsClear(c, fill, x)
    ensures c.tolerance < x && EndsClear(c, 0.0, x - (c.bucketSize - fill))
    ensures EndFill(c, 0.0, x - (c.bucketSize - fill)) == EndFill(c, fill, x)
  {
    var rest := x - (c.bucketSize - fill);
    PastSteps(c, fill, x);
    PastSteps(c, 0.0, rest);
    hide Past;
  }

  /** A clear piece that does not fill the open bucket stays in it. */
  lemma {:induction false} PartFill(c: Config, s: Vpin, x: real, ratio: real)
    requires Proportioned(c, s, x, ratio) && x < Room(c, s) && EndsClear(c, s.fill, x)
    ensures FeedRatio(c, s, x, ratio) == RatioPour(s, x, ratio)
    ensures Proportioned(c, RatioPour(s, x, ratio), 0.0, ratio)
    ensures Room(c, RatioPour(s, x, ratio)) == Room(c, s) - x
    ensures RatioPour(s, x, ratio).fill == EndFill(c, s.fill, x)
  {
    PastSteps(c, s.fill, x);
    hide Close, WindowSound, Rounds, Feed, Share, Past;
    ShareAdds(ratio, 0.0, 0.0);
    if x == 0.0 {
    } else {
      RatioStep(c, s, x, ratio);
      NothingLeftToFeed(c, RatioPour(s, x, ratio), ratio);
    }
  }

  lemma NothingLeftToFeed(c: Config, s: Vpin, ratio: real)
    requires Proportioned(c, s, 0.0, ratio)
    ensures FeedRatio(c, s, 0.0, ratio) == s
  {
  }

  /** A clear piece and a whole one of the same ratio are one. */
  lemma {:induction false} FeedRatioTwice(c: Config, s: Vpin, x: real, y: real, ratio: real)
    requires Proportioned(c, s, x, ratio) && 0.0 <= y && EndsClear(c, s.fill, x) && Whole(c, y)
    ensures Proportioned(c, FeedRatio(c, s, x, ratio), y, ratio)
    ensures FeedRatio(c, s, x, ratio).fill == EndFill(c, s.fill, x)
    ensures FeedRatio(c, FeedRatio(c, s, x, ratio), y, ratio) == FeedRatio(c, s, x + y, ratio)
    decreases Rounds(c, s, x)
  {
    hide Close, Sound, Rounds, Settle, Share, RatioPour, EndsClear, EndFill, Whole;
    RoomLeft(c, s);
    var room := Room(c, s);
    if x < room {
      PartFill(c, s, x, ratio);
      JoinInBucket(c, s, x, y, ratio);
    } else {
      ClearAfterBucket(c, s.fill, x);
      RatioStep(c, s, x, ratio);
      RatioStep(c, s, x + y, ratio);
      FeedRatioTwice(c, Settle(c, RatioPour(s, room, ratio)), x - room, y, ratio);
    }
  }

  lemma RoomLeft(c: Config, s: Vpin)
    requires c.Valid() && Sound(c, s)
    ensures 0.0 <= s.fill && 0.0 < Room(c, s)
  {
  }

  lemma {:induction false} JoinInBucket(c: Config, s: Vpin, x: real, y: real, ratio: real)
    requires Proportioned(c, s, x, ratio) && 0.0 <= y && x < Room(c, s) && EndsClear(c, s.fill, x) && Whole(c, y)
    ensures Proportioned(c, RatioPour(s, x, ratio), y, ratio)
    ensures FeedRatio(c, RatioPour(s, x, ratio), y, ratio) == FeedRatio(c, s, x + y, ratio)
  {
    hide Close, Sound, Rounds, Settle, Share, Room, RatioPour, Past;
    var p := RatioPour(s, x, ratio);
    PartFill(c, s, x, ratio);
    if y == 0.0 {
      NothingLeftToFeed(c, p, ratio);
    } else {
      var more := MinReal(y, Room(c, s) - x);
      RatioPourAdds(s, x, more, ratio);
      RatioStep(c, p, y, ratio);
      RatioStep(c, s, x + y, ratio);
    }
  }

  ghost function FeedAll(c: Config, s: Vpin, flows: seq<(real, real)>): Vpin
    requires c.Valid()
    decreases |flows|
  {
    if flows == [] then s else FeedAll(c, Feed(c, s, flows[0].0, flows[0].1), flows[1..])
  }

  lemma {:induction false} FeedAllSnoc(c: Config, s: Vpin, flows: seq<(real, real)>, flow: (real, real))
    requires c.Valid()
    ensures FeedAll(c, s, flows + [flow]) == Feed(c, FeedAll(c, s, flows), flow.0, flow.1)
    decreases |flows|
  {
    hide Feed;
    if flows == [] {
      assert FeedAll(c, Feed(c, s, flow.0, flow.1), []) == Feed(c, s, flow.0, flow.1);
      assert (flows + [flow])[1..] == [];
    } else {
      assert (flows + [flow])[1..] == flows[1..] + [flow];
      FeedAllSnoc(c, Feed(c, s, flows[0].0, flows[0].1), flows[1..], flow);
    }
  }

  function Piece(weight: real, buy: real, sell: real): (real, real) { (weight * buy, weight * sell) }

  /** The pieces of a flow (buy, sell), in the given proportions. */
  ghost function Pieces(weights: seq<real>, buy: real, sell: real): seq<(real, real)> {
    if weights == [] then [] else [Piece(weights[0], buy, sell)] + Pieces(weights[1..], buy, sell)
  }

  lemma {:induction false} PieceIsShare(w: real, buy: real, sell: real, total: real, ratio: real, x: real)
    requires total == buy + sell && ratio * total == buy && x == w * total
    ensures Share(ratio, x) == Piece(w, buy, sell).0
    ensures x - Share(ratio, x) == Piece(w, buy, sell).1
  {
    assert x * ratio == w * buy by {
      assert (w * total) * ratio == w * (ratio * total);
    }
    assert w * buy + w * sell == x;
  }

  lemma {:induction false} FeedPiece(
    c: Config, s: Vpin, w: real, buy: real, sell: real, total: real, ratio: real, x: real)
    requires total == buy + sell && ratio * total == buy && x == w * total
    requires Proportioned(c, s, x, ratio)
    ensures var (b, q) := Piece(w, buy, sell); Feed(c, s, b, q) == FeedRatio(c, s, x, ratio)
  {
    PieceIsShare(w, buy, sell, total, ratio, x);
    hide Piece, Sound, FeedRatio, Feed, Share;
    FeedIsFeedRatio(c, s, x, ratio);
  }

  function Volume(weight: real, buy: real, sell: real): real { weight * (buy + sell) }

  lemma {:induction false} VolumeAdds(v: real, w: real, buy: real, sell: real)
    requires 0.0 <= v && 0.0 <= w && 0.0 <= buy && 0.0 <= sell
    ensures Volume(v + w, buy, sell) == Volume(v, buy, sell) + Volume(w, buy, sell)
    ensures 0.0 <= Volume(v, buy, sell) && Volume(0.0, buy, sell) == 0.0
    ensures buy + sell == 0.0 ==> Volume(v, buy, sell) == 0.0
  {
  }

  lemma {:induction false} TwoPieces(c: Config, s: Vpin, v: real, w: real, buy: real, sell: real)
    requires c.Valid() && Sound(c, s) && 0.0 <= v && 0.0 <= w && 0.0 <= buy && 0.0 <= sell
    requires EndsClear(c, s.fill, Volume(v, buy, sell)) && Whole(c, Volume(w, buy, sell))
    ensures var (first, second, both) := (Piece(v, buy, sell), Piece(w, buy, sell), Piece(v + w, buy, sell));
            var fed := Feed(c, s, first.0, first.1);
            && Sound(c, fed) && fed.fill == EndFill(c, s.fill, Volume(v, buy, sell))
            && Feed(c, fed, second.0, second.1) == Feed(c, s, both.0, both.1)
  {
    hide Sound, FeedRatio, Feed, EndsClear, Whole;
    VolumeAdds(v, w, buy, sell);
    VolumeAdds(w, v, buy, sell);
    if buy + sell == 0.0 {
      NoFlow(c, s, v, buy, sell);
      NoFlow(c, s, w, buy, sell);
      NoFlow(c, s, v + w, buy, sell);
    } else {
      var total, ratio := buy + sell, buy / (buy + sell);
      var x, y := Volume(v, buy, sell), Volume(w, buy, sell);
      Fraction(buy, total);
      assert x == v * total && y == w * total && x + y == (v + w) * total;
      hide Piece, EndFill, Volume;
      FeedPiece(c, s, v, buy, sell, total, ratio, x);
      FeedPiece(c, s, v + w, buy, sell, total, ratio, x + y);
      FeedRatioTwice(c, s, x, y, ratio);
      FeedPiece(c, FeedRatio(c, s, x, ratio), w, buy, sell, total, ratio, y);
    }
  }

  /** The volumes of the pieces of a flow. */
  ghost function Volumes(weights: seq<real>, buy: real, sell: real): seq<real> {
    if weights == [] then [] else [Volume(weights[0], buy, sell)] + Volumes(weights[1..], buy, sell)
  }

  /** Clear pieces add up to a whole one. */
  lemma {:induction false} ClearSumWhole(c: Config, fill: real, weights: seq<real>, buy: real, sell: real)
    requires c.Valid() && AllClear(c, fill, Volumes(weights, buy, sell)) && 0.0 <= buy && 0.0 <= sell
    requires forall k :: 0 <= k < |weights| ==> 0.0 <= weights[k]
    ensures 0.0 <= Sum(weights) && Whole(c, Volume(Sum(weights), buy, sell))
    decreases |weights|
  {
    hide EndFill, Past, Volume;
    SumNonNegative(weights);
    if weights == [] {
      VolumeAdds(0.0, 0.0, buy, sell);
    } else {
      var xs, rest := Volumes(weights, buy, sell), weights[1..];
      assert xs[1..] == Volumes(rest, buy, sell);
      SumNonNegative(rest);
      VolumeAdds(weights[0], Sum(rest), buy, sell);
      VolumeAdds(Sum(rest), weights[0], buy, sell);
      if rest == [] {
        assert Sum(rest) == 0.0;
      } else {
        VolumesSize(rest, buy, sell);
        ClearSumWhole(c, EndFill(c, fill, xs[0]), rest, buy, sell);
      }
    }
  }

  lemma {:induction false} VolumesSize(weights: seq<real>, buy: real, sell: real)
    ensures |Volumes(weights, buy, sell)| == |weights|
  {
    if weights == [] {
    } else {
      VolumesSize(weights[1..], buy, sell);
    }
  }

  /**
   With any tolerance and across any number of closings: pieces of one ratio that are each taken whole and end at
   a bucket's end or clear of one by more than the tolerance leave exactly the state of their total.
   */
  lemma {:induction false} BatchingClearPieces(c: Config, s: Vpin, weights: seq<real>, buy: real, sell: real)
    requires c.Valid() && Sound(c, s) && 0.0 <= buy && 0.0 <= sell
    requires forall k :: 0 <= k < |weights| ==> 0.0 <= weights[k]
    requires AllClear(c, s.fill, Volumes(weights, buy, sell))
    ensures var whole := Piece(Sum(weights), buy, sell);
            FeedAll(c, s, Pieces(weights, buy, sell)) == Feed(c, s, whole.0, whole.1)
    decreases |weights|
  {
    hide Sound, Feed, Piece, EndsClear, Whole, EndFill, Volume;
    if weights == [] {
      NoFlow(c, s, 0.0, buy, sell);
    } else {
      var w, rest := weights[0], weights[1..];
      var first := Piece(w, buy, sell);
      var fed := Feed(c, s, first.0, first.1);
      assert Pieces(weights, buy, sell)[1..] == Pieces(rest, buy, sell);
      assert Volumes(weights, buy, sell)[1..] == Volumes(rest, buy, sell);
      VolumesSize(rest, buy, sell);
      if rest == [] {
        assert Sum(weights) == w;
        assert FeedAll(c, fed, []) == fed;
      } else {
        ClearSumWhole(c, EndFill(c, s.fill, Volume(w, buy, sell)), rest, buy, sell);
        TwoPieces(c, s, w, Sum(rest), buy, sell);
        BatchingClearPieces(c, fed, rest, buy, sell);
      }
    }
  }

  /** With a zero tolerance every piece is clear. */
  lemma {:induction false} AllClearAtZero(c: Config, fill: real, weights: seq<real>, buy: real, sell: real)
    requires c.Valid() && c.tolerance == 0.0 && 0.0 <= fill && 0.0 <= buy && 0.0 <= sell
    requires forall k :: 0 <= k < |weights| ==> 0.0 <= weights[k]
    ensures AllClear(c, fill, Volumes(weights, buy, sell))
    decreases |weights|
  {
    hide Past, Volume;
    if weights == [] {
    } else {
      var x := Volume(weights[0], buy, sell);
      VolumeAdds(weights[0], 0.0, buy, sell);
      PastSteps(c, fill, x);
      AllClearAtZero(c, EndFill(c, fill, x), weights[1..], buy, sell);
      assert Volumes(weights, buy, sell)[1..] == Volumes(weights[1..], buy, sell);
    }
  }

  lemma {:induction false} SumNonNegative(xs: seq<real>)
    requires forall k :: 0 <= k < |xs| ==> 0.0 <= xs[k]
    ensures 0.0 <= Sum(xs)
  {
    if xs == [] {
    } else {
      SumNonNegative(xs[1..]);
    }
  }

  /**
   With the tolerance taken as zero, feeding a flow in any number of pieces of its own ratio leaves exactly the
   state that feeding their total at once leaves.
   */
  lemma {:induction false} BatchingMakesNoDifference(c: Config, s: Vpin, weights: seq<real>, buy: real, sell: real)
    requires c.Valid() && c.tolerance == 0.0 && Sound(c, s) && 0.0 <= buy && 0.0 <= sell
    requires forall k :: 0 <= k < |weights| ==> 0.0 <= weights[k]
    ensures 0.0 <= Sum(weights)
    ensures var whole := Piece(Sum(weights), buy, sell);
            FeedAll(c, s, Pieces(weights, buy, sell)) == Feed(c, s, whole.0, whole.1)
  {
    SumNonNegative(weights);
    AllClearAtZero(c, s.fill, weights, buy, sell);
    hide Sound, Feed, Piece, AllClear;
    BatchingClearPieces(c, s, weights, buy, sell);
  }

  // ---------------------------------------------------------------- pieces within one bucket

  ghost predicate NonNegative(flows: seq<(real, real)>) {
    forall k :: 0 <= k < |flows| ==> 0.0 <= flows[k].0 && 0.0 <= flows[k].1
  }

  /** The pieces above the tolerance, the only ones the machine takes. */
  ghost function Kept(c: Config, flows: seq<(real, real)>): seq<(real, real)> {
    if flows == [] then []
    else (if c.tolerance < flows[0].0 + flows[0].1 then [flows[0]] else []) + Kept(c, flows[1..])
  }

  lemma {:induction false} KeptSums(c: Config, flows: seq<(real, real)>)
    requires NonNegative(flows)
    ensures 0.0 <= Buys(Kept(c, flows)) <= Buys(flows) && 0.0 <= Sells(Kept(c, flows)) <= Sells(flows)
    ensures Buys(Kept(c, flows)) == Buys(flows) && Sells(Kept(c, flows)) == Sells(flows) <==> AllWhole(c, flows)
    decreases |flows|
  {
    if flows == [] {
    } else {
      KeptSums(c, flows[1..]);
      KeptStep(c, flows);
      WholeStep(c, flows);
      hide AllWhole, Kept;
    }
  }

  ghost predicate AllWhole(c: Config, flows: seq<(real, real)>) {
    forall k :: 0 <= k < |flows| ==> Whole(c, flows[k].0 + flows[k].1)
  }

  lemma {:induction false} WholeStep(c: Config, flows: seq<(real, real)>)
    requires flows != []
    ensures AllWhole(c, flows) <==> Whole(c, flows[0].0 + flows[0].1) && AllWhole(c, flows[1..])
  {
    assert flows == [flows[0]] + flows[1..];
  }

  lemma {:induction false} KeptStep(c: Config, flows: seq<(real, real)>)
    requires flows != []
    ensures var (kept, rest) := (Kept(c, flows), Kept(c, flows[1..]));
            if c.tolerance < flows[0].0 + flows[0].1
            then Buys(kept) == flows[0].0 + Buys(rest) && Sells(kept) == flows[0].1 + Sells(rest)
            else kept == rest
  {
    var rest := Kept(c, flows[1..]);
    if c.tolerance < flows[0].0 + flows[0].1 {
      assert ([flows[0]] + rest)[1..] == rest;
    } else {
      assert [] + rest == rest;
    }
  }

  lemma {:induction false} FeedInBucket(c: Config, s: Vpin, buy: real, sell: real)
    requires c.Valid() && 0.0 <= buy && 0.0 <= sell && s.fill + (buy + sell) + c.tolerance < c.bucketSize
    ensures Feed(c, s, buy, sell) == if buy + sell <= c.tolerance then s else Pour(s, buy, sell)
  {
    if buy + sell > c.tolerance {
      var total := buy + sell;
      assert BuyPart(total, buy, sell) == buy by {
        Fraction(buy, total);
      }
      hide BuyPart, Close;
      assert Feed(c, Pour(s, buy, sell), 0.0, 0.0) == Pour(s, buy, sell);
    }
  }

  lemma {:induction false} FeedAllInBucket(c: Config, s: Vpin, flows: seq<(real, real)>)
    requires c.Valid() && NonNegative(flows)
    requires s.fill + (Buys(flows) + Sells(flows)) + c.tolerance < c.bucketSize
    ensures FeedAll(c, s, flows) == Pour(s, Buys(Kept(c, flows)), Sells(Kept(c, flows)))
    decreases |flows|
  {
    hide Feed;
    if flows == [] {
    } else {
      var b, q, rest := flows[0].0, flows[0].1, flows[1..];
      KeptSums(c, rest);
      FeedInBucket(c, s, b, q);
      FeedAllInBucket(c, Feed(c, s, b, q), rest);
      if c.tolerance < b + q {
        assert Kept(c, flows)[1..] == Kept(c, rest);
      } else {
        assert Kept(c, flows) == Kept(c, rest);
      }
    }
  }

  /**
   Within one bucket, exactly: any pieces, of any ratios, leave the state of their total if and only if the total is
   within the tolerance or every piece is nothing or above it.
   */
  lemma {:induction false} BatchingInBucketExactly(c: Config, s: Vpin, flows: seq<(real, real)>)
    requires c.Valid() && NonNegative(flows)
    requires s.fill + (Buys(flows) + Sells(flows)) + c.tolerance < c.bucketSize
    ensures FeedAll(c, s, flows) == Feed(c, s, Buys(flows), Sells(flows)) <==>
            Buys(flows) + Sells(flows) <= c.tolerance || AllWhole(c, flows)
  {
    hide Feed, FeedAll;
    KeptSums(c, flows);
    FeedAllInBucket(c, s, flows);
    FeedInBucket(c, s, Buys(flows), Sells(flows));
    if Buys(flows) + Sells(flows) <= c.tolerance {
      NothingKept(c, flows);
    }
  }

  lemma {:induction false} NothingKept(c: Config, flows: seq<(real, real)>)
    requires NonNegative(flows) && Buys(flows) + Sells(flows) <= c.tolerance
    ensures Kept(c, flows) == []
    decreases |flows|
  {
    if flows == [] {
    } else {
      KeptSums(c, flows[1..]);
      NothingKept(c, flows[1..]);
    }
  }

  lemma {:induction false} NoFlow(c: Config, s: Vpin, w: real, buy: real, sell: real)
    requires c.Valid() && (w == 0.0 || (buy == 0.0 && sell == 0.0))
    ensures var none := Piece(w, buy, sell); Feed(c, s, none.0, none.1) == s
  {
  }

  /** With the tolerance as it is, batching does make a difference: pieces within it are dropped. */
  lemma {:induction false} DustIsDropped(c: Config, s: Vpin, dust: real)
    requires c.Valid() && 0.0 < dust <= c.tolerance < 2.0 * dust && Sound(c, s)
    requires s.fill + 2.0 * dust + c.tolerance < c.bucketSize
    ensures FeedAll(c, s, Pieces([1.0, 1.0], dust, 0.0)) == s
    ensures Feed(c, s, 2.0 * dust, 0.0).fill == s.fill + 2.0 * dust
  {
    var pieces := Pieces([1.0, 1.0], dust, 0.0);
    assert [1.0, 1.0][1..] == [1.0] && [1.0][1..] == [];
    assert Pieces([1.0], dust, 0.0) == [(dust, 0.0)];
    assert pieces[1..] == [(dust, 0.0)] && [(dust, 0.0)][1..] == [];
    assert FeedAll(c, s, [(dust, 0.0)]) == FeedAll(c, s, []) == s;
    IsQuotient(2.0 * dust, 2.0 * dust, 1.0);
    assert BuyPart(2.0 * dust, 2.0 * dust, 0.0) == 2.0 * dust;
  }

  /** In exact arithmetic the number of buckets a flow closes is fixed by its volume alone. */
  lemma {:induction false} BucketsByVolume(c: Config, s: Vpin, buy: real, sell: real)
    requires c.Valid() && c.tolerance == 0.0 && Sound(c, s) && 0.0 <= buy && 0.0 <= sell
    ensures var (n, r) := (|Buckets(c, s, buy, sell)|, Feed(c, s, buy, sell));
            n as real * c.bucketSize + r.fill == s.fill + buy + sell && 0.0 <= r.fill < c.bucketSize
  {
    hide Feed, Buckets, WindowSound;
    VolumeConserved(c, s, buy, sell);
    FeedKeepsSound(c, s, buy, sell);
    FullBuckets(Buckets(c, s, buy, sell), c.bucketSize);
  }

  lemma {:induction false} FullBuckets(bs: seq<(real, real)>, size: real)
    requires forall k :: 0 <= k < |bs| ==> bs[k].0 + bs[k].1 == size
    ensures Buys(bs) + Sells(bs) == |bs| as real * size
  {
    if bs == [] {
    } else {
      FullBuckets(bs[1..], size);
      assert |bs| as real == |bs[1..]| as real + 1.0;
    }
  }

  // ---------------------------------------------------------------- the machine

  class ReplayVpinState {
    const bucketSize: real := DEFAULT_BUCKET_SIZE
    const rollingBucketCount: nat := DEFAULT_ROLLING_BUCKETS
    var currentBuy: real
    var currentSell: real
    var currentFill: real
    var imbalances: seq<real>
    var imbalanceSum: real
    var lastVpin: real

    function Parameters(): (c: Config) { Config(bucketSize, rollingBucketCount, TOLERANCE) }

    function View(): Vpin
      reads this
    {
      Vpin(currentBuy, currentSell, currentFill, imbalances, imbalanceSum, lastVpin)
    }

    constructor ()
      ensures View() == EMPTY
    {
      currentBuy, currentSell, currentFill := 0.0, 0.0, 0.0;
      imbalances, imbalanceSum, lastVpin := [], 0.0, 0.0;
    }

    method IngestFlow(buyQty: real, sellQty: real)
      modifies this
      ensures View() == Feed(Parameters(), old(View()), MaxReal(buyQty, 0.0), MaxReal(sellQty, 0.0))
    {
      hide Close, Rounds, BuyPart;
      ghost var c := Parameters();
      var remainBuy, remainSell := MaxReal(buyQty, 0.0), MaxReal(sellQty, 0.0);
      while remainBuy + remainSell > TOLERANCE
        invariant Feed(c, View(), remainBuy, remainSell) ==
                  Feed(c, old(View()), MaxReal(buyQty, 0.0), MaxReal(sellQty, 0.0))
        decreases Rounds(c, View(), remainBuy + remainSell)
      {
        RoundsDrop(c, View(), remainBuy, remainSell);
        if currentFill + TOLERANCE >= bucketSize {
          CloseBucket();
        }
        var remainTotal := remainBuy + remainSell;
        var capacity := MaxReal(bucketSize - currentFill, 0.0);
        if capacity <= TOLERANCE {
          break;
        }
        var take := MinReal(remainTotal, capacity);
        var buyPart := BuyPart(take, remainBuy, remainSell);
        var sellPart := take - buyPart;
        currentBuy := currentBuy + buyPart;
        currentSell := currentSell + sellPart;
        currentFill := currentFill + take;
        remainBuy := remainBuy - buyPart;
        remainSell := remainSell - sellPart;
        if currentFill + TOLERANCE >= bucketSize {
          CloseBucket();
        }
      }
    }

    /** Drops the oldest imbalances until the window fits. */
    method TrimWindow()
      modifies this`imbalances, this`imbalanceSum
      ensures imbalances == LastOf(old(imbalances), rollingBucketCount)
      ensures IsLast(imbalances, rollingBucketCount, old(imbalances))
      ensures imbalanceSum == old(imbalanceSum) - Sum(old(imbalances)[..|old(imbalances)| - |imbalances|])
    {
      ghost var grown, dropped := imbalances, 0;
      while |imbalances| > rollingBucketCount
        invariant 0 <= dropped <= |grown| && imbalances == grown[dropped..]
        invariant dropped == 0 || |imbalances| >= rollingBucketCount
        invariant imbalanceSum == old(imbalanceSum) - Sum(grown[..dropped])
      {
        SumConcat(grown[..dropped], [grown[dropped]]);
        assert grown[..dropped] + [grown[dropped]] == grown[..dropped + 1];
        imbalanceSum := imbalanceSum - imbalances[0];
        imbalances := imbalances[1..];
        dropped := dropped + 1;
      }
    }

    method CloseBucket()
      modifies this
      ensures View() == Close(Parameters(), old(View()))
      ensures old(currentFill) > TOLERANCE ==>
                IsLast(imbalances, rollingBucketCount, old(imbalances) + [Abs(old(currentBuy) - old(currentSell))])
    {
      hide Sum, LastOf, IsLast, Clamp01, Abs;
      if currentFill <= TOLERANCE {
        currentBuy, currentSell, currentFill := 0.0, 0.0, 0.0;
        return;
      }
      var imbalance := Abs(currentBuy - currentSell);
      imbalances := imbalances + [imbalance];
      imbalanceSum := imbalanceSum + imbalance;
      TrimWindow();
      if |imbalances| >= rollingBucketCount && bucketSize > TOLERANCE {
        var denom := rollingBucketCount as real * bucketSize;
        lastVpin := Clamp01(imbalanceSum / denom);
      } else {
        lastVpin := 0.0;
      }
      currentBuy, currentSell, currentFill := 0.0, 0.0, 0.0;
    }

    method Snapshot() returns (snapshot: Vpin)
      ensures snapshot == View()
    {
      snapshot := Vpin(currentBuy, currentSell, currentFill, imbalances, imbalanceSum, lastVpin);
    }

    method Restore(snapshot: Vpin)
      modifies this
      ensures View() == snapshot
    {
      currentBuy := snapshot.buy;
      currentSell := snapshot.sell;
      currentFill := snapshot.fill;
      imbalances := snapshot.imbalances;
      imbalanceSum := snapshot.sum;
      lastVpin := snapshot.last;
    }
  }
}
