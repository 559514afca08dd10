/**
 Feeding a flow in pieces of its own ratio against feeding it at once, exactly, at any tolerance and across any
 number of closings.  What the machine does with such pieces is decided by their volumes alone.
 */
module VpinBatching {
  import opened Options
  import opened VpinBuckets

  // ---------------------------------------------------------------- the volumes alone

  ghost predicate Open(c: Config, fill: real) {
    c.Valid() && 0.0 <= fill && fill + c.tolerance < c.bucketSize
  }

  function Fulls(n: nat, size: real): seq<real> {
    if n == 0 then [] else [size] + Fulls(n - 1, size)
  }

  /** How many buckets the volume fills to the brim. */
  function Brims(c: Config, fill: real, x: real): (n: nat)
    requires c.Valid() && 0.0 <= fill && 0.0 <= x
  {
    FloorSteps(fill + x, c.bucketSize);
    BrimsNatural(fill + x, c.bucketSize);
    ((fill + x) / c.bucketSize).Floor as nat
  }

  lemma {:induction false} BrimsNatural(u: real, size: real)
    requires 0.0 < size && 0.0 <= u
    ensures 0 <= (u / size).Floor
  {
    Scaled(u, size);
  }

  /** The volume is taken, and its end closes a bucket that is not quite full. */
  predicate ClosesShort(c: Config, fill: real, x: real)
    requires c.Valid()
  {
    c.tolerance < x && c.bucketSize <= Past(c, fill, x) + c.tolerance
  }

  /** The part of a volume that is dropped: all of it, or what is left past a filled bucket, within the tolerance. */
  function Dropped(c: Config, fill: real, x: real): real
    requires c.Valid()
  {
    if x <= c.tolerance then x
    else if Past(c, fill, x) <= c.tolerance then Past(c, fill, x)
    else 0.0
  }

  /** The volumes of the buckets that a volume closes. */
  function Closed(c: Config, fill: real, x: real): seq<real>
    requires c.Valid() && 0.0 <= fill && 0.0 <= x
  {
    if x <= c.tolerance then []
    else Fulls(Brims(c, fill, x), c.bucketSize) + (if ClosesShort(c, fill, x) then [Past(c, fill, x)] else [])
  }

  /** The fill that a volume leaves in the open bucket. */
  function Left(c: Config, fill: real, x: real): real
    requires c.Valid()
  {
    if x <= c.tolerance then fill
    else if Past(c, fill, x) <= c.tolerance || ClosesShort(c, fill, x) then 0.0
    else Past(c, fill, x)
  }

  ghost predicate NonNegativeAll(xs: seq<real>) {
    forall k :: 0 <= k < |xs| ==> 0.0 <= xs[k]
  }

  lemma {:induction false} LeftIsOpen(c: Config, fill: real, x: real)
    requires Open(c, fill) && 0.0 <= x
    ensures Open(c, Left(c, fill, x))
  {
    PastSteps(c, fill, x);
    hide Past;
  }

  /** The volumes of the buckets that the pieces close, and the fill they leave, one piece after the other. */
  ghost function ClosedAll(c: Config, fill: real, xs: seq<real>): seq<real>
    requires Open(c, fill) && NonNegativeAll(xs)
    decreases |xs|
  {
    if xs == [] then []
    else
      LeftIsOpen(c, fill, xs[0]);
      Closed(c, fill, xs[0]) + ClosedAll(c, Left(c, fill, xs[0]), xs[1..])
  }

  ghost function LeftAll(c: Config, fill: real, xs: seq<real>): real
    requires Open(c, fill) && NonNegativeAll(xs)
    decreases |xs|
  {
    if xs == [] then fill
    else
      LeftIsOpen(c, fill, xs[0]);
      LeftAll(c, Left(c, fill, xs[0]), xs[1..])
  }

  ghost function DroppedAll(c: Config, fill: real, xs: seq<real>): real
    requires Open(c, fill) && NonNegativeAll(xs)
    decreases |xs|
  {
    if xs == [] then 0.0
    else
      LeftIsOpen(c, fill, xs[0]);
      Dropped(c, fill, xs[0]) + DroppedAll(c, Left(c, fill, xs[0]), xs[1..])
  }

  /** Once a piece has closed a bucket that is not quite full, no later piece is taken. */
  ghost predicate NothingAfterShort(c: Config, fill: real, xs: seq<real>)
    requires Open(c, fill) && NonNegativeAll(xs)
    decreases |xs|
  {
    xs == [] ||
    (LeftIsOpen(c, fill, xs[0]);
     && (ClosesShort(c, fill, xs[0]) ==> forall k :: 1 <= k < |xs| ==> xs[k] <= c.tolerance)
     && NothingAfterShort(c, Left(c, fill, xs[0]), xs[1..]))
  }

  // ---------------------------------------------------------------- tidy histories

  /** All closed buckets are full, but perhaps the last, and then nothing has been taken since. */
  ghost predicate Tidy(c: Config, closed: seq<real>, left: real)
    decreases |closed|
  {
    && 0.0 <= left && left + c.tolerance < c.bucketSize
    && (closed != [] ==>
          if |closed| == 1
          then c.bucketSize - c.tolerance <= closed[0] <= c.bucketSize && (closed[0] < c.bucketSize ==> left == 0.0)
          else closed[0] == c.bucketSize && Tidy(c, closed[1..], left))
  }

  lemma {:induction false} TidyHolds(c: Config, closed: seq<real>, left: real)
    requires c.Valid() && Tidy(c, closed, left)
    ensures 0.0 <= Sum(closed)
    ensures closed != [] ==> c.bucketSize - c.tolerance <= Sum(closed)
    decreases |closed|
  {
    if |closed| <= 1 {
      assert closed != [] ==> Sum(closed[1..]) == 0.0;
    } else {
      TidyHolds(c, closed[1..], left);
    }
  }

  /** The volume taken decides a tidy history. */
  lemma {:induction false} TidyUnique(c: Config, v: seq<real>, g: real, w: seq<real>, h: real)
    requires c.Valid() && Tidy(c, v, g) && Tidy(c, w, h) && Sum(v) + g == Sum(w) + h
    ensures v == w && g == h
    decreases |v|
  {
    TidyHolds(c, v, g);
    TidyHolds(c, w, h);
    if v == [] || w == [] {
    } else {
      if |v| > 1 { TidyHolds(c, v[1..], g); }
      if |w| > 1 { TidyHolds(c, w[1..], h); }
      assert Sum(v) == v[0] + Sum(v[1..]) && Sum(w) == w[0] + Sum(w[1..]);
      if |v| > 1 && |w| > 1 {
        TidyUnique(c, v[1..], g, w[1..], h);
        assert v == [v[0]] + v[1..] && w == [w[0]] + w[1..];
      } else {
        assert |v| == 1 ==> v[1..] == [];
        assert |w| == 1 ==> w[1..] == [];
      }
    }
  }

  /** Full buckets in front, and none, make no difference to tidiness. */
  lemma {:induction false} TidyAfterFulls(c: Config, n: nat, w: seq<real>, h: real)
    requires c.Valid() && 0.0 <= h && h + c.tolerance < c.bucketSize
    ensures Tidy(c, Fulls(n, c.bucketSize) + w, h) <==> Tidy(c, w, h)
    decreases n
  {
    if n == 0 {
      assert Fulls(0, c.bucketSize) + w == w;
    } else {
      var all := Fulls(n, c.bucketSize) + w;
      assert all[1..] == Fulls(n - 1, c.bucketSize) + w;
      TidyAfterFulls(c, n - 1, w, h);
      if |all| == 1 {
        assert all[1..] == [] && w == [];
      }
    }
  }

  lemma {:induction false} SumFulls(n: nat, size: real)
    ensures Sum(Fulls(n, size)) == n as real * size
    ensures |Fulls(n, size)| == n
  {
    if n == 0 {
    } else {
      SumFulls(n - 1, size);
      assert Fulls(n, size)[1..] == Fulls(n - 1, size);
      assert n as real * size == (n - 1) as real * size + size;
    }
  }

  /** Full buckets and what reaches past them make up the volume. */
  lemma {:induction false} SumFilled(c: Config, fill: real, x: real)
    requires Open(c, fill) && 0.0 <= x
    ensures Sum(Fulls(Brims(c, fill, x), c.bucketSize)) + Past(c, fill, x) == fill + x
  {
    SumFulls(Brims(c, fill, x), c.bucketSize);
  }

  /** Every unit of a volume is in a closed bucket, left in the open one, or dropped; and its history is tidy. */
  lemma {:induction false} PieceTidy(c: Config, fill: real, x: real)
    requires Open(c, fill) && 0.0 <= x
    ensures Tidy(c, Closed(c, fill, x), Left(c, fill, x))
    ensures fill + x == Sum(Closed(c, fill, x)) + Left(c, fill, x) + Dropped(c, fill, x)
  {
    PastSteps(c, fill, x);
    LeftIsOpen(c, fill, x);
    SumFilled(c, fill, x);
    hide Past, Brims, Fulls;
    var n, p := Brims(c, fill, x), Past(c, fill, x);
    if x <= c.tolerance {
    } else if ClosesShort(c, fill, x) {
      SumConcat(Fulls(n, c.bucketSize), [p]);
      TidyAfterFulls(c, n, [p], 0.0);
      assert [p][1..] == [];
    } else {
      assert Fulls(n, c.bucketSize) + [] == Fulls(n, c.bucketSize);
      TidyAfterFulls(c, n, [], Left(c, fill, x));
    }
  }

  lemma {:induction false} PiecesConserve(c: Config, fill: real, xs: seq<real>)
    requires Open(c, fill) && NonNegativeAll(xs)
    ensures fill + Sum(xs) == Sum(ClosedAll(c, fill, xs)) + LeftAll(c, fill, xs) + DroppedAll(c, fill, xs)
    ensures Open(c, LeftAll(c, fill, xs))
    decreases |xs|
  {
    if xs == [] {
    } else {
      LeftIsOpen(c, fill, xs[0]);
      PieceTidy(c, fill, xs[0]);
      hide Closed, Left, Dropped, Tidy;
      PiecesConserve(c, Left(c, fill, xs[0]), xs[1..]);
      SumConcat(Closed(c, fill, xs[0]), ClosedAll(c, Left(c, fill, xs[0]), xs[1..]));
    }
  }

  /** Pieces that close nothing only add to the open bucket, and those above the tolerance do. */
  lemma {:induction false} NothingClosed(c: Config, fill: real, xs: seq<real>)
    requires Open(c, fill) && NonNegativeAll(xs) && ClosedAll(c, fill, xs) == []
    ensures fill <= LeftAll(c, fill, xs)
    ensures LeftAll(c, fill, xs) == fill ==> forall k :: 0 <= k < |xs| ==> xs[k] <= c.tolerance
    decreases |xs|
  {
    hide Closed, Left, Past, Brims;
    if xs == [] {
    } else {
      var x := xs[0];
      LeftIsOpen(c, fill, x);
      assert Closed(c, fill, x) == [];
      OpenTakes(c, fill, x);
      NothingClosed(c, Left(c, fill, x), xs[1..]);
      assert xs == [x] + xs[1..];
    }
  }

  lemma {:induction false} OpenTakes(c: Config, fill: real, x: real)
    requires Open(c, fill) && 0.0 <= x && Closed(c, fill, x) == []
    ensures Left(c, fill, x) == if x <= c.tolerance then fill else fill + x
  {
    PastSteps(c, fill, x);
    SumFulls(Brims(c, fill, x), c.bucketSize);
    assert c.tolerance < x ==> Brims(c, fill, x) == 0 && !ClosesShort(c, fill, x);
  }

  /** Pieces within the tolerance do nothing. */
  lemma {:induction false} DustDoesNothing(c: Config, fill: real, xs: seq<real>)
    requires Open(c, fill) && NonNegativeAll(xs) && forall k :: 0 <= k < |xs| ==> xs[k] <= c.tolerance
    ensures ClosedAll(c, fill, xs) == [] && LeftAll(c, fill, xs) == fill
    decreases |xs|
  {
    if xs == [] {
    } else {
      DustDoesNothing(c, fill, xs[1..]);
    }
  }

  /** After a short closing a tidy history has ended. */
  lemma {:induction false} AfterShort(c: Config, fill: real, x: real, rest: seq<real>)
    requires Open(c, fill) && 0.0 <= x && ClosesShort(c, fill, x) && NonNegativeAll(rest)
    ensures var (left, v) := (Left(c, fill, x), Closed(c, fill, x));
            && left == 0.0 && Open(c, left)
            && (Tidy(c, v + ClosedAll(c, left, rest), LeftAll(c, left, rest)) <==>
                  forall k :: 0 <= k < |rest| ==> rest[k] <= c.tolerance)
  {
    var n, p := Brims(c, fill, x), Past(c, fill, x);
    PastSteps(c, fill, x);
    LeftIsOpen(c, fill, x);
    PiecesConserve(c, 0.0, rest);
    hide Past, Brims;
    var w, h := ClosedAll(c, 0.0, rest), LeftAll(c, 0.0, rest);
    TidyAfterFulls(c, n, [p] + w, h);
    assert Closed(c, fill, x) + w == Fulls(n, c.bucketSize) + ([p] + w);
    if forall k :: 0 <= k < |rest| ==> rest[k] <= c.tolerance {
      DustDoesNothing(c, 0.0, rest);
      assert [p] + w == [p];
    } else if w == [] {
      NothingClosed(c, 0.0, rest);
      assert [p] + w == [p];
    } else {
      assert ([p] + w)[0] == p;
    }
  }

  /** A piece that closes nothing short leaves the tidiness of what follows to the rest. */
  lemma {:induction false} AfterOther(c: Config, fill: real, x: real, w: seq<real>, h: real)
    requires Open(c, fill) && 0.0 <= x && !ClosesShort(c, fill, x) && Open(c, h)
    ensures Tidy(c, Closed(c, fill, x) + w, h) <==> Tidy(c, w, h)
  {
    hide Tidy, Past, Brims, Fulls;
    if x <= c.tolerance {
      assert [] + w == w;
    } else {
      var fulls := Fulls(Brims(c, fill, x), c.bucketSize);
      assert fulls + [] == fulls;
      TidyAfterFulls(c, Brims(c, fill, x), w, h);
    }
  }

  /** The pieces leave a tidy history exactly when nothing is taken after a short closing. */
  lemma {:induction false} TidyExactly(c: Config, fill: real, xs: seq<real>)
    requires Open(c, fill) && NonNegativeAll(xs)
    ensures Tidy(c, ClosedAll(c, fill, xs), LeftAll(c, fill, xs)) <==> NothingAfterShort(c, fill, xs)
    decreases |xs|
  {
    if xs == [] {
    } else {
      var x, rest := xs[0], xs[1..];
      var left := Left(c, fill, x);
      LeftIsOpen(c, fill, x);
      PiecesConserve(c, left, rest);
      TidyExactly(c, left, rest);
      assert xs == [x] + rest;
      hide Tidy, Closed, Left, Past;
      if ClosesShort(c, fill, x) {
        AfterShort(c, fill, x, rest);
        if forall k :: 0 <= k < |rest| ==> rest[k] <= c.tolerance {
          DustNeverShort(c, left, rest);
        }
      } else {
        AfterOther(c, fill, x, ClosedAll(c, left, rest), LeftAll(c, left, rest));
      }
    }
  }

  lemma {:induction false} DustNeverShort(c: Config, fill: real, xs: seq<real>)
    requires Open(c, fill) && NonNegativeAll(xs) && forall k :: 0 <= k < |xs| ==> xs[k] <= c.tolerance
    ensures NothingAfterShort(c, fill, xs)
    decreases |xs|
  {
    if xs == [] {
    } else {
      DustNeverShort(c, fill, xs[1..]);
    }
  }

  // ---------------------------------------------------------------- pieces against their total

  /** The pieces drop as much as their total does, and take nothing after a short closing. */
  ghost predicate LeavesNoTrace(c: Config, fill: real, xs: seq<real>)
    requires Open(c, fill) && NonNegativeAll(xs)
  {
    DroppedAll(c, fill, xs) == Dropped(c, fill, Sum(xs)) && NothingAfterShort(c, fill, xs)
  }

  /** The volumes of the closed buckets and of the open one, exactly. */
  lemma {:induction false} VolumesExactly(c: Config, fill: real, xs: seq<real>)
    requires Open(c, fill) && NonNegativeAll(xs)
    ensures 0.0 <= Sum(xs)
    ensures ClosedAll(c, fill, xs) == Closed(c, fill, Sum(xs)) && LeftAll(c, fill, xs) == Left(c, fill, Sum(xs))
            <==> LeavesNoTrace(c, fill, xs)
  {
    SumNonNegative(xs);
    PiecesConserve(c, fill, xs);
    PieceTidy(c, fill, Sum(xs));
    TidyExactly(c, fill, xs);
    hide ClosedAll, LeftAll, DroppedAll, Closed, Left, Dropped, NothingAfterShort, Tidy;
    if LeavesNoTrace(c, fill, xs) {
      TidyUnique(c, ClosedAll(c, fill, xs), LeftAll(c, fill, xs),
                 Closed(c, fill, Sum(xs)), Left(c, fill, Sum(xs)));
    }
  }

  // ---------------------------------------------------------------- the machine follows the volumes

  /** The state after closing buckets of the given volumes and leaving the given fill, all of one ratio. */
  ghost function Played(c: Config, s: Vpin, closed: seq<real>, left: real, ratio: real): Vpin
    requires c.Valid()
    decreases |closed|
  {
    if closed == [] then RatioPour(s, left - s.fill, ratio)
    else Played(c, Close(c, RatioPour(s, closed[0] - s.fill, ratio)), closed[1..], left, ratio)
  }

  /** The buckets closed on the way. */
  ghost function PlayedBuckets(c: Config, s: Vpin, closed: seq<real>, ratio: real): seq<(real, real)>
    requires c.Valid()
    decreases |closed|
  {
    if closed == [] then []
    else
      var p := RatioPour(s, closed[0] - s.fill, ratio);
      [(p.buy, p.sell)] + PlayedBuckets(c, Close(c, p), closed[1..], ratio)
  }

  lemma {:induction false} PlayedOn(
    c: Config, s: Vpin, v: seq<real>, g: real, w: seq<real>, h: real, ratio: real)
    requires c.Valid()
    ensures Played(c, Played(c, s, v, g, ratio), w, h, ratio) == Played(c, s, v + w, h, ratio)
    ensures PlayedBuckets(c, s, v, ratio) + PlayedBuckets(c, Played(c, s, v, g, ratio), w, ratio)
            == PlayedBuckets(c, s, v + w, ratio)
    decreases |v|
  {
    hide Close, RatioPour;
    if v == [] {
      assert v + w == w;
      var m := Played(c, s, v, g, ratio);
      assert [] + PlayedBuckets(c, m, w, ratio) == PlayedBuckets(c, m, w, ratio);
      assert m.fill == g by {
        FillOfPour(s, g - s.fill, ratio);
      }
      var more := (if w == [] then h else w[0]) - g;
      RatioPourAdds(s, g - s.fill, more, ratio);
    } else {
      var p := RatioPour(s, v[0] - s.fill, ratio);
      assert (v + w)[0] == v[0] && (v + w)[1..] == v[1..] + w;
      PlayedOn(c, Close(c, p), v[1..], g, w, h, ratio);
      assert [(p.buy, p.sell)] + PlayedBuckets(c, Close(c, p), v[1..], ratio)
             + PlayedBuckets(c, Played(c, s, v, g, ratio), w, ratio)
             == [(p.buy, p.sell)] + (PlayedBuckets(c, Close(c, p), v[1..], ratio)
             + PlayedBuckets(c, Played(c, s, v, g, ratio), w, ratio));
    }
  }

  lemma {:induction false} FillOfPour(s: Vpin, volume: real, ratio: real)
    ensures RatioPour(s, volume, ratio).fill == s.fill + volume
    ensures RatioPour(s, 0.0, ratio) == s
  {
  }

  /** What one pour of a proportioned flow takes. */
  lemma {:induction false} RatioPoured(c: Config, s: Vpin, x: real, ratio: real)
    requires Proportioned(c, s, x, ratio) && c.tolerance < x
    ensures var take := MinReal(x, Room(c, s));
            var poured := Poured(c, s, Share(ratio, x), x - Share(ratio, x));
            && poured.0 == RatioPour(s, take, ratio)
            && poured.1 == Share(ratio, take) && poured.2 == take - Share(ratio, take)
            && Share(ratio, x) - Share(ratio, take) == Share(ratio, x - take)
  {
    hide WindowSound, Share;
    var take := MinReal(x, Room(c, s));
    ShareAdds(ratio, x - take, take);
    BuyPartIsShare(ratio, take, x);
  }

  /** The buckets a proportioned flow closes. */
  ghost function RatioBuckets(c: Config, s: Vpin, x: real, ratio: real): seq<(real, real)>
    requires Proportioned(c, s, x, ratio)
  {
    ShareAdds(ratio, x, 0.0);
    Buckets(c, s, Share(ratio, x), x - Share(ratio, x))
  }

  lemma {:induction false} RatioBucketsStep(c: Config, s: Vpin, x: real, ratio: real)
    requires Proportioned(c, s, x, ratio) && c.tolerance < x
    ensures var take := MinReal(x, Room(c, s));
            var p := RatioPour(s, take, ratio);
            && Proportioned(c, Settle(c, p), x - take, ratio)
            && RatioBuckets(c, s, x, ratio) ==
                 (if Full(c, p) then [(p.buy, p.sell)] else []) + RatioBuckets(c, Settle(c, p), x - take, ratio)
  {
    hide Close, Sound, Rounds, Share, RatioPour, Poured, Buckets, Full, Settle;
    RatioStep(c, s, x, ratio);
    ShareAdds(ratio, x, 0.0);
    BucketsUnfold(c, s, Share(ratio, x), x - Share(ratio, x));
    RatioPoured(c, s, x, ratio);
  }

  /** A flow of one ratio does what its volume says. */
  lemma {:induction false} FollowsVolume(c: Config, s: Vpin, x: real, ratio: real)
    requires Proportioned(c, s, x, ratio)
    ensures FeedRatio(c, s, x, ratio) == Played(c, s, Closed(c, s.fill, x), Left(c, s.fill, x), ratio)
    ensures RatioBuckets(c, s, x, ratio) == PlayedBuckets(c, s, Closed(c, s.fill, x), ratio)
    decreases Rounds(c, s, x)
  {
    hide Close, Sound, Rounds, Settle, Share, RatioPour, RatioBuckets;
    if x <= c.tolerance {
      FillOfPour(s, 0.0, ratio);
      NoBuckets(c, s, x, ratio);
    } else {
      RoomLeft(c, s);
      RatioStep(c, s, x, ratio);
      RatioBucketsStep(c, s, x, ratio);
      if x < Room(c, s) {
        FollowsPart(c, s, x, ratio);
      } else {
        var p := RatioPour(s, Room(c, s), ratio);
        FillOfPour(s, Room(c, s), ratio);
        assert Settle(c, p) == Close(c, p) by { FullSettles(c, p); }
        CloseEmpties(c, p);
        FollowsVolume(c, Close(c, p), x - Room(c, s), ratio);
        SoundIsOpen(c, s);
        ClosedAfterBrim(c, s.fill, x);
      }
    }
  }

  lemma SoundIsOpen(c: Config, s: Vpin)
    requires c.Valid() && Sound(c, s)
    ensures Open(c, s.fill) && s.buy + s.sell == s.fill
  {
  }

  lemma FullSettles(c: Config, p: Vpin)
    requires c.Valid() && c.bucketSize <= p.fill + c.tolerance
    ensures Full(c, p) && Settle(c, p) == Close(c, p)
  {
  }

  lemma {:induction false} NoBuckets(c: Config, s: Vpin, x: real, ratio: real)
    requires Proportioned(c, s, x, ratio) && x <= c.tolerance
    ensures RatioBuckets(c, s, x, ratio) == []
  {
    ShareAdds(ratio, x, 0.0);
  }

  /** A volume that fills a bucket closes it first and then does what is left does to the empty one. */
  lemma {:induction false} ClosedAfterBrim(c: Config, fill: real, x: real)
    requires Open(c, fill) && c.tolerance < x && c.bucketSize - fill <= x
    ensures var rest := x - (c.bucketSize - fill);
            && Closed(c, fill, x) == [c.bucketSize] + Closed(c, 0.0, rest)
            && Left(c, fill, x) == Left(c, 0.0, rest)
  {
    var rest := x - (c.bucketSize - fill);
    PastSteps(c, fill, x);
    PastSteps(c, 0.0, rest);
    FloorSteps(fill + x, c.bucketSize);
    assert 0.0 + rest == (fill + x) - c.bucketSize;
    assert Brims(c, fill, x) == Brims(c, 0.0, rest) + 1;
    if rest <= c.tolerance {
      FloorSteps(0.0 + rest, c.bucketSize);
      assert Brims(c, 0.0, rest) == 0 && Past(c, fill, x) == rest;
      assert Fulls(1, c.bucketSize) == [c.bucketSize] + Fulls(0, c.bucketSize);
    } else {
      hide Past, Brims;
      var n, tail := Brims(c, 0.0, rest), if ClosesShort(c, fill, x) then [Past(c, fill, x)] else [];
      assert Fulls(n + 1, c.bucketSize) + tail == [c.bucketSize] + (Fulls(n, c.bucketSize) + tail);
    }
  }

  lemma {:induction false} PartVolumes(c: Config, fill: real, x: real)
    requires Open(c, fill) && c.tolerance < x < c.bucketSize - fill
    ensures var short := c.bucketSize <= fill + x + c.tolerance;
            && Closed(c, fill, x) == (if short then [fill + x] else [])
            && Left(c, fill, x) == (if short then 0.0 else fill + x)
  {
    PastSteps(c, fill, x);
    FloorSteps(fill + x, c.bucketSize);
    assert Brims(c, fill, x) == 0 && Past(c, fill, x) == fill + x;
    hide Past, Brims;
    assert Fulls(0, c.bucketSize) + [fill + x] == [fill + x];
  }

  lemma {:induction false} PartStep(c: Config, s: Vpin, x: real, ratio: real)
    requires Proportioned(c, s, x, ratio) && c.tolerance < x < Room(c, s)
    ensures var p := RatioPour(s, x, ratio);
            && p.fill == s.fill + x
            && FeedRatio(c, s, x, ratio) == Settle(c, p)
            && RatioBuckets(c, s, x, ratio) == (if Full(c, p) then [(p.buy, p.sell)] else [])
  {
    var p := RatioPour(s, x, ratio);
    FillOfPour(s, x, ratio);
    RatioStep(c, s, x, ratio);
    RatioBucketsStep(c, s, x, ratio);
    assert MinReal(x, Room(c, s)) == x;
    hide Close, Sound, Rounds, Share, RatioPour, RatioBuckets, Settle, Full, Room;
    NothingLeftToFeed(c, Settle(c, p), ratio);
    NoBuckets(c, Settle(c, p), 0.0, ratio);
  }

  /** A volume that fits the open bucket stays there or closes it short. */
  lemma {:induction false} FollowsPart(c: Config, s: Vpin, x: real, ratio: real)
    requires Proportioned(c, s, x, ratio) && c.tolerance < x < Room(c, s)
    ensures FeedRatio(c, s, x, ratio) == Played(c, s, Closed(c, s.fill, x), Left(c, s.fill, x), ratio)
    ensures RatioBuckets(c, s, x, ratio) == PlayedBuckets(c, s, Closed(c, s.fill, x), ratio)
  {
    var p := RatioPour(s, x, ratio);
    SoundIsOpen(c, s);
    PartVolumes(c, s.fill, x);
    PartStep(c, s, x, ratio);
    CloseEmpties(c, p);
    FillOfPour(Close(c, p), 0.0, ratio);
    hide Close, Sound, Share, RatioPour, RatioBuckets, Closed, Left, FeedRatio;
    if Full(c, p) {
      assert [s.fill + x][1..] == [];
      assert [(p.buy, p.sell)] + [] == [(p.buy, p.sell)];
    }
  }

  // ---------------------------------------------------------------- any number of pieces

  lemma {:induction false} PlayedFill(c: Config, s: Vpin, closed: seq<real>, left: real, ratio: real)
    requires c.Valid()
    ensures Played(c, s, closed, left, ratio).fill == left
    decreases |closed|
  {
    hide Close;
    if closed == [] {
      FillOfPour(s, left - s.fill, ratio);
    } else {
      PlayedFill(c, Close(c, RatioPour(s, closed[0] - s.fill, ratio)), closed[1..], left, ratio);
    }
  }

  /** The buckets closed tell their volumes. */
  lemma {:induction false} PlayedVolumes(c: Config, s: Vpin, closed: seq<real>, ratio: real)
    requires c.Valid() && s.buy + s.sell == s.fill
    ensures var bs := PlayedBuckets(c, s, closed, ratio);
            |bs| == |closed| && forall k :: 0 <= k < |bs| ==> bs[k].0 + bs[k].1 == closed[k]
    decreases |closed|
  {
    if closed == [] {
    } else {
      var p := RatioPour(s, closed[0] - s.fill, ratio);
      CloseEmpties(c, p);
      hide Close;
      PlayedVolumes(c, Close(c, p), closed[1..], ratio);
    }
  }

  /** Of one ratio, the buckets closed and the state left tell the volumes, and the volumes tell them. */
  lemma {:induction false} PlayedDecides(
    c: Config, s: Vpin, v: seq<real>, g: real, w: seq<real>, h: real, ratio: real)
    requires c.Valid() && s.buy + s.sell == s.fill
    ensures PlayedBuckets(c, s, v, ratio) == PlayedBuckets(c, s, w, ratio)
            && Played(c, s, v, g, ratio) == Played(c, s, w, h, ratio)
            <==> v == w && g == h
  {
    PlayedVolumes(c, s, v, ratio);
    PlayedVolumes(c, s, w, ratio);
    PlayedFill(c, s, v, g, ratio);
    PlayedFill(c, s, w, h, ratio);
    hide Played, PlayedBuckets;
    if PlayedBuckets(c, s, v, ratio) == PlayedBuckets(c, s, w, ratio) {
      assert forall k :: 0 <= k < |v| ==> v[k] == w[k];
    }
  }

  /** The buckets that flows close, one after the other. */
  ghost function BucketsAll(c: Config, s: Vpin, flows: seq<(real, real)>): seq<(real, real)>
    requires c.Valid() && Sound(c, s) && NonNegative(flows)
    decreases |flows|
  {
    if flows == [] then []
    else
      FeedKeepsSound(c, s, flows[0].0, flows[0].1);
      Buckets(c, s, flows[0].0, flows[0].1) + BucketsAll(c, Feed(c, s, flows[0].0, flows[0].1), flows[1..])
  }

  lemma {:induction false} PiecesNonNegative(weights: seq<real>, buy: real, sell: real)
    requires NonNegativeAll(weights) && 0.0 <= buy && 0.0 <= sell
    ensures NonNegative(Pieces(weights, buy, sell)) && NonNegativeAll(Volumes(weights, buy, sell))
    decreases |weights|
  {
    if weights == [] {
    } else {
      PieceNonNegative(weights[0], buy, sell);
      hide Piece, Volume;
      PiecesNonNegative(weights[1..], buy, sell);
    }
  }

  lemma {:induction false} PieceNonNegative(w: real, buy: real, sell: real)
    requires 0.0 <= w && 0.0 <= buy && 0.0 <= sell
    ensures 0.0 <= Piece(w, buy, sell).0 && 0.0 <= Piece(w, buy, sell).1 && 0.0 <= Volume(w, buy, sell)
  {
  }

  /** The share of a flow that is bought, any share if there is no flow. */
  ghost predicate IsRatio(ratio: real, buy: real, sell: real) {
    0.0 <= ratio <= 1.0 && ratio * (buy + sell) == buy
  }

  lemma {:induction false} SomeRatio(buy: real, sell: real) returns (ratio: real)
    requires 0.0 <= buy && 0.0 <= sell
    ensures IsRatio(ratio, buy, sell)
  {
    if buy + sell == 0.0 {
      ratio := 0.0;
    } else {
      ratio := buy / (buy + sell);
      Fraction(buy, buy + sell);
    }
  }

  /** One piece does what its volume says. */
  lemma {:induction false} PieceFollows(c: Config, s: Vpin, w: real, buy: real, sell: real, ratio: real)
    requires c.Valid() && Sound(c, s) && 0.0 <= w && 0.0 <= buy && 0.0 <= sell && IsRatio(ratio, buy, sell)
    requires 0.0 <= Piece(w, buy, sell).0 && 0.0 <= Piece(w, buy, sell).1
    ensures var (piece, x) := (Piece(w, buy, sell), Volume(w, buy, sell));
            && 0.0 <= x
            && Feed(c, s, piece.0, piece.1) == Played(c, s, Closed(c, s.fill, x), Left(c, s.fill, x), ratio)
            && Buckets(c, s, piece.0, piece.1) == PlayedBuckets(c, s, Closed(c, s.fill, x), ratio)
            && Feed(c, s, piece.0, piece.1).fill == Left(c, s.fill, x)
  {
    PieceNonNegative(w, buy, sell);
    var x := Volume(w, buy, sell);
    PieceIsShare(w, buy, sell, buy + sell, ratio, x);
    FeedPiece(c, s, w, buy, sell, buy + sell, ratio, x);
    assert x - Share(ratio, x) == Piece(w, buy, sell).1;
    hide Sound, Feed, FeedRatio, Played, PlayedBuckets, Closed, Left, Piece, Volume, Share, Buckets;
    FollowsVolume(c, s, x, ratio);
    PlayedFill(c, s, Closed(c, s.fill, x), Left(c, s.fill, x), ratio);
  }

  lemma {:induction false} PiecesFollow(c: Config, s: Vpin, weights: seq<real>, buy: real, sell: real, ratio: real)
    requires c.Valid() && Sound(c, s) && NonNegativeAll(weights)
    requires 0.0 <= buy && 0.0 <= sell && IsRatio(ratio, buy, sell)
    requires Open(c, s.fill) && NonNegativeAll(Volumes(weights, buy, sell))
    requires NonNegative(Pieces(weights, buy, sell))
    ensures var (pieces, xs) := (Pieces(weights, buy, sell), Volumes(weights, buy, sell));
            && FeedAll(c, s, pieces) == Played(c, s, ClosedAll(c, s.fill, xs), LeftAll(c, s.fill, xs), ratio)
            && BucketsAll(c, s, pieces) == PlayedBuckets(c, s, ClosedAll(c, s.fill, xs), ratio)
    decreases |weights|
  {
    var pieces, xs := Pieces(weights, buy, sell), Volumes(weights, buy, sell);
    hide Sound, Feed, Buckets, Piece, Volume, Closed, Left, IsRatio;
    if weights == [] {
      FillOfPour(s, 0.0, ratio);
    } else {
      var w, rest := weights[0], weights[1..];
      var piece, x := Piece(w, buy, sell), Volume(w, buy, sell);
      assert pieces[1..] == Pieces(rest, buy, sell) && xs[1..] == Volumes(rest, buy, sell);
      assert pieces[0] == piece && xs[0] == x;
      PieceFollows(c, s, w, buy, sell, ratio);
      FeedKeepsSound(c, s, piece.0, piece.1);
      LeftIsOpen(c, s.fill, x);
      var fed := Feed(c, s, piece.0, piece.1);
      PiecesNonNegative(rest, buy, sell);
      PiecesFollow(c, fed, rest, buy, sell, ratio);
      var more := Volumes(rest, buy, sell);
      PlayedOn(c, s, Closed(c, s.fill, x), Left(c, s.fill, x),
               ClosedAll(c, fed.fill, more), LeftAll(c, fed.fill, more), ratio);
    }
  }

  lemma {:induction false} VolumesAdd(weights: seq<real>, buy: real, sell: real)
    requires NonNegativeAll(weights) && 0.0 <= buy && 0.0 <= sell
    ensures 0.0 <= Sum(weights) && Sum(Volumes(weights, buy, sell)) == Volume(Sum(weights), buy, sell)
    decreases |weights|
  {
    hide Volume;
    SumNonNegative(weights);
    if weights == [] {
      VolumeAdds(0.0, 0.0, buy, sell);
    } else {
      VolumesAdd(weights[1..], buy, sell);
      VolumeAdds(weights[0], Sum(weights[1..]), buy, sell);
      assert Volumes(weights, buy, sell)[1..] == Volumes(weights[1..], buy, sell);
    }
  }

  /**
   Batching, exactly: at any tolerance and across any number of closings, pieces of one ratio close the very buckets
   that their total closes and leave the very state it leaves, if and only if they drop as much volume as their
   total does and take nothing after closing a bucket that is not quite full.  Both can be computed from the volumes
   and the open fill before anything is fed.
   */
  lemma {:induction false} BatchingExactly(c: Config, s: Vpin, weights: seq<real>, buy: real, sell: real)
    requires c.Valid() && Sound(c, s) && NonNegativeAll(weights) && 0.0 <= buy && 0.0 <= sell
    ensures NonNegative(Pieces(weights, buy, sell)) && NonNegativeAll(Volumes(weights, buy, sell))
    ensures Open(c, s.fill) && 0.0 <= Piece(Sum(weights), buy, sell).0 && 0.0 <= Piece(Sum(weights), buy, sell).1
    ensures var (pieces, whole) := (Pieces(weights, buy, sell), Piece(Sum(weights), buy, sell));
            BucketsAll(c, s, pieces) == Buckets(c, s, whole.0, whole.1)
            && FeedAll(c, s, pieces) == Feed(c, s, whole.0, whole.1)
            <==> LeavesNoTrace(c, s.fill, Volumes(weights, buy, sell))
  {
    var ratio := SomeRatio(buy, sell);
    PiecesNonNegative(weights, buy, sell);
    VolumesAdd(weights, buy, sell);
    PieceNonNegative(Sum(weights), buy, sell);
    SoundIsOpen(c, s);
    var xs, x := Volumes(weights, buy, sell), Volume(Sum(weights), buy, sell);
    hide Sound, Feed, FeedAll, Buckets, BucketsAll, Pieces, Volumes, Piece, Volume, Sum, IsRatio, NonNegative;
    hide NonNegativeAll, Closed, ClosedAll, Left, LeftAll, LeavesNoTrace, Open, Played, PlayedBuckets;
    PiecesFollow(c, s, weights, buy, sell, ratio);
    PieceFollows(c, s, Sum(weights), buy, sell, ratio);
    VolumesExactly(c, s.fill, xs);
    PlayedDecides(c, s, ClosedAll(c, s.fill, xs), LeftAll(c, s.fill, xs),
                  Closed(c, s.fill, x), Left(c, s.fill, x), ratio);
  }
}
