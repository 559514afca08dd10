/**
 Orderings and sorting: sets listed in a strict order, sequences stably sorted by an integer key,
 and lexicographic comparison.
 */
module Ordering {
  import opened Options

  /** less is irreflexive and transitive, and decides every two members of s. */
  ghost predicate Orders<T(!new)>(less: (T, T) -> bool, s: set<T>) {
    && (forall x :: !less(x, x))
    && (forall x, y, z :: less(x, y) && less(y, z) ==> less(x, z))
    && (forall x, y :: x in s && y in s && x != y ==> less(x, y) || less(y, x))
  }

  ghost predicate IsLeast<T>(x: T, s: set<T>, less: (T, T) -> bool) {
    x in s && forall y :: y in s && y != x ==> less(x, y)
  }

  lemma {:induction false} LeastExists<T(!new)>(s: set<T>, less: (T, T) -> bool)
    requires Orders(less, s) && s != {}
    ensures exists x :: IsLeast(x, s, less)
    decreases |s|
  {
    var x := SomeMember(s);
    var rest := s - {x};
    if rest == {} {
      assert s == {x};
      assert IsLeast(x, s, less);
    } else {
      LeastExists(rest, less);
      var y :| IsLeast(y, rest, less);
      var least := if less(x, y) then x else y;
      forall z | z in s && z != least ensures less(least, z) {
        assert z == x || z in rest;
      }
      assert IsLeast(least, s, less);
    }
  }

  function Least<T(!new, ==)>(s: set<T>, less: (T, T) -> bool): (x: T)
    requires Orders(less, s) && s != {}
    ensures IsLeast(x, s, less)
  {
    LeastExists(s, less);
    var x :| x in s && forall y :: y in s && y != x ==> less(x, y);
    x
  }

  /** The members of s from least to greatest. */
  function Listed<T(!new, ==)>(s: set<T>, less: (T, T) -> bool): (xs: seq<T>)
    requires Orders(less, s)
    ensures |xs| == |s|
    ensures forall x :: x in xs <==> x in s
    decreases |s|
  {
    if s == {} then []
    else
      var x := Least(s, less);
      [x] + Listed(s - {x}, less)
  }

  ghost predicate Ascending<T>(xs: seq<T>, less: (T, T) -> bool) {
    forall i, j :: 0 <= i < j < |xs| ==> less(xs[i], xs[j])
  }

  lemma {:induction false} ListedAscends<T(!new)>(s: set<T>, less: (T, T) -> bool)
    requires Orders(less, s)
    ensures Ascending(Listed(s, less), less)
    decreases |s|
  {
    if s == {} {
    } else {
      var x := Least(s, less);
      ListedAscends(s - {x}, less);
      var rest := Listed(s - {x}, less);
      assert forall k :: 0 <= k < |rest| ==> rest[k] in s - {x};
    }
  }

  lemma HeadIsMember<T>(xs: seq<T>)
    ensures xs == [] || xs[0] in xs
  {
  }

  /** An ascending sequence is determined by its members. */
  lemma {:induction false} AscendingUnique<T(!new)>(xs: seq<T>, ys: seq<T>, less: (T, T) -> bool)
    requires forall x :: !less(x, x)
    requires forall x, y, z :: less(x, y) && less(y, z) ==> less(x, z)
    requires Ascending(xs, less) && Ascending(ys, less)
    requires forall x :: x in xs <==> x in ys
    ensures xs == ys
  {
    if xs == [] {
      HeadIsMember(ys);
    } else {
      assert xs[0] in ys;
      assert ys[0] in xs;
      assert xs[0] == ys[0];
      forall x ensures x in xs[1..] <==> x in ys[1..] {
        TailMembers(xs, less, x);
        TailMembers(ys, less, x);
      }
      AscendingUnique(xs[1..], ys[1..], less);
    }
  }

  lemma TailMembers<T(!new)>(xs: seq<T>, less: (T, T) -> bool, x: T)
    requires xs != [] && Ascending(xs, less) && forall y :: !less(y, y)
    ensures x in xs[1..] <==> x in xs && x != xs[0]
  {
    if x in xs[1..] {
      var k :| 0 <= k < |xs[1..]| && xs[1..][k] == x;
      assert less(xs[0], xs[k + 1]);
    }
  }

  // ---------------------------------------------------------------- the first n

  function Take<T>(xs: seq<T>, n: nat): seq<T> {
    if |xs| <= n then xs else xs[..n]
  }

  /** LIMIT n of an ordered query. */
  function FirstN<T(!new, ==)>(s: set<T>, less: (T, T) -> bool, n: nat): (xs: seq<T>)
    requires Orders(less, s)
    ensures forall x :: x in xs ==> x in s
  {
    Take(Listed(s, less), n)
  }

  lemma FirstNStep<T(!new)>(s: set<T>, less: (T, T) -> bool, n: nat)
    requires Orders(less, s) && s != {} && n > 0
    ensures FirstN(s, less, n) == [Least(s, less)] + FirstN(s - {Least(s, less)}, less, n - 1)
  {
  }

  /** Any set between the first n of s and s itself has the same first n. */
  lemma {:induction false} FirstNOfSuperset<T(!new)>(s: set<T>, t: set<T>, less: (T, T) -> bool, n: nat)
    requires Orders(less, s) && t <= s
    requires forall x :: x in FirstN(s, less, n) ==> x in t
    ensures Orders(less, t) && FirstN(t, less, n) == FirstN(s, less, n)
    decreases n
  {
    if n == 0 || s == {} {
    } else {
      var x := Least(s, less);
      FirstNStep(s, less, n);
      assert x in FirstN(s, less, n);
      assert IsLeast(x, t, less);
      assert Least(t, less) == x;
      FirstNStep(t, less, n);
      forall y | y in FirstN(s - {x}, less, n - 1) ensures y in t - {x} {
        assert y in FirstN(s, less, n);
      }
      FirstNOfSuperset(s - {x}, t - {x}, less, n - 1);
    }
  }

  ghost function Before<T>(s: set<T>, less: (T, T) -> bool, x: T): set<T> {
    set y | y in s && less(y, x)
  }

  ghost function Beyond<T>(s: set<T>, less: (T, T) -> bool, x: T): set<T> {
    set y | y in s && less(x, y)
  }

  /** A member is among the first n exactly when fewer than n members precede it. */
  lemma {:induction false} FirstNByRank<T(!new)>(s: set<T>, less: (T, T) -> bool, n: nat, x: T)
    requires Orders(less, s) && x in s
    ensures x in FirstN(s, less, n) <==> |Before(s, less, x)| < n
    decreases n
  {
    if n == 0 {
      assert FirstN(s, less, 0) == [];
    } else {
      hide FirstN, Before;
      var m := Least(s, less);
      FirstNStep(s, less, n);
      BeforeStep(s, less, m, x);
      if x != m {
        FirstNByRank(s - {m}, less, n - 1, x);
      }
    }
  }

  lemma {:induction false} BeforeStep<T(!new)>(s: set<T>, less: (T, T) -> bool, m: T, x: T)
    requires Orders(less, s) && IsLeast(m, s, less) && x in s
    ensures |Before(s, less, x)| == if x == m then 0 else |Before(s - {m}, less, x)| + 1
  {
    if x == m {
      assert Before(s, less, x) == {};
    } else {
      assert Before(s, less, x) == Before(s - {m}, less, x) + {m};
    }
  }

  /** Behind a position of an ascending listing come exactly the members beyond the one before it. */
  lemma {:induction false} TailIsBeyond<T(!new)>(all: seq<T>, s: set<T>, less: (T, T) -> bool, k: nat, x: T)
    requires Ascending(all, less) && 0 < k <= |all| && forall y :: y in all <==> y in s
    requires (forall y :: !less(y, y)) && forall y, z, w :: less(y, z) && less(z, w) ==> less(y, w)
    ensures x in all[k..] <==> x in Beyond(s, less, all[k - 1])
  {
    assert forall j :: 0 <= j < k - 1 ==> less(all[j], all[k - 1]);
    if x in all[k..] {
      var i :| 0 <= i < |all[k..]| && all[k..][i] == x;
      assert less(all[k - 1], all[k + i]);
    }
    if x in s && less(all[k - 1], x) {
      var i :| 0 <= i < |all| && all[i] == x;
      assert x == all[k..][i - k];
    }
  }

  /** The first n of s, then the rest of s after them, list s. */
  lemma {:induction false} ListedSplits<T(!new)>(s: set<T>, less: (T, T) -> bool, n: nat)
    requires Orders(less, s) && n > 0 && s != {}
    ensures var page := FirstN(s, less, n);
            && page != []
            && var rest := Beyond(s, less, page[|page| - 1]);
               Orders(less, rest) && Listed(s, less) == page + Listed(rest, less)
  {
    var all, page := Listed(s, less), FirstN(s, less, n);
    ListedAscends(s, less);
    hide Listed, Beyond;
    var tail := all[|page|..];
    assert all == page + tail;
    var rest := Beyond(s, less, page[|page| - 1]);
    forall x ensures x in tail <==> x in rest { TailIsBeyond(all, s, less, |page|, x); }
    ListedAscends(rest, less);
    AscendingUnique(tail, Listed(rest, less), less);
  }

  // ---------------------------------------------------------------- lexicographic order

  predicate CharLess(a: char, b: char) { a < b }

  predicate Lex<T(==)>(xs: seq<T>, ys: seq<T>, less: (T, T) -> bool) {
    if ys == [] then false
    else if xs == [] then true
    else less(xs[0], ys[0]) || (xs[0] == ys[0] && Lex(xs[1..], ys[1..], less))
  }

  ghost predicate StrictTotal<T(!new)>(less: (T, T) -> bool) {
    && (forall x :: !less(x, x))
    && (forall x, y, z :: less(x, y) && less(y, z) ==> less(x, z))
    && (forall x, y :: x != y ==> less(x, y) || less(y, x))
  }

  lemma {:induction false} LexTransitive<T(!new)>(xs: seq<T>, ys: seq<T>, zs: seq<T>, less: (T, T) -> bool)
    requires StrictTotal(less) && Lex(xs, ys, less) && Lex(ys, zs, less)
    ensures Lex(xs, zs, less)
  {
    if xs != [] && ys != [] && zs != [] && xs[0] == ys[0] == zs[0] {
      LexTransitive(xs[1..], ys[1..], zs[1..], less);
    }
  }

  lemma {:induction false} LexTotal<T(!new)>(xs: seq<T>, ys: seq<T>, less: (T, T) -> bool)
    requires StrictTotal(less)
    ensures !Lex(xs, xs, less)
    ensures xs != ys ==> Lex(xs, ys, less) || Lex(ys, xs, less)
    decreases |xs|
  {
    if xs == [] {
    } else {
      LexTotal(xs[1..], xs[1..], less);
      if ys != [] && xs[0] == ys[0] {
        LexTotal(xs[1..], ys[1..], less);
        assert xs == [xs[0]] + xs[1..] && ys == [ys[0]] + ys[1..];
      }
    }
  }

  lemma {:induction false} LexPrefix<T>(p: seq<T>, xs: seq<T>, ys: seq<T>, less: (T, T) -> bool)
    requires forall x :: x in p ==> !less(x, x)
    ensures Lex(p + xs, p + ys, less) == Lex(xs, ys, less)
  {
    if p == [] {
      assert p + xs == xs && p + ys == ys;
    } else {
      assert (p + xs)[1..] == p[1..] + xs && (p + ys)[1..] == p[1..] + ys;
      LexPrefix(p[1..], xs, ys, less);
    }
  }

  // ---------------------------------------------------------------- stable sort by key

  function Insert<T>(x: T, xs: seq<T>, key: T -> int): seq<T> {
    if xs == [] || key(x) <= key(xs[0]) then [x] + xs else [xs[0]] + Insert(x, xs[1..], key)
  }

  function SortBy<T>(xs: seq<T>, key: T -> int): seq<T> {
    if xs == [] then [] else Insert(xs[0], SortBy(xs[1..], key), key)
  }

  ghost predicate KeySorted<T>(xs: seq<T>, key: T -> int) {
    forall i, j :: 0 <= i < j < |xs| ==> key(xs[i]) <= key(xs[j])
  }

  lemma {:induction false} InsertPermutes<T>(x: T, xs: seq<T>, key: T -> int)
    ensures multiset(Insert(x, xs, key)) == multiset([x] + xs)
  {
    if xs == [] || key(x) <= key(xs[0]) {
    } else {
      InsertPermutes(x, xs[1..], key);
      assert xs == [xs[0]] + xs[1..];
    }
  }

  lemma {:induction false} InsertSorts<T(!new)>(x: T, xs: seq<T>, key: T -> int)
    requires KeySorted(xs, key)
    ensures KeySorted(Insert(x, xs, key), key)
    ensures |Insert(x, xs, key)| == |xs| + 1
    ensures forall y :: y in Insert(x, xs, key) <==> y == x || y in xs
  {
    if xs == [] || key(x) <= key(xs[0]) {
    } else {
      InsertSorts(x, xs[1..], key);
      var rest := Insert(x, xs[1..], key);
      forall k | 0 <= k < |rest| ensures key(xs[0]) <= key(rest[k]) {
        assert rest[k] in rest;
      }
    }
  }

  lemma {:induction false} SortBySorts<T(!new)>(xs: seq<T>, key: T -> int)
    ensures KeySorted(SortBy(xs, key), key)
    ensures |SortBy(xs, key)| == |xs|
    ensures forall y :: y in SortBy(xs, key) <==> y in xs
  {
    if xs == [] {
    } else {
      SortBySorts(xs[1..], key);
      InsertSorts(xs[0], SortBy(xs[1..], key), key);
      assert xs == [xs[0]] + xs[1..];
    }
  }

  lemma {:induction false} SortByPermutes<T>(xs: seq<T>, key: T -> int)
    ensures multiset(SortBy(xs, key)) == multiset(xs)
  {
    if xs == [] {
    } else {
      var rest := SortBy(xs[1..], key);
      SortByPermutes(xs[1..], key);
      InsertPermutes(xs[0], rest, key);
      assert multiset([xs[0]] + rest) == multiset([xs[0]]) + multiset(rest);
      assert xs == [xs[0]] + xs[1..];
    }
  }

  ghost predicate DistinctKeys<T>(xs: seq<T>, key: T -> int) {
    forall i, j :: 0 <= i < j < |xs| ==> key(xs[i]) != key(xs[j])
  }

  ghost predicate StrictlySorted<T>(xs: seq<T>, key: T -> int) {
    forall i, j :: 0 <= i < j < |xs| ==> key(xs[i]) < key(xs[j])
  }

  lemma {:induction false} InsertDistinct<T(!new)>(x: T, xs: seq<T>, key: T -> int)
    requires StrictlySorted(xs, key) && forall y :: y in xs ==> key(y) != key(x)
    ensures StrictlySorted(Insert(x, xs, key), key)
    ensures forall y :: y in Insert(x, xs, key) <==> y == x || y in xs
  {
    if xs == [] || key(x) <= key(xs[0]) {
    } else {
      InsertDistinct(x, xs[1..], key);
      var rest := Insert(x, xs[1..], key);
      forall k | 0 <= k < |rest| ensures key(xs[0]) < key(rest[k]) {
        assert rest[k] in rest;
      }
    }
  }

  /** Members with distinct keys have one sorted order. */
  lemma {:induction false} SortByDistinct<T(!new)>(xs: seq<T>, key: T -> int)
    requires DistinctKeys(xs, key)
    ensures StrictlySorted(SortBy(xs, key), key)
    ensures forall y :: y in SortBy(xs, key) <==> y in xs
  {
    if xs == [] {
    } else {
      SortByDistinct(xs[1..], key);
      forall y | y in SortBy(xs[1..], key) ensures key(y) != key(xs[0]) {
        var k :| 0 <= k < |xs[1..]| && xs[1..][k] == y;
        assert key(xs[0]) != key(xs[k + 1]);
      }
      InsertDistinct(xs[0], SortBy(xs[1..], key), key);
      assert xs == [xs[0]] + xs[1..];
    }
  }
}
