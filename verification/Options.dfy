/** The usual optional value. */
module Options {
  datatype Option<+T> = None | Some(value: T) {
    function UnwrapOr(default: T): T {
      if Some? then value else default
    }
  }

  function Max(a: int, b: int): int {
    if a < b then b else a
  }

  function Min(a: int, b: int): int {
    if a < b then a else b
  }

  function MaxReal(a: real, b: real): real {
    if a < b then b else a
  }

  function MinReal(a: real, b: real): real {
    if a < b then a else b
  }

  lemma SomeMember<T(!new)>(s: set<T>) returns (x: T)
    requires s != {}
    ensures x in s
  {
    x :| x in s;
  }

  lemma {:induction false} LeastKey(keys: set<int>)
    requires keys != {}
    ensures exists m :: m in keys && forall k :: k in keys ==> m <= k
  {
    var x := SomeMember(keys);
    if keys != {x} {
      LeastKey(keys - {x});
      var m :| m in keys - {x} && forall k :: k in keys - {x} ==> m <= k;
      var least := if x < m then x else m;
      assert forall k :: k in keys ==> k == x || k in keys - {x};
      assert least in keys;
    }
  }

  lemma {:induction false} GreatestKey(keys: set<int>)
    requires keys != {}
    ensures exists m :: m in keys && forall k :: k in keys ==> k <= m
  {
    var x := SomeMember(keys);
    if keys != {x} {
      GreatestKey(keys - {x});
      var m :| m in keys - {x} && forall k :: k in keys - {x} ==> k <= m;
      var greatest := if x < m then m else x;
      assert forall k :: k in keys ==> k == x || k in keys - {x};
      assert greatest in keys;
    }
  }

  lemma SubsetSize<T>(a: set<T>, b: set<T>)
    requires a <= b
    ensures |a| <= |b|
  {
    assert b == a + (b - a);
    assert |a + (b - a)| == |a| + |b - a|;
  }
}
