/**
 The iteration order of `std::map<int64_t, _>`: a finite set of keys listed in ascending order.
 */
module OrderedKeys {

  ghost predicate Ascending(s: seq<int>) {
    forall i, j :: 0 <= i < j < |s| ==> s[i] < s[j]
  }

  lemma Inhabited(keys: set<int>)
    ensures keys == {} || exists x :: x in keys
  {
    if forall x :: x !in keys {
      assert keys == {};
    }
  }

  lemma NonemptyList<T>(s: seq<T>)
    ensures s == [] || exists x :: x in s
  {
    if s != [] {
      var x := s[0];
      assert x in s;
    }
  }

  predicate IsLeast(keys: set<int>, m: int) {
    m in keys && forall k :: k in keys ==> m <= k
  }

  lemma {:induction false} LeastExists(keys: set<int>)
    requires keys != {}
    ensures exists m :: IsLeast(keys, m)
  {
    Inhabited(keys);
    var x :| x in keys;
    var rest := keys - {x};
    var least := x;
    if rest != {} {
      LeastExists(rest);
      var m :| IsLeast(rest, m);
      least := if m <= x then m else x;
    }
    forall k | k in keys ensures least <= k {
      assert k == x || k in rest;
    }
    assert IsLeast(keys, least);
  }

  /** `begin()->first`. */
  function Least(keys: set<int>): (m: int)
    requires keys != {}
    ensures m in keys
    ensures forall k :: k in keys ==> m <= k
  {
    LeastExists(keys);
    var m :| IsLeast(keys, m);
    m
  }

  /** The keys in the order in which a loop over the map visits them. */
  function SortedKeys(keys: set<int>): (s: seq<int>)
    ensures |s| == |keys|
    ensures Ascending(s)
    ensures forall k :: k in s <==> k in keys
    decreases |keys|
  {
    if keys == {} then []
    else
      var m := Least(keys);
      var rest := SortedKeys(keys - {m});
      [m] + rest
  }

  /** `rbegin()->first`. */
  function Greatest(keys: set<int>): (m: int)
    requires keys != {}
    ensures m in keys
    ensures forall k :: k in keys ==> k <= m
  {
    var s := SortedKeys(keys);
    var m := s[|s| - 1];
    assert forall k :: k in keys ==> k <= m by {
      forall k | k in keys ensures k <= m {
        assert k in s;
      }
    }
    m
  }

  /** Keys confined to an interval are at most as many as the interval is long. */
  lemma {:induction false} CardinalityBound(keys: set<int>, lo: int, hi: int)
    requires lo <= hi
    requires forall k :: k in keys ==> lo <= k < hi
    ensures |keys| <= hi - lo
    decreases hi - lo
  {
    if lo == hi {
      if keys != {} {
        var k :| k in keys;
        assert false;
      }
    } else {
      CardinalityBound(keys - {hi - 1}, lo, hi - 1);
      assert keys <= keys - {hi - 1} + {hi - 1};
    }
  }
}
