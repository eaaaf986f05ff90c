/** Facts about sizes, quotients and sorting that several models use. */
module Arithmetic {

  lemma SubsetSize<T>(a: set<T>, b: set<T>)
    requires a <= b
    ensures |a| <= |b|
  {
    assert b == a + (b - a);
  }

  lemma QuotientIs(x: real, y: real, q: real)
    requires y > 0.0 && q * y == x
    ensures x / y == q
  {
    var p := x / y;
    assert p * y == x;
    assert p > q ==> p * y > q * y;
    assert p < q ==> p * y < q * y;
  }

  // ---------------------------------------------------------------------------------------
  // Sorting by a key

  predicate Ascending<T>(s: seq<T>, key: T -> real) {
    forall i, j :: 0 <= i <= j < |s| ==> key(s[i]) <= key(s[j])
  }

  /** Insertion after everything with a key not above the new one. */
  function Place<T>(s: seq<T>, x: T, key: T -> real): (r: seq<T>)
    requires Ascending(s, key)
    ensures Ascending(r, key) && multiset(r) == multiset(s) + multiset{x} && |r| == |s| + 1
  {
    if s == [] then [x]
    else if key(x) >= key(s[|s| - 1]) then s + [x]
    else
      var r := Place(s[..|s| - 1], x, key);
      PlaceBelow(s, x, r, key);
      r + [s[|s| - 1]]
  }

  lemma PlaceBelow<T>(s: seq<T>, x: T, r: seq<T>, key: T -> real)
    requires Ascending(s, key) && s != [] && key(x) < key(s[|s| - 1])
    requires Ascending(r, key) && multiset(r) == multiset(s[..|s| - 1]) + multiset{x}
    ensures Ascending(r + [s[|s| - 1]], key) && multiset(r + [s[|s| - 1]]) == multiset(s) + multiset{x}
  {
    var n := |s| - 1;
    assert s == s[..n] + [s[n]];
    forall i | 0 <= i < |r| ensures key(r[i]) <= key(s[n]) {
      assert r[i] in multiset(r);
      if r[i] != x {
        assert r[i] in s[..n];
        var k :| 0 <= k < n && s[k] == r[i];
      }
    }
  }

  function Sorted<T>(values: seq<T>, key: T -> real): (r: seq<T>)
    ensures Ascending(r, key) && multiset(r) == multiset(values) && |r| == |values|
  {
    if values == [] then []
    else
      var n := |values| - 1;
      assert values == values[..n] + [values[n]];
      Place(Sorted(values[..n], key), values[n], key)
  }
}
