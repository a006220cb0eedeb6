/**
 * Python's stable `list.sort(key=k, reverse=True)` (and SQL `ORDER BY k DESC` with ties kept
 * in row order), written as insertion sort on values.
 */
module Sorting {

  /** Puts `x` in front of the first element whose key does not exceed its own. */
  function InsertDesc<T>(x: T, s: seq<T>, key: T -> real): (r: seq<T>)
    ensures |r| == |s| + 1
    ensures multiset(r) == multiset(s) + multiset{x}
  {
    if s == [] || key(s[0]) <= key(x) then [x] + s
    else
      assert s == [s[0]] + s[1..];
      [s[0]] + InsertDesc(x, s[1..], key)
  }

  /** Sorts by descending key; equal keys keep their original order. */
  function SortDesc<T>(s: seq<T>, key: T -> real): (r: seq<T>)
    ensures |r| == |s|
    ensures multiset(r) == multiset(s)
  {
    if s == [] then []
    else
      var sorted := SortDesc(s[1..], key);
      assert s == [s[0]] + s[1..];
      InsertDesc(s[0], sorted, key)
  }

  ghost predicate SortedDesc<T>(s: seq<T>, key: T -> real) {
    forall i, j :: 0 <= i < j < |s| ==> key(s[i]) >= key(s[j])
  }

  /** The elements of `s` whose key is `v`, in their order in `s`. */
  function WithKey<T>(s: seq<T>, key: T -> real, v: real): seq<T> {
    if s == [] then []
    else (if key(s[0]) == v then [s[0]] else []) + WithKey(s[1..], key, v)
  }

  lemma {:induction false} InsertDescSorted<T>(x: T, s: seq<T>, key: T -> real)
    requires SortedDesc(s, key)
    ensures SortedDesc(InsertDesc(x, s, key), key)
    decreases |s|
  {
    if s != [] && key(s[0]) > key(x) {
      var rest := InsertDesc(x, s[1..], key);
      InsertDescSorted(x, s[1..], key);
      forall k | 0 <= k < |rest|
        ensures key(s[0]) >= key(rest[k])
      {
        assert rest[k] in multiset(rest);
        assert rest[k] in multiset(s[1..]) + multiset{x};
        if rest[k] != x {
          assert rest[k] in s[1..];
          var m :| 0 <= m < |s[1..]| && s[1..][m] == rest[k];
          assert s[1 + m] == rest[k];
        }
      }
    }
  }

  /** The result of SortDesc is ordered by descending key. */
  lemma {:induction false} SortDescSorted<T>(s: seq<T>, key: T -> real)
    ensures SortedDesc(SortDesc(s, key), key)
    decreases |s|
  {
    if s != [] {
      SortDescSorted(s[1..], key);
      InsertDescSorted(s[0], SortDesc(s[1..], key), key);
    }
  }

  lemma {:induction false} InsertDescWithKey<T>(x: T, s: seq<T>, key: T -> real, v: real)
    ensures WithKey(InsertDesc(x, s, key), key, v)
         == (if key(x) == v then [x] else []) + WithKey(s, key, v)
    decreases |s|
  {
    var hx := if key(x) == v then [x] else [];
    if s == [] || key(s[0]) <= key(x) {
      var r := [x] + s;
      assert r[0] == x && r[1..] == s;
      assert WithKey(r, key, v) == hx + WithKey(s, key, v);
    } else {
      var rest := InsertDesc(x, s[1..], key);
      var r := [s[0]] + rest;
      var h0 := if key(s[0]) == v then [s[0]] else [];
      assert r[0] == s[0] && r[1..] == rest;
      assert WithKey(r, key, v) == h0 + WithKey(rest, key, v);
      InsertDescWithKey(x, s[1..], key, v);
      assert WithKey(rest, key, v) == hx + WithKey(s[1..], key, v);
      assert WithKey(s, key, v) == h0 + WithKey(s[1..], key, v);
      var w := WithKey(s[1..], key, v);
      if key(s[0]) == v {
        assert hx == [];
        assert h0 + (hx + w) == hx + (h0 + w);
      } else {
        assert h0 == [];
        assert h0 + (hx + w) == hx + (h0 + w);
      }
    }
  }

  /** Stability: for every key value, the elements with that key keep their relative order. */
  lemma {:induction false} SortDescStable<T>(s: seq<T>, key: T -> real, v: real)
    ensures WithKey(SortDesc(s, key), key, v) == WithKey(s, key, v)
    decreases |s|
  {
    if s != [] {
      SortDescStable(s[1..], key, v);
      InsertDescWithKey(s[0], SortDesc(s[1..], key), key, v);
    }
  }

  /** The first element of a sorted, non-empty permutation carries the largest key. */
  lemma SortDescFirstIsMax<T>(s: seq<T>, key: T -> real, y: T)
    requires y in s
    ensures SortDesc(s, key) != [] && key(SortDesc(s, key)[0]) >= key(y)
  {
    var r := SortDesc(s, key);
    SortDescSorted(s, key);
    assert y in multiset(r);
    var j :| 0 <= j < |r| && r[j] == y;
    if j > 0 {
      assert key(r[0]) >= key(r[j]);
    }
  }
}
