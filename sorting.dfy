/**
 * A descending sort by a real-valued key, as SQL `ORDER BY key DESC` and
 * Python's `sorted(..., key=k, reverse=True)` order their results.
 * Elements with equal keys keep their input order.
 */
module Sorting {

  /** Keys never increase from left to right. */
  ghost predicate SortedDesc<T>(s: seq<T>, key: T -> real) {
    forall i, j :: 0 <= i < j < |s| ==> key(s[i]) >= key(s[j])
  }

  /** Puts `x` before the first element whose key is not larger than its own. */
  function Insert<T>(x: T, s: seq<T>, key: T -> real): (r: seq<T>)
    ensures multiset(r) == multiset(s) + multiset{x}
    ensures |r| == |s| + 1
  {
    if s == [] then [x]
    else if key(x) >= key(s[0]) then [x] + s
    else
      assert s == [s[0]] + s[1..];
      [s[0]] + Insert(x, s[1..], key)
  }

  /** Inserting adds `x` and nothing else. */
  lemma InsertMembers<T>(x: T, s: seq<T>, key: T -> real, y: T)
    ensures y in Insert(x, s, key) <==> y == x || y in s
  {
    var r := Insert(x, s, key);
    assert y in r <==> y in multiset(r);
    assert y in s <==> y in multiset(s);
  }

  lemma {:induction false} InsertSorted<T>(x: T, s: seq<T>, key: T -> real)
    requires SortedDesc(s, key)
    ensures SortedDesc(Insert(x, s, key), key)
  {
    if s != [] && key(x) < key(s[0]) {
      InsertSorted(x, s[1..], key);
      var r := Insert(x, s, key);
      var tail := Insert(x, s[1..], key);
      assert r == [s[0]] + tail;
      forall k | 0 <= k < |tail|
        ensures key(s[0]) >= key(tail[k])
      {
        assert tail[k] in multiset(tail);
        assert tail[k] in multiset(s[1..]) + multiset{x};
        if tail[k] != x {
          assert tail[k] in multiset(s[1..]);
          var m :| 0 <= m < |s[1..]| && s[1..][m] == tail[k];
          assert s[m + 1] == tail[k];
        }
      }
    }
  }

  /** A stable descending insertion sort. */
  function SortDesc<T>(s: seq<T>, key: T -> real): (r: seq<T>)
    ensures multiset(r) == multiset(s)
    ensures |r| == |s|
  {
    if s == [] then []
    else
      assert s == [s[0]] + s[1..];
      Insert(s[0], SortDesc(s[1..], key), key)
  }

  /** The sort puts its input in non-increasing key order. */
  lemma {:induction false} SortDescSorted<T>(s: seq<T>, key: T -> real)
    ensures SortedDesc(SortDesc(s, key), key)
  {
    if s != [] {
      SortDescSorted(s[1..], key);
      InsertSorted(s[0], SortDesc(s[1..], key), key);
    }
  }

  /** The sort keeps exactly the elements of its input. */
  lemma SortDescSameElements<T>(s: seq<T>, key: T -> real, x: T)
    ensures x in SortDesc(s, key) <==> x in s
  {
    var r := SortDesc(s, key);
    assert x in r <==> x in multiset(r);
    assert x in s <==> x in multiset(s);
  }

  /** No two elements of `s` carry the same name. */
  ghost predicate DistinctNames<T, L>(s: seq<T>, name: T -> L) {
    forall a, b :: 0 <= a < b < |s| ==> name(s[a]) != name(s[b])
  }

  lemma {:induction false} InsertKeepsDistinct<T, L>(x: T, s: seq<T>, key: T -> real, name: T -> L)
    requires DistinctNames(s, name)
    requires forall k :: 0 <= k < |s| ==> name(s[k]) != name(x)
    ensures DistinctNames(Insert(x, s, key), name)
  {
    if s != [] && key(x) < key(s[0]) {
      InsertKeepsDistinct(x, s[1..], key, name);
      var tail := Insert(x, s[1..], key);
      assert Insert(x, s, key) == [s[0]] + tail;
      forall k | 0 <= k < |tail| ensures name(tail[k]) != name(s[0]) {
        InsertMembers(x, s[1..], key, tail[k]);
        if tail[k] != x {
          var m :| 0 <= m < |s[1..]| && s[1..][m] == tail[k];
          assert s[m + 1] == tail[k];
        }
      }
    }
  }

  /** Sorting never makes two elements share a name. */
  lemma {:induction false} SortKeepsDistinct<T, L>(s: seq<T>, key: T -> real, name: T -> L)
    requires DistinctNames(s, name)
    ensures DistinctNames(SortDesc(s, key), name)
  {
    if s != [] {
      SortKeepsDistinct(s[1..], key, name);
      var t := SortDesc(s[1..], key);
      forall k | 0 <= k < |t| ensures name(t[k]) != name(s[0]) {
        SortDescSameElements(s[1..], key, t[k]);
        var m :| 0 <= m < |s[1..]| && s[1..][m] == t[k];
        assert s[m + 1] == t[k];
      }
      InsertKeepsDistinct(s[0], t, key, name);
    }
  }
}
