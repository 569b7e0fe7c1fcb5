/** `Array.prototype.sort` with a descending comparator `(a, b) => key(b) - key(a)`.
    The sort is stable (ECMAScript 2019 and later), so elements with equal keys keep
    their relative order. It is modelled as insertion sort, whose result is the
    unique stable descending arrangement. */
module Sorting {
  import opened Sequences

  /** Keys never increase from left to right. */
  predicate SortedDesc<T>(s: seq<T>, key: T -> real) {
    forall i, j :: 0 <= i < j < |s| ==> key(s[i]) >= key(s[j])
  }

  /** The elements of s whose key is v, in their order in s. */
  function WithKey<T>(s: seq<T>, key: T -> real, v: real): seq<T> {
    if s == [] then []
    else (if key(s[0]) == v then [s[0]] else []) + WithKey(s[1..], key, v)
  }

  /** Places x before the first element of t whose key is not greater than x's. */
  function Insert<T>(x: T, t: seq<T>, key: T -> real): seq<T> {
    if t == [] || key(x) >= key(t[0]) then [x] + t
    else [t[0]] + Insert(x, t[1..], key)
  }

  lemma {:induction false} InsertElements<T>(x: T, t: seq<T>, key: T -> real)
    ensures multiset(Insert(x, t, key)) == multiset(t) + multiset{x}
    ensures |Insert(x, t, key)| == |t| + 1
  {
    if t != [] && key(x) < key(t[0]) {
      InsertElements(x, t[1..], key);
      assert t == [t[0]] + t[1..];
    }
  }

  lemma {:induction false} InsertSorted<T>(x: T, t: seq<T>, key: T -> real)
    requires SortedDesc(t, key)
    ensures SortedDesc(Insert(x, t, key), key)
  {
    if t != [] && key(x) < key(t[0]) {
      var u := Insert(x, t[1..], key);
      InsertSorted(x, t[1..], key);
      InsertElements(x, t[1..], key);
      forall y | y in u
        ensures key(t[0]) >= key(y)
      {
        assert y in multiset(u);
        assert y in multiset(t[1..]) || y == x;
      }
      forall i, j | 0 <= i < j < |[t[0]] + u|
        ensures key(([t[0]] + u)[i]) >= key(([t[0]] + u)[j])
      {
        if i == 0 {
          assert ([t[0]] + u)[j] in u;
        }
      }
    }
  }

  /** Stable descending sort. */
  function SortDesc<T>(s: seq<T>, key: T -> real): (r: seq<T>)
    ensures SortedDesc(r, key)
    ensures multiset(r) == multiset(s)
    ensures |r| == |s|
  {
    if s == [] then []
    else
      var t := SortDesc(s[1..], key);
      InsertSorted(s[0], t, key);
      InsertElements(s[0], t, key);
      assert s == [s[0]] + s[1..];
      Insert(s[0], t, key)
  }

  lemma SortDescElements<T>(s: seq<T>, key: T -> real)
    ensures forall x :: x in SortDesc(s, key) <==> x in s
  {
    var r := SortDesc(s, key);
    forall x ensures x in r <==> x in s {
      assert x in r <==> x in multiset(r);
      assert x in s <==> x in multiset(s);
    }
  }

  lemma {:induction false} InsertWithKey<T>(x: T, t: seq<T>, key: T -> real, v: real)
    ensures WithKey(Insert(x, t, key), key, v) == (if key(x) == v then [x] else []) + WithKey(t, key, v)
  {
    if t == [] || key(x) >= key(t[0]) {
      assert Insert(x, t, key) == [x] + t;
      WithKeyCons(x, t, key, v);
    } else {
      var rest := Insert(x, t[1..], key);
      InsertWithKey(x, t[1..], key, v);
      assert Insert(x, t, key) == [t[0]] + rest;
      WithKeyCons(t[0], rest, key, v);
      assert [t[0]] + t[1..] == t;
      WithKeyCons(t[0], t[1..], key, v);
      assert key(x) == v ==> key(t[0]) != v;
    }
  }

  lemma WithKeyCons<T>(y: T, u: seq<T>, key: T -> real, v: real)
    ensures WithKey([y] + u, key, v) == (if key(y) == v then [y] else []) + WithKey(u, key, v)
  {
    assert ([y] + u)[1..] == u;
  }

  /** Stability: for every key value, the elements carrying it appear in the sorted
      sequence in exactly the order they had in the input. */
  lemma {:induction false} SortDescStable<T>(s: seq<T>, key: T -> real, v: real)
    ensures WithKey(SortDesc(s, key), key, v) == WithKey(s, key, v)
  {
    if s != [] {
      SortDescStable(s[1..], key, v);
      InsertWithKey(s[0], SortDesc(s[1..], key), key, v);
    }
  }

  lemma {:induction false} InsertSum<T>(x: T, t: seq<T>, key: T -> real, f: T -> real)
    ensures SumOf(Insert(x, t, key), f) == f(x) + SumOf(t, f)
  {
    if t == [] || key(x) >= key(t[0]) {
      assert ([x] + t)[1..] == t;
    } else {
      InsertSum(x, t[1..], key, f);
      assert ([t[0]] + Insert(x, t[1..], key))[1..] == Insert(x, t[1..], key);
    }
  }

  /** Sorting does not change any sum over the elements. */
  lemma {:induction false} SortDescSum<T>(s: seq<T>, key: T -> real, f: T -> real)
    ensures SumOf(SortDesc(s, key), f) == SumOf(s, f)
  {
    if s != [] {
      SortDescSum(s[1..], key, f);
      InsertSum(s[0], SortDesc(s[1..], key), key, f);
    }
  }

  lemma {:induction false} InsertDistinctBy<T, U>(x: T, t: seq<T>, key: T -> real, f: T -> U)
    requires DistinctBy(t, f)
    requires forall y :: y in t ==> f(y) != f(x)
    ensures DistinctBy(Insert(x, t, key), f)
  {
    if t == [] || key(x) >= key(t[0]) {
      var r := [x] + t;
      forall i, j | 0 <= i < j < |r| ensures f(r[i]) != f(r[j]) {
        if i == 0 { assert r[j] in t; }
      }
    } else {
      var u := Insert(x, t[1..], key);
      InsertDistinctBy(x, t[1..], key, f);
      InsertElements(x, t[1..], key);
      forall y | y in u ensures f(y) != f(t[0]) {
        assert y in multiset(u);
        assert y in multiset(t[1..]) || y == x;
        if y != x {
          var k :| 0 <= k < |t[1..]| && t[1..][k] == y;
          assert t[k + 1] == y;
        }
      }
      var r := [t[0]] + u;
      forall i, j | 0 <= i < j < |r| ensures f(r[i]) != f(r[j]) {
        if i == 0 { assert r[j] in u; }
      }
    }
  }

  /** Sorting keeps a sequence free of duplicate images under f. */
  lemma {:induction false} SortDescDistinctBy<T, U>(s: seq<T>, key: T -> real, f: T -> U)
    requires DistinctBy(s, f)
    ensures DistinctBy(SortDesc(s, key), f)
  {
    if s != [] {
      var t := SortDesc(s[1..], key);
      SortDescDistinctBy(s[1..], key, f);
      SortDescElements(s[1..], key);
      forall y | y in t ensures f(y) != f(s[0]) {
        assert y in multiset(t);
        assert y in multiset(s[1..]);
        var k :| 0 <= k < |s[1..]| && s[1..][k] == y;
        assert s[k + 1] == y;
      }
      InsertDistinctBy(s[0], t, key, f);
    }
  }
}
