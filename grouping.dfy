/** Grouping with `reduce` into a plain object (`acc[key] = ...`) followed by
    `Object.entries` / `Object.keys`. The object is an association list whose
    entries are in insertion order, which is the order in which each key was first
    met in the input. */
module Grouping {
  import opened Sequences

  /** The key of every element, in input order (`data.map(key)`). */
  function Project<R>(s: seq<R>, key: R -> string): (ks: seq<string>)
    ensures |ks| == |s|
    ensures forall i :: 0 <= i < |s| ==> ks[i] == key(s[i])
  {
    seq(|s|, i requires 0 <= i < |s| => key(s[i]))
  }

  /** The distinct elements of xs in order of first occurrence: the iteration
      order of `new Set(xs)`, whose `size` is the length of this sequence. */
  function Dedup(xs: seq<string>): (d: seq<string>)
    ensures Distinct(d)
    ensures forall x :: x in d <==> x in xs
    ensures |d| <= |xs|
  {
    if xs == [] then []
    else
      var d := Dedup(xs[..|xs| - 1]);
      var x := xs[|xs| - 1];
      assert xs == xs[..|xs| - 1] + [x];
      if x in d then d else d + [x]
  }

  /** A sequence without repetitions has as many elements as the set of its elements. */
  lemma {:induction false} DistinctCardinality(xs: seq<string>)
    requires Distinct(xs)
    ensures |set x | x in xs| == |xs|
  {
    if xs != [] {
      var p := xs[..|xs| - 1];
      var x := xs[|xs| - 1];
      DistinctCardinality(p);
      assert x !in p;
      assert xs == p + [x];
      assert (set y | y in xs) == (set y | y in p) + {x};
    }
  }

  /** `new Set(xs).size` is the number of distinct elements of xs. */
  lemma DedupCardinality(xs: seq<string>)
    ensures |Dedup(xs)| == |set x | x in xs|
  {
    DistinctCardinality(Dedup(xs));
    assert (set x | x in Dedup(xs)) == (set x | x in xs);
  }

  /** The set of the keys of the elements of s. */
  function KeySet<R>(s: seq<R>, key: R -> string): set<string> {
    set i | 0 <= i < |s| :: key(s[i])
  }

  /** The number of distinct keys of s is the size of the set of its keys. */
  lemma DedupProjectCardinality<R>(s: seq<R>, key: R -> string)
    ensures |Dedup(Project(s, key))| == |KeySet(s, key)|
  {
    var ks := Project(s, key);
    DedupCardinality(ks);
    assert (set x | x in ks) == KeySet(s, key);
  }

  /** The keys of an association list, in order (`Object.keys(acc)`). */
  function Keys<V>(t: seq<(string, V)>): (ks: seq<string>)
    ensures |ks| == |t|
    ensures forall i :: 0 <= i < |t| ==> ks[i] == t[i].0
  {
    if t == [] then [] else [t[0].0] + Keys(t[1..])
  }

  /** The value stored under k, or dflt when there is none (`acc[k] || dflt`). */
  function Get<V>(t: seq<(string, V)>, k: string, dflt: V): V {
    if t == [] then dflt
    else if t[0].0 == k then t[0].1
    else Get(t[1..], k, dflt)
  }

  /** `acc[k] = v`: overwrites the value of an existing key in place, or appends a
      new key at the end. */
  function Put<V>(t: seq<(string, V)>, k: string, v: V): seq<(string, V)> {
    if t == [] then [(k, v)]
    else if t[0].0 == k then [(k, v)] + t[1..]
    else [t[0]] + Put(t[1..], k, v)
  }

  lemma {:induction false} PutKeys<V>(t: seq<(string, V)>, k: string, v: V)
    ensures Keys(Put(t, k, v)) == if k in Keys(t) then Keys(t) else Keys(t) + [k]
  {
    if t != [] && t[0].0 != k {
      PutKeys(t[1..], k, v);
      assert Keys(t) == [t[0].0] + Keys(t[1..]);
    }
  }

  lemma {:induction false} PutGet<V>(t: seq<(string, V)>, k: string, v: V, k': string, dflt: V)
    ensures Get(Put(t, k, v), k', dflt) == if k' == k then v else Get(t, k', dflt)
  {
    if t != [] && t[0].0 != k {
      PutGet(t[1..], k, v, k', dflt);
    }
  }

  /** In a list without repeated keys, an entry's value is what Get finds under its key. */
  lemma {:induction false} GetEntry<V>(t: seq<(string, V)>, i: nat, dflt: V)
    requires i < |t|
    requires Distinct(Keys(t))
    ensures Get(t, t[i].0, dflt) == t[i].1
  {
    if i > 0 {
      assert Keys(t)[0] != Keys(t)[i];
      assert Distinct(Keys(t[1..])) by {
        forall a, b | 0 <= a < b < |t| - 1 ensures Keys(t[1..])[a] != Keys(t[1..])[b] {
          assert Keys(t)[a + 1] != Keys(t)[b + 1];
        }
      }
      GetEntry(t[1..], i - 1, dflt);
    }
  }

  /** Left fold (`reduce(add, zero)`). */
  function Fold<R, V>(s: seq<R>, zero: V, add: (V, R) -> V): V {
    if s == [] then zero else add(Fold(s[..|s| - 1], zero, add), s[|s| - 1])
  }

  /** The elements whose key is k, in input order. */
  function Where<R>(s: seq<R>, key: R -> string, k: string): (w: seq<R>)
    ensures |w| <= |s|
    ensures forall x :: x in w ==> x in s && key(x) == k
  {
    if s == [] then []
    else Where(s[..|s| - 1], key, k) + (if key(s[|s| - 1]) == k then [s[|s| - 1]] else [])
  }

  lemma {:induction false} WhereEmpty<R>(s: seq<R>, key: R -> string, k: string)
    ensures Where(s, key, k) == [] <==> k !in Project(s, key)
  {
    if s != [] {
      WhereEmpty(s[..|s| - 1], key, k);
      assert Project(s, key) == Project(s[..|s| - 1], key) + [key(s[|s| - 1])];
    }
  }

  /** The `reduce` that groups s by key: each element's value is folded into its
      key's running accumulator, which starts at zero the first time the key is met.
      There is a group exactly when there is an element, and never more groups than
      elements. */
  function GroupBy<R, V>(s: seq<R>, key: R -> string, zero: V, add: (V, R) -> V): (t: seq<(string, V)>)
    ensures |t| <= |s|
    ensures t == [] <==> s == []
  {
    if s == [] then []
    else
      var t := GroupBy(s[..|s| - 1], key, zero, add);
      var r := s[|s| - 1];
      PutKeys(t, key(r), add(Get(t, key(r), zero), r));
      Put(t, key(r), add(Get(t, key(r), zero), r))
  }

  /** The groups appear in order of first occurrence of their keys, once each. */
  lemma {:induction false} GroupByKeys<R, V>(s: seq<R>, key: R -> string, zero: V, add: (V, R) -> V)
    ensures Keys(GroupBy(s, key, zero, add)) == Dedup(Project(s, key))
  {
    if s != [] {
      var p := s[..|s| - 1];
      var r := s[|s| - 1];
      var t := GroupBy(p, key, zero, add);
      GroupByKeys(p, key, zero, add);
      PutKeys(t, key(r), add(Get(t, key(r), zero), r));
      assert Project(s, key)[..|s| - 1] == Project(p, key);
    }
  }

  /** The accumulator of every key is the fold of exactly the elements with that key. */
  lemma {:induction false} GroupByGet<R, V>(s: seq<R>, key: R -> string, zero: V, add: (V, R) -> V, k: string)
    ensures Get(GroupBy(s, key, zero, add), k, zero) == Fold(Where(s, key, k), zero, add)
  {
    if s != [] {
      var p := s[..|s| - 1];
      var r := s[|s| - 1];
      var t := GroupBy(p, key, zero, add);
      GroupByGet(p, key, zero, add, k);
      PutGet(t, key(r), add(Get(t, key(r), zero), r), k, zero);
      var w := Where(p, key, k);
      if key(r) == k {
        assert (w + [r])[..|w + [r]| - 1] == w;
      } else {
        assert w + [] == w;
      }
    }
  }
}
