/**
 * Generic facts about the list comprehensions the analyzer uses to keep some
 * events and drop others, and about timestamp order.
 */
module Sequences {

  /** The elements of `s` that satisfy `keep`, in their original order. */
  function Filter<T(!new)>(s: seq<T>, keep: T -> bool): (r: seq<T>)
    ensures |r| <= |s|
  {
    if s == [] then [] else Filter(s[..|s| - 1], keep) + (if keep(s[|s| - 1]) then [s[|s| - 1]] else [])
  }

  /** The kept elements are exactly the elements that satisfy `keep`. */
  lemma {:induction false} FilterMembers<T(!new)>(s: seq<T>, keep: T -> bool)
    ensures forall x :: x in Filter(s, keep) <==> x in s && keep(x)
  {
    if s != [] {
      assert s == s[..|s| - 1] + [s[|s| - 1]];
      FilterMembers(s[..|s| - 1], keep);
    }
  }

  /** `d[key].append(x)` on a `defaultdict(list)`: a missing key starts as the empty list. */
  function Append<K, V>(d: map<K, seq<V>>, key: K, x: V): map<K, seq<V>>
  {
    d[key := (if key in d then d[key] else []) + [x]]
  }

  /** Every pair of positions is in nondecreasing `time` order. */
  ghost predicate Sorted<T>(s: seq<T>, time: T -> int)
  {
    forall a, b :: 0 <= a < b < |s| ==> time(s[a]) <= time(s[b])
  }

  lemma {:induction false} FilterAppend<T(!new)>(a: seq<T>, b: seq<T>, keep: T -> bool)
    ensures Filter(a + b, keep) == Filter(a, keep) + Filter(b, keep)
    decreases |b|
  {
    if b == [] {
      assert a + b == a;
    } else {
      var b' := b[..|b| - 1];
      var x := b[|b| - 1];
      assert (a + b)[..|a + b| - 1] == a + b';
      assert (a + b)[|a + b| - 1] == x;
      FilterAppend(a, b', keep);
    }
  }

  /** Filtering twice does not depend on the order of the two filters. */
  lemma {:induction false} FilterCommutes<T(!new)>(s: seq<T>, p: T -> bool, q: T -> bool)
    ensures Filter(Filter(s, p), q) == Filter(Filter(s, q), p)
  {
    if s != [] {
      var s' := s[..|s| - 1];
      var x := s[|s| - 1];
      FilterCommutes(s', p, q);
      var xp := if p(x) then [x] else [];
      var xq := if q(x) then [x] else [];
      FilterAppend(Filter(s', p), xp, q);
      FilterAppend(Filter(s', q), xq, p);
    }
  }

  /** How often `x` occurs among the kept elements. */
  lemma {:induction false} FilterMultiplicity<T(!new)>(s: seq<T>, keep: T -> bool, x: T)
    ensures multiset(Filter(s, keep))[x] == if keep(x) then multiset(s)[x] else 0
  {
    if s != [] {
      var s' := s[..|s| - 1];
      assert s == s' + [s[|s| - 1]];
      FilterMultiplicity(s', keep, x);
    }
  }

  /** Sequences with the same elements keep the same elements. */
  lemma FilterRespectsPermutation<T(!new)>(s: seq<T>, t: seq<T>, keep: T -> bool)
    requires multiset(s) == multiset(t)
    ensures multiset(Filter(s, keep)) == multiset(Filter(t, keep))
  {
    forall x
      ensures multiset(Filter(s, keep))[x] == multiset(Filter(t, keep))[x]
    {
      FilterMultiplicity(s, keep, x);
      FilterMultiplicity(t, keep, x);
    }
  }

  /** The elements a filter keeps from a sorted sequence are still sorted. */
  lemma {:induction false} FilterSorted<T(!new)>(s: seq<T>, keep: T -> bool, time: T -> int)
    requires Sorted(s, time)
    ensures Sorted(Filter(s, keep), time)
  {
    if s != [] {
      var s' := s[..|s| - 1];
      var x := s[|s| - 1];
      assert Sorted(s', time);
      FilterSorted(s', keep, time);
      FilterMembers(s', keep);
      var r' := Filter(s', keep);
      forall a | 0 <= a < |r'| ensures time(r'[a]) <= time(x) {
        assert r'[a] in s';
        var i :| 0 <= i < |s'| && s'[i] == r'[a];
        assert s[i] == r'[a];
      }
    }
  }

  /** An element no later than every element of a sorted sequence can go in front of it. */
  lemma SortedCons<T>(x: T, s: seq<T>, time: T -> int)
    requires Sorted(s, time)
    requires forall k :: 0 <= k < |s| ==> time(x) <= time(s[k])
    ensures Sorted([x] + s, time)
  {
    var r := [x] + s;
    forall a, b | 0 <= a < b < |r| ensures time(r[a]) <= time(r[b]) {
      assert r[b] == s[b - 1];
      if a > 0 {
        assert r[a] == s[a - 1];
      }
    }
  }
}
