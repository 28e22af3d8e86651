/**
 * Sequence building blocks shared by the aggregations: sums, distinctness,
 * `slice(0, n)`, and the stable sort behind `Array.prototype.sort` with a
 * numeric comparator.
 */
module Sequences {

  /** `s.reduce((sum, x) => sum + f(x), 0)` */
  function SumBy<T>(s: seq<T>, f: T -> int): int {
    if s == [] then 0 else SumBy(s[..|s| - 1], f) + f(s[|s| - 1])
  }

  predicate Distinct<T(==)>(s: seq<T>) {
    forall i, j :: 0 <= i < j < |s| ==> s[i] != s[j]
  }

  /** `s.slice(0, n)` */
  function Take<T>(s: seq<T>, n: nat): (r: seq<T>)
    ensures |r| <= n && |r| <= |s| && r == s[..|r|]
    ensures |s| <= n ==> r == s
  {
    if |s| <= n then s else s[..n]
  }

  /** Ascending by `key`; equal keys in any order. */
  predicate SortedBy<T>(s: seq<T>, key: T -> real) {
    forall i, j :: 0 <= i < j < |s| ==> key(s[i]) <= key(s[j])
  }

  /** The elements of `s` whose key is `v`, in their order in `s`. */
  function WithKey<T>(s: seq<T>, key: T -> real, v: real): seq<T> {
    if s == [] then []
    else WithKey(s[..|s| - 1], key, v) + (if key(s[|s| - 1]) == v then [s[|s| - 1]] else [])
  }

  /** Puts `x` after every element of the sorted `s` whose key is at most `key(x)`. */
  function Insert<T>(s: seq<T>, x: T, key: T -> real): seq<T> {
    if s == [] then [x]
    else if key(x) < key(s[0]) then [x] + s
    else [s[0]] + Insert(s[1..], x, key)
  }

  /**
   * `s.sort((a, b) => key(a) - key(b))`: JavaScript's sort is stable, so this
   * is insertion of each element, in order, after the equal keys before it.
   */
  function SortBy<T>(s: seq<T>, key: T -> real): seq<T> {
    if s == [] then [] else Insert(SortBy(s[..|s| - 1], key), s[|s| - 1], key)
  }

  lemma {:induction false} InsertPermutes<T>(s: seq<T>, x: T, key: T -> real)
    ensures multiset(Insert(s, x, key)) == multiset(s) + multiset{x}
    ensures |Insert(s, x, key)| == |s| + 1
  {
    if s != [] && key(x) >= key(s[0]) {
      InsertPermutes(s[1..], x, key);
      assert s == [s[0]] + s[1..];
    }
  }

  lemma {:induction false} InsertSorted<T>(s: seq<T>, x: T, key: T -> real)
    requires SortedBy(s, key)
    ensures SortedBy(Insert(s, x, key), key)
  {
    if s != [] && key(x) >= key(s[0]) {
      InsertSorted(s[1..], x, key);
      InsertPermutes(s[1..], x, key);
      var t := Insert(s[1..], x, key);
      forall k | 0 <= k < |t| ensures key(s[0]) <= key(t[k]) {
        assert t[k] in multiset(t);
        if t[k] != x {
          assert t[k] in multiset(s[1..]);
          var i :| 0 <= i < |s[1..]| && s[1..][i] == t[k];
          assert s[i + 1] == t[k];
        }
      }
    }
  }

  /** Keys above `v` everywhere in a sorted sequence leave nothing with key `v`. */
  lemma {:induction false} WithKeyAbove<T>(s: seq<T>, key: T -> real, v: real)
    requires forall i :: 0 <= i < |s| ==> key(s[i]) > v
    ensures WithKey(s, key, v) == []
  {
    if s != [] {
      WithKeyAbove(s[..|s| - 1], key, v);
    }
  }

  lemma {:induction false} WithKeyPrepend<T>(x: T, s: seq<T>, key: T -> real, v: real)
    ensures WithKey([x] + s, key, v) == (if key(x) == v then [x] else []) + WithKey(s, key, v)
  {
    if s == [] {
      assert [x] + s == [x];
      assert [x][..0] == [];
    } else {
      var t := [x] + s;
      assert t[..|t| - 1] == [x] + s[..|s| - 1];
      WithKeyPrepend(x, s[..|s| - 1], key, v);
    }
  }

  /** Putting the same element in front of two sequences keeps a relation between their key-`v` elements. */
  lemma {:induction false} WithKeyConsBoth<T>(y: T, a: seq<T>, b: seq<T>, tail: seq<T>, key: T -> real, v: real)
    requires WithKey(a, key, v) == WithKey(b, key, v) + tail
    ensures WithKey([y] + a, key, v) == WithKey([y] + b, key, v) + tail
  {
    WithKeyPrepend(y, a, key, v);
    WithKeyPrepend(y, b, key, v);
    var wb := WithKey(b, key, v);
    if key(y) == v {
      assert [y] + (wb + tail) == ([y] + wb) + tail;
    } else {
      assert [] + (wb + tail) == ([] + wb) + tail;
    }
  }

  /** An element inserted in front of larger keys comes before every element with its key. */
  lemma InsertStableFront<T>(s: seq<T>, x: T, key: T -> real, v: real)
    requires SortedBy(s, key) && s != [] && key(x) < key(s[0])
    ensures key(x) == v ==> WithKey([x] + s, key, v) == WithKey(s, key, v) + [x]
    ensures key(x) != v ==> WithKey([x] + s, key, v) == WithKey(s, key, v)
  {
    WithKeyPrepend(x, s, key, v);
    if key(x) == v {
      forall i | 0 <= i < |s| ensures key(s[i]) > v {
        assert i == 0 || key(s[0]) <= key(s[i]);
      }
      WithKeyAbove(s, key, v);
    }
  }

  lemma {:induction false} InsertStable<T>(s: seq<T>, x: T, key: T -> real, v: real)
    requires SortedBy(s, key)
    ensures key(x) == v ==> WithKey(Insert(s, x, key), key, v) == WithKey(s, key, v) + [x]
    ensures key(x) != v ==> WithKey(Insert(s, x, key), key, v) == WithKey(s, key, v)
  {
    if s == [] {
      assert Insert(s, x, key) == [x];
      assert [x][..0] == [];
    } else if key(x) < key(s[0]) {
      assert Insert(s, x, key) == [x] + s;
      InsertStableFront(s, x, key, v);
    } else {
      var t := s[1..];
      assert s == [s[0]] + t;
      assert Insert(s, x, key) == [s[0]] + Insert(t, x, key);
      assert SortedBy(t, key);
      InsertStable(t, x, key, v);
      if key(x) == v {
        WithKeyConsBoth(s[0], Insert(t, x, key), t, [x], key, v);
      } else {
        assert WithKey(t, key, v) + [] == WithKey(t, key, v);
        WithKeyConsBoth(s[0], Insert(t, x, key), t, [], key, v);
      }
    }
  }

  /**
   * The stable sort's contract: ascending, a permutation, and elements with
   * equal keys keep their input order.
   */
  lemma {:induction false} SortByFacts<T>(s: seq<T>, key: T -> real)
    ensures SortedBy(SortBy(s, key), key)
    ensures multiset(SortBy(s, key)) == multiset(s)
    ensures |SortBy(s, key)| == |s|
    ensures forall v :: WithKey(SortBy(s, key), key, v) == WithKey(s, key, v)
  {
    if s != [] {
      var p := s[..|s| - 1];
      SortByFacts(p, key);
      InsertSorted(SortBy(p, key), s[|s| - 1], key);
      InsertPermutes(SortBy(p, key), s[|s| - 1], key);
      assert s == p + [s[|s| - 1]];
      forall v ensures WithKey(SortBy(s, key), key, v) == WithKey(s, key, v) {
        InsertStable(SortBy(p, key), s[|s| - 1], key, v);
      }
    }
  }

  /** A permutation of a sequence without repeats has none either. */
  lemma DistinctPermutation<T>(s: seq<T>, t: seq<T>)
    requires Distinct(s) && multiset(s) == multiset(t)
    ensures Distinct(t)
  {
    forall i, j | 0 <= i < j < |t| ensures t[i] != t[j] {
      if t[i] == t[j] {
        var x := t[i];
        assert t == t[..i] + [x] + t[i + 1..];
        assert t[i + 1..] == t[i + 1..j] + [x] + t[j + 1..];
        assert multiset(t)[x] >= 2;
        MultiplicityOne(s, x);
      }
    }
  }

  lemma {:induction false} MultiplicityOne<T>(s: seq<T>, x: T)
    requires Distinct(s)
    ensures multiset(s)[x] <= 1
  {
    if s != [] {
      var p := s[..|s| - 1];
      assert s == p + [s[|s| - 1]];
      MultiplicityOne(p, x);
      if s[|s| - 1] == x {
        assert x !in p;
      }
    }
  }

  /** `s.filter(p)` */
  function Filter<T>(s: seq<T>, p: T -> bool): (r: seq<T>)
    ensures |r| <= |s|
    ensures forall i :: 0 <= i < |r| ==> r[i] in s && p(r[i])
    ensures forall i :: 0 <= i < |s| && p(s[i]) ==> s[i] in r
  {
    if s == [] then []
    else
      var last := s[|s| - 1];
      assert s == s[..|s| - 1] + [last];
      Filter(s[..|s| - 1], p) + (if p(last) then [last] else [])
  }

  /** No two elements share a key. */
  ghost predicate DistinctBy<T, K>(s: seq<T>, key: T -> K) {
    forall i, j :: 0 <= i < j < |s| ==> key(s[i]) != key(s[j])
  }

  /** Filtering keeps the keys apart. */
  lemma {:induction false} FilterDistinctBy<T, K>(s: seq<T>, p: T -> bool, key: T -> K)
    requires DistinctBy(s, key)
    ensures DistinctBy(Filter(s, p), key)
  {
    if s != [] {
      var prefix := s[..|s| - 1];
      var last := s[|s| - 1];
      FilterDistinctBy(prefix, p, key);
      var f := Filter(prefix, p);
      forall x | x in f ensures key(x) != key(last) {
        var i :| 0 <= i < |prefix| && prefix[i] == x;
        assert s[i] == x;
      }
    }
  }

  /** Reordering keeps the keys apart. */
  lemma PermutationDistinctBy<T, K>(s: seq<T>, t: seq<T>, key: T -> K)
    requires DistinctBy(s, key) && multiset(s) == multiset(t)
    ensures DistinctBy(t, key)
  {
    assert Distinct(s);
    DistinctPermutation(s, t);
    forall i, j | 0 <= i < j < |t| ensures key(t[i]) != key(t[j]) {
      assert t[i] in multiset(s) && t[j] in multiset(s);
      var a :| 0 <= a < |s| && s[a] == t[i];
      var b :| 0 <= b < |s| && s[b] == t[j];
      assert a != b;
    }
  }

  lemma SumByAppend<T>(s: seq<T>, x: T, f: T -> int)
    ensures SumBy(s + [x], f) == SumBy(s, f) + f(x)
  {
    assert (s + [x])[..|s|] == s;
  }

  lemma FilterAppend<T>(s: seq<T>, x: T, p: T -> bool)
    ensures p(x) ==> Filter(s + [x], p) == Filter(s, p) + [x]
    ensures !p(x) ==> Filter(s + [x], p) == Filter(s, p)
  {
    assert (s + [x])[..|s|] == s;
    assert Filter(s, p) + [] == Filter(s, p);
  }

  /** `s.sort(byKey).slice(0, 10)`: the ten first elements in the order of `key`. */
  function TopTen<T>(s: seq<T>, key: T -> real): (r: seq<T>)
    ensures |r| == if |s| < 10 then |s| else 10
  {
    SortByFacts(s, key);
    Take(SortBy(s, key), 10)
  }

  /**
   * The ten first are in order, come from the input, and every element left
   * out has a key no smaller than any of the ten.
   */
  lemma TopTenFacts<T>(s: seq<T>, key: T -> real)
    ensures SortedBy(TopTen(s, key), key)
    ensures forall k :: 0 <= k < |TopTen(s, key)| ==> TopTen(s, key)[k] in s
    ensures forall i :: 0 <= i < |s| && s[i] !in TopTen(s, key) ==>
      |TopTen(s, key)| == 10 && forall k :: 0 <= k < 10 ==> key(TopTen(s, key)[k]) <= key(s[i])
  {
    var t := SortBy(s, key);
    var r := TopTen(s, key);
    SortByFacts(s, key);
    forall k | 0 <= k < |r| ensures r[k] in s {
      assert r[k] == t[k];
      assert t[k] in multiset(t);
    }
    forall i | 0 <= i < |s| && s[i] !in r
      ensures |r| == 10 && forall k :: 0 <= k < 10 ==> key(r[k]) <= key(s[i])
    {
      assert s[i] in multiset(t);
      var p :| 0 <= p < |t| && t[p] == s[i];
      assert p >= 10;
    }
  }

  /** Sorting and cutting keep the keys apart. */
  lemma TopTenDistinctBy<T, K>(s: seq<T>, key: T -> real, name: T -> K)
    requires DistinctBy(s, name)
    ensures DistinctBy(TopTen(s, key), name)
  {
    SortByFacts(s, key);
    PermutationDistinctBy(s, SortBy(s, key), name);
  }
}
