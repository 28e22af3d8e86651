/**
 * Dictionaries filled row by row, the pattern behind every aggregation of the
 * dashboard: a JavaScript object or Map keyed by location, continent, ISO
 * code, date or month.
 *
 * - `KeyOrder`: the keys, in the order the dictionary first receives them
 *   (the order `Object.keys`, `Object.values` and `Map.forEach` report).
 * - `LatestBy`: "keep the latest row per key", where only a strictly newer
 *   date replaces the stored row, so the first row seen wins a tie.
 * - `GroupSum`: "add the metric of every row into its key's bucket".
 */
module Keyed {
  import opened Observations
  import opened Sequences

  /** The eligibility of a dictionary that takes every row. */
  predicate Always(r: Row) { true }

  /** Some eligible row has key `k`. */
  ghost predicate Present<K>(rows: seq<Row>, key: Row -> K, eligible: Row -> bool, k: K) {
    exists i :: 0 <= i < |rows| && eligible(rows[i]) && key(rows[i]) == k
  }

  /** The distinct keys of the eligible rows, in order of first occurrence. */
  function KeyOrder<K(==)>(rows: seq<Row>, key: Row -> K, eligible: Row -> bool): seq<K> {
    if rows == [] then []
    else
      var before := KeyOrder(rows[..|rows| - 1], key, eligible);
      var r := rows[|rows| - 1];
      if eligible(r) && key(r) !in before then before + [key(r)] else before
  }

  /** The rows kept per key when a row replaces the stored one only if the key is new or its date is strictly later. */
  function LatestBy<K(==)>(rows: seq<Row>, key: Row -> K, eligible: Row -> bool): map<K, Row> {
    if rows == [] then map[]
    else
      var m := LatestBy(rows[..|rows| - 1], key, eligible);
      var r := rows[|rows| - 1];
      if eligible(r) && (key(r) !in m || r.date > m[key(r)].date) then m[key(r) := r] else m
  }

  /**
   * Reference definition of the row kept for key `k`: the FIRST eligible row
   * with key `k` whose date is the largest among them.
   */
  ghost predicate IsLatestAt<K>(rows: seq<Row>, key: Row -> K, eligible: Row -> bool, k: K, i: int) {
    && 0 <= i < |rows| && eligible(rows[i]) && key(rows[i]) == k
    && (forall j :: 0 <= j < |rows| && eligible(rows[j]) && key(rows[j]) == k ==> rows[j].date <= rows[i].date)
    && (forall j :: 0 <= j < i && eligible(rows[j]) && key(rows[j]) == k ==> rows[j].date < rows[i].date)
  }

  /** The sum of `metric` over the eligible rows with key `k`. */
  function GroupSum<K(==)>(rows: seq<Row>, key: Row -> K, eligible: Row -> bool, metric: Row -> int, k: K): int {
    if rows == [] then 0
    else
      var r := rows[|rows| - 1];
      GroupSum(rows[..|rows| - 1], key, eligible, metric, k) + (if eligible(r) && key(r) == k then metric(r) else 0)
  }

  /** `Object.values(d)` for a dictionary whose keys arrived in `order`. */
  function ValuesOf<K(==), V>(m: map<K, V>, order: seq<K>): (vs: seq<V>)
    requires forall k :: k in order ==> k in m
    ensures |vs| == |order|
    ensures forall i :: 0 <= i < |order| ==> vs[i] == m[order[i]]
  {
    seq(|order|, i requires 0 <= i < |order| => m[order[i]])
  }

  /** `Object.values(d)` of a latest-row dictionary. */
  function LatestRows<K(==)>(rows: seq<Row>, key: Row -> K, eligible: Row -> bool): (r: seq<Row>)
    ensures |r| == |KeyOrder(rows, key, eligible)|
  {
    LatestByKeys(rows, key, eligible);
    ValuesOf(LatestBy(rows, key, eligible), KeyOrder(rows, key, eligible))
  }

  lemma PresentInPrefix<K>(rows: seq<Row>, key: Row -> K, eligible: Row -> bool, k: K)
    requires rows != []
    ensures Present(rows, key, eligible, k) <==>
      Present(rows[..|rows| - 1], key, eligible, k) || (eligible(rows[|rows| - 1]) && key(rows[|rows| - 1]) == k)
  {
    var p := rows[..|rows| - 1];
    if Present(rows, key, eligible, k) {
      var i :| 0 <= i < |rows| && eligible(rows[i]) && key(rows[i]) == k;
      if i < |p| {
        assert p[i] == rows[i];
      }
    }
    if Present(p, key, eligible, k) {
      var i :| 0 <= i < |p| && eligible(p[i]) && key(p[i]) == k;
      assert rows[i] == p[i];
    }
  }

  /** The key order lists every key of an eligible row, once. */
  lemma {:induction false} KeyOrderFacts<K>(rows: seq<Row>, key: Row -> K, eligible: Row -> bool)
    ensures Distinct(KeyOrder(rows, key, eligible))
    ensures forall k :: k in KeyOrder(rows, key, eligible) <==> Present(rows, key, eligible, k)
  {
    if rows != [] {
      KeyOrderFacts(rows[..|rows| - 1], key, eligible);
      forall k ensures k in KeyOrder(rows, key, eligible) <==> Present(rows, key, eligible, k) {
        PresentInPrefix(rows, key, eligible, k);
      }
    }
  }

  /** The key of an eligible row is in the key order. */
  lemma KeyOrderHasKey<K>(rows: seq<Row>, key: Row -> K, eligible: Row -> bool, i: int)
    requires 0 <= i < |rows| && eligible(rows[i])
    ensures key(rows[i]) in KeyOrder(rows, key, eligible)
  {
    KeyOrderFacts(rows, key, eligible);
    assert Present(rows, key, eligible, key(rows[i]));
  }

  /** Every key of the key order is the key of an eligible row. */
  lemma KeyOrderKeyHasRow<K>(rows: seq<Row>, key: Row -> K, eligible: Row -> bool, n: int)
    requires 0 <= n < |KeyOrder(rows, key, eligible)|
    ensures exists i :: 0 <= i < |rows| && eligible(rows[i]) && key(rows[i]) == KeyOrder(rows, key, eligible)[n]
  {
    KeyOrderFacts(rows, key, eligible);
    assert KeyOrder(rows, key, eligible)[n] in KeyOrder(rows, key, eligible);
  }

  /** The latest-row dictionary has exactly the keys of the key order. */
  lemma {:induction false} LatestByKeys<K>(rows: seq<Row>, key: Row -> K, eligible: Row -> bool)
    ensures forall k :: k in LatestBy(rows, key, eligible) <==> k in KeyOrder(rows, key, eligible)
  {
    if rows != [] {
      LatestByKeys(rows[..|rows| - 1], key, eligible);
    }
  }

  /**
   * The row kept for a key is the first eligible row with that key and the
   * largest date: later rows with an equal date do not replace it.
   */
  lemma {:induction false} LatestBySelects<K>(rows: seq<Row>, key: Row -> K, eligible: Row -> bool, k: K)
    requires k in LatestBy(rows, key, eligible)
    ensures exists i :: IsLatestAt(rows, key, eligible, k, i) && LatestBy(rows, key, eligible)[k] == rows[i]
  {
    var n := |rows|;
    var p := rows[..n - 1];
    var m' := LatestBy(p, key, eligible);
    var r := rows[n - 1];
    assert forall j :: 0 <= j < n - 1 ==> rows[j] == p[j];
    if eligible(r) && key(r) == k && (k !in m' || r.date > m'[k].date) {
      if k in m' {
        LatestBySelects(p, key, eligible, k);
        var i' :| IsLatestAt(p, key, eligible, k, i') && m'[k] == p[i'];
      } else {
        LatestByKeys(p, key, eligible);
        KeyOrderFacts(p, key, eligible);
        assert !Present(p, key, eligible, k);
      }
      assert IsLatestAt(rows, key, eligible, k, n - 1);
    } else {
      assert k in m';
      LatestBySelects(p, key, eligible, k);
      var i' :| IsLatestAt(p, key, eligible, k, i') && m'[k] == p[i'];
      assert IsLatestAt(rows, key, eligible, k, i');
    }
  }

  /** The key at position `n` of the key order has a kept row. */
  lemma KeyOrderInLatestBy<K>(rows: seq<Row>, key: Row -> K, eligible: Row -> bool, n: nat)
    requires n < |KeyOrder(rows, key, eligible)|
    ensures KeyOrder(rows, key, eligible)[n] in LatestBy(rows, key, eligible)
  {
    LatestByKeys(rows, key, eligible);
    assert KeyOrder(rows, key, eligible)[n] in KeyOrder(rows, key, eligible);
  }

  /**
   * The latest rows come one per key, in key order, each the first eligible
   * row of its key with the largest date.
   */
  lemma {:induction false} LatestRowsFacts<K>(rows: seq<Row>, key: Row -> K, eligible: Row -> bool)
    ensures forall n :: 0 <= n < |LatestRows(rows, key, eligible)| ==>
      && key(LatestRows(rows, key, eligible)[n]) == KeyOrder(rows, key, eligible)[n]
      && exists i :: IsLatestAt(rows, key, eligible, KeyOrder(rows, key, eligible)[n], i) && LatestRows(rows, key, eligible)[n] == rows[i]
    ensures DistinctBy(LatestRows(rows, key, eligible), key)
  {
    var order := KeyOrder(rows, key, eligible);
    var r := LatestRows(rows, key, eligible);
    KeyOrderFacts(rows, key, eligible);
    forall n | 0 <= n < |r|
      ensures key(r[n]) == order[n]
      ensures exists i :: IsLatestAt(rows, key, eligible, order[n], i) && r[n] == rows[i]
    {
      KeyOrderInLatestBy(rows, key, eligible, n);
      LatestBySelects(rows, key, eligible, order[n]);
    }
  }

  /** A latest row is the row kept for its own key. */
  lemma LatestRowsSound<K>(rows: seq<Row>, key: Row -> K, eligible: Row -> bool, x: Row)
    requires x in LatestRows(rows, key, eligible)
    ensures exists i :: IsLatestAt(rows, key, eligible, key(x), i) && x == rows[i]
  {
    LatestRowsFacts(rows, key, eligible);
    var n :| 0 <= n < |LatestRows(rows, key, eligible)| && LatestRows(rows, key, eligible)[n] == x;
  }

  /** The row kept for a key is among the latest rows. */
  lemma LatestRowsComplete<K>(rows: seq<Row>, key: Row -> K, eligible: Row -> bool, k: K, i: int)
    requires IsLatestAt(rows, key, eligible, k, i)
    ensures rows[i] in LatestRows(rows, key, eligible)
  {
    var order := KeyOrder(rows, key, eligible);
    var r := LatestRows(rows, key, eligible);
    LatestRowsFacts(rows, key, eligible);
    KeyOrderFacts(rows, key, eligible);
    assert Present(rows, key, eligible, k);
    var n :| 0 <= n < |order| && order[n] == k;
    var j :| IsLatestAt(rows, key, eligible, order[n], j) && r[n] == rows[j];
    LatestAtUnique(rows, key, eligible, k, i, j);
  }

  /** At most one index is "the first row with the largest date" of a key. */
  lemma LatestAtUnique<K>(rows: seq<Row>, key: Row -> K, eligible: Row -> bool, k: K, i: int, j: int)
    requires IsLatestAt(rows, key, eligible, k, i) && IsLatestAt(rows, key, eligible, k, j)
    ensures i == j
  {
  }

  /** Two row sequences that agree on every key, eligibility and date, row by row. */
  ghost predicate SameSelection<K>(rows: seq<Row>, other: seq<Row>, key: Row -> K, eligible: Row -> bool) {
    && |rows| == |other|
    && forall i :: 0 <= i < |rows| ==>
         key(rows[i]) == key(other[i]) && eligible(rows[i]) == eligible(other[i]) && rows[i].date == other[i].date
  }

  lemma {:induction false} KeyOrderSameSelection<K>(rows: seq<Row>, other: seq<Row>, key: Row -> K, eligible: Row -> bool)
    requires SameSelection(rows, other, key, eligible)
    ensures KeyOrder(rows, key, eligible) == KeyOrder(other, key, eligible)
  {
    if rows != [] {
      var n := |rows|;
      assert SameSelection(rows[..n - 1], other[..n - 1], key, eligible);
      KeyOrderSameSelection(rows[..n - 1], other[..n - 1], key, eligible);
    }
  }

  lemma LatestByKeysAgree<K>(rows: seq<Row>, other: seq<Row>, key: Row -> K, eligible: Row -> bool)
    requires SameSelection(rows, other, key, eligible)
    ensures LatestBy(rows, key, eligible).Keys == LatestBy(other, key, eligible).Keys
  {
    KeyOrderSameSelection(rows, other, key, eligible);
    LatestByKeys(rows, key, eligible);
    LatestByKeys(other, key, eligible);
  }

  lemma LatestRowAgrees<K>(rows: seq<Row>, other: seq<Row>, key: Row -> K, eligible: Row -> bool, k: K)
    requires SameSelection(rows, other, key, eligible)
    requires forall k, i :: IsLatestAt(rows, key, eligible, k, i) ==> other[i] == rows[i]
    requires k in LatestBy(rows, key, eligible) && k in LatestBy(other, key, eligible)
    ensures LatestBy(other, key, eligible)[k] == LatestBy(rows, key, eligible)[k]
  {
    LatestBySelects(rows, key, eligible, k);
    var i :| IsLatestAt(rows, key, eligible, k, i) && LatestBy(rows, key, eligible)[k] == rows[i];
    LatestBySelects(other, key, eligible, k);
    var j :| IsLatestAt(other, key, eligible, k, j) && LatestBy(other, key, eligible)[k] == other[j];
    assert IsLatestAt(rows, key, eligible, k, j);
    LatestAtUnique(rows, key, eligible, k, i, j);
  }

  /**
   * Only the latest rows matter: changing the other columns of rows that are
   * not kept for their key leaves the dictionary unchanged.
   */
  lemma LatestByOnlyLatestRowsMatter<K>(rows: seq<Row>, other: seq<Row>, key: Row -> K, eligible: Row -> bool)
    requires SameSelection(rows, other, key, eligible)
    requires forall k, i :: IsLatestAt(rows, key, eligible, k, i) ==> other[i] == rows[i]
    ensures LatestBy(rows, key, eligible) == LatestBy(other, key, eligible)
  {
    LatestByKeysAgree(rows, other, key, eligible);
    forall k | k in LatestBy(rows, key, eligible)
      ensures LatestBy(other, key, eligible)[k] == LatestBy(rows, key, eligible)[k]
    {
      LatestRowAgrees(rows, other, key, eligible, k);
    }
  }

  /** A key with no eligible row has an empty bucket. */
  lemma {:induction false} GroupSumAbsent<K>(rows: seq<Row>, key: Row -> K, eligible: Row -> bool, metric: Row -> int, k: K)
    requires !Present(rows, key, eligible, k)
    ensures GroupSum(rows, key, eligible, metric, k) == 0
  {
    if rows != [] {
      PresentInPrefix(rows, key, eligible, k);
      GroupSumAbsent(rows[..|rows| - 1], key, eligible, metric, k);
    }
  }

  /** The sum of `metric` over all eligible rows, whatever their key. */
  function EligibleTotal(rows: seq<Row>, eligible: Row -> bool, metric: Row -> int): int {
    if rows == [] then 0
    else
      var r := rows[|rows| - 1];
      EligibleTotal(rows[..|rows| - 1], eligible, metric) + (if eligible(r) then metric(r) else 0)
  }

  /** The bucket sums of the given keys, added up. */
  function SumOfGroups<K(==)>(keys: seq<K>, rows: seq<Row>, key: Row -> K, eligible: Row -> bool, metric: Row -> int): int {
    if keys == [] then 0
    else SumOfGroups(keys[..|keys| - 1], rows, key, eligible, metric) + GroupSum(rows, key, eligible, metric, keys[|keys| - 1])
  }

  lemma {:induction false} SumOfGroupsStep<K>(keys: seq<K>, rows: seq<Row>, key: Row -> K, eligible: Row -> bool, metric: Row -> int)
    requires rows != [] && Distinct(keys)
    ensures var r := rows[|rows| - 1];
      SumOfGroups(keys, rows, key, eligible, metric)
      == SumOfGroups(keys, rows[..|rows| - 1], key, eligible, metric) + (if eligible(r) && key(r) in keys then metric(r) else 0)
  {
    if keys != [] {
      var ks := keys[..|keys| - 1];
      assert keys == ks + [keys[|keys| - 1]];
      SumOfGroupsStep(ks, rows, key, eligible, metric);
    }
  }

  /**
   * Every eligible row falls in exactly one bucket: the buckets of the key
   * order add up to the total over the rows.
   */
  lemma {:induction false} GroupsPartitionTotal<K>(rows: seq<Row>, key: Row -> K, eligible: Row -> bool, metric: Row -> int)
    ensures SumOfGroups(KeyOrder(rows, key, eligible), rows, key, eligible, metric) == EligibleTotal(rows, eligible, metric)
  {
    if rows != [] {
      var p := rows[..|rows| - 1];
      var r := rows[|rows| - 1];
      var before := KeyOrder(p, key, eligible);
      GroupsPartitionTotal(p, key, eligible, metric);
      KeyOrderFacts(p, key, eligible);
      SumOfGroupsStep(before, rows, key, eligible, metric);
      if eligible(r) && key(r) !in before {
        assert !Present(p, key, eligible, key(r));
        GroupSumAbsent(p, key, eligible, metric, key(r));
        assert (before + [key(r)])[..|before|] == before;
      }
    }
  }

  /** The rows kept per key by `if (!d[k]) d[k] = row`: the first eligible row of each key. */
  function FirstBy<K(==)>(rows: seq<Row>, key: Row -> K, eligible: Row -> bool): map<K, Row> {
    if rows == [] then map[]
    else
      var m := FirstBy(rows[..|rows| - 1], key, eligible);
      var r := rows[|rows| - 1];
      if eligible(r) && key(r) !in m then m[key(r) := r] else m
  }

  /** Reference definition of the row kept for key `k`: no earlier eligible row has that key. */
  ghost predicate IsFirstAt<K>(rows: seq<Row>, key: Row -> K, eligible: Row -> bool, k: K, i: int) {
    && 0 <= i < |rows| && eligible(rows[i]) && key(rows[i]) == k
    && forall j :: 0 <= j < i && eligible(rows[j]) ==> key(rows[j]) != k
  }

  /** The first-row dictionary holds exactly the keys of the key order. */
  lemma {:induction false} FirstByKeys<K>(rows: seq<Row>, key: Row -> K, eligible: Row -> bool)
    ensures forall k :: k in FirstBy(rows, key, eligible) <==> k in KeyOrder(rows, key, eligible)
  {
    if rows != [] {
      FirstByKeys(rows[..|rows| - 1], key, eligible);
    }
  }

  /** Every key of the first-row dictionary holds the first eligible row of that key. */
  lemma {:induction false} FirstBySelects<K>(rows: seq<Row>, key: Row -> K, eligible: Row -> bool, k: K)
    requires k in FirstBy(rows, key, eligible)
    ensures exists i :: IsFirstAt(rows, key, eligible, k, i) && FirstBy(rows, key, eligible)[k] == rows[i]
  {
    var p := rows[..|rows| - 1];
    var last := |rows| - 1;
    if k in FirstBy(p, key, eligible) {
      FirstBySelects(p, key, eligible, k);
      var i :| IsFirstAt(p, key, eligible, k, i) && FirstBy(p, key, eligible)[k] == p[i];
      assert IsFirstAt(rows, key, eligible, k, i);
    } else {
      FirstByKeys(p, key, eligible);
      KeyOrderFacts(p, key, eligible);
      assert !Present(p, key, eligible, k);
      forall j | 0 <= j < last && eligible(rows[j]) ensures key(rows[j]) != k {
        assert p[j] == rows[j];
      }
      assert IsFirstAt(rows, key, eligible, k, last);
    }
  }

  /** The first eligible row of a key is the one the dictionary keeps. */
  lemma {:induction false} FirstByAt<K>(rows: seq<Row>, key: Row -> K, eligible: Row -> bool, k: K, i: int)
    requires IsFirstAt(rows, key, eligible, k, i)
    ensures k in FirstBy(rows, key, eligible) && FirstBy(rows, key, eligible)[k] == rows[i]
  {
    var p := rows[..|rows| - 1];
    if i == |rows| - 1 {
      FirstByKeys(p, key, eligible);
      KeyOrderFacts(p, key, eligible);
      forall j | 0 <= j < |p| && eligible(p[j]) ensures key(p[j]) != k {
        assert p[j] == rows[j];
      }
    } else {
      assert IsFirstAt(p, key, eligible, k, i);
      FirstByAt(p, key, eligible, k, i);
    }
  }

  /**
   * The `forEach` loop that keeps the latest row per key: it fills the
   * dictionary of `LatestBy` and receives its keys in `KeyOrder`.
   */
  method CollectLatest<K(==)>(rows: seq<Row>, key: Row -> K, eligible: Row -> bool) returns (latest: map<K, Row>, order: seq<K>)
    ensures latest == LatestBy(rows, key, eligible)
    ensures order == KeyOrder(rows, key, eligible)
  {
    latest, order := map[], [];
    for i := 0 to |rows|
      invariant latest == LatestBy(rows[..i], key, eligible)
      invariant order == KeyOrder(rows[..i], key, eligible)
      invariant forall k :: k in latest <==> k in order
    {
      var row := rows[i];
      assert rows[..i + 1][..i] == rows[..i];
      if eligible(row) {
        var k := key(row);
        if k !in latest || row.date > latest[k].date {
          if k !in latest {
            order := order + [k];
          }
          latest := latest[k := row];
        }
      }
    }
    assert rows[..|rows|] == rows;
  }

  /**
   * The `forEach` loop that adds a metric into per-key buckets
   * (`if (!d[k]) d[k] = 0; d[k] += metric(row)`).
   */
  method Accumulate<K(==)>(rows: seq<Row>, key: Row -> K, eligible: Row -> bool, metric: Row -> int)
    returns (sums: map<K, int>, order: seq<K>)
    ensures order == KeyOrder(rows, key, eligible)
    ensures forall k :: k in sums <==> k in order
    ensures forall k :: k in sums ==> sums[k] == GroupSum(rows, key, eligible, metric, k)
  {
    sums, order := map[], [];
    for i := 0 to |rows|
      invariant order == KeyOrder(rows[..i], key, eligible)
      invariant forall k :: k in sums <==> k in order
      invariant forall k :: k in sums ==> sums[k] == GroupSum(rows[..i], key, eligible, metric, k)
    {
      var row := rows[i];
      assert rows[..i + 1][..i] == rows[..i];
      if eligible(row) {
        var k := key(row);
        if k !in sums {
          KeyOrderFacts(rows[..i], key, eligible);
          assert k !in KeyOrder(rows[..i], key, eligible);
          assert !Present(rows[..i], key, eligible, k);
          GroupSumAbsent(rows[..i], key, eligible, metric, k);
          order := order + [k];
          sums := sums[k := 0];
        }
        sums := sums[k := sums[k] + metric(row)];
      }
    }
    assert rows[..|rows|] == rows;
  }

  function KeyReal(k: int): real { k as real }

  /** `.sort()` of distinct dates or months: ascending. */
  function SortAscending(s: seq<int>): (r: seq<int>)
    requires Distinct(s)
    ensures forall i, j :: 0 <= i < j < |r| ==> r[i] < r[j]
    ensures forall d :: d in r <==> d in s
  {
    SortByFacts(s, KeyReal);
    DistinctPermutation(s, SortBy(s, KeyReal));
    assert forall d :: d in SortBy(s, KeyReal) <==> d in multiset(s);
    SortBy(s, KeyReal)
  }

  /**
   * `Object.keys(d).sort(...)` of a dictionary keyed by dates or months: the
   * keys of the eligible rows, each once, in ascending order.
   */
  function SortedKeys(rows: seq<Row>, key: Row -> int, eligible: Row -> bool): (r: seq<int>)
    ensures forall i, j :: 0 <= i < j < |r| ==> r[i] < r[j]
    ensures forall d :: d in r <==> Present(rows, key, eligible, d)
  {
    KeyOrderFacts(rows, key, eligible);
    SortAscending(KeyOrder(rows, key, eligible))
  }
}
