/**
 * The stride down-sampler of the timelines: a loop `for (i = 0; i < n; i += s)`
 * with `s = Math.max(1, Math.floor(n / 20))`, keeping indices 0, s, 2s, ...
 */
module Sampling {

  /** `Math.max(1, Math.floor(n / 20))` */
  function Stride(n: nat): (s: nat)
    ensures s >= 1
  {
    if n / 20 > 1 then n / 20 else 1
  }

  /** The number of indices 0, s, 2s, ... below `n`: `ceil(n / s)`. */
  function SampleCount(n: nat): nat {
    (n + Stride(n) - 1) / Stride(n)
  }

  /** The k-th kept index. */
  function SampleAt(n: nat, k: nat): (i: nat)
    requires k < SampleCount(n)
    ensures i == k * Stride(n) && i < n
  {
    var s := Stride(n);
    var c := SampleCount(n);
    assert c * s <= n + s - 1;
    assert (c - 1 - k) * s >= 0;
    k * s
  }

  /** Euclidean division is determined by its bounds. */
  lemma DivisionByBounds(m: int, s: int, c: int)
    requires s > 0 && c * s <= m < c * s + s
    ensures m / s == c
  {
    var q := m / s;
    assert q * s <= m < q * s + s;
    var d := q - c;
    assert d * s == q * s - c * s;
    assert d >= 1 ==> (d - 1) * s >= 0;
    assert d <= -1 ==> (-1 - d) * s >= 0;
  }

  /**
   * The loop stops after `k` steps exactly when `k` steps of the stride reach
   * `n` and `k - 1` do not: then `k` is the sample count.
   */
  lemma SampleCountExact(n: nat, k: nat)
    requires k * Stride(n) >= n
    requires k == 0 || (k - 1) * Stride(n) < n
    ensures k == SampleCount(n)
  {
    var s := Stride(n);
    assert k > 0 ==> k * s == (k - 1) * s + s;
    DivisionByBounds(n + s - 1, s, k);
  }

  /** Fewer than 40 points are all kept (the stride is 1). */
  lemma ShortSeriesKeptWhole(n: nat)
    requires n < 40
    ensures Stride(n) == 1 && SampleCount(n) == n
  {
  }

  /**
   * From 20 points on, between 20 and 39 are kept: about 20, but not
   * exactly, since the stride is rounded down.
   */
  lemma SampleCountBounds(n: nat)
    requires n >= 20
    ensures 20 <= SampleCount(n) <= 39
  {
    var s := Stride(n);
    var c := SampleCount(n);
    assert s == n / 20 && 20 * s <= n < 20 * s + 20;
    assert c * s <= n + s - 1 < c * s + s;
    assert c <= 19 ==> (19 - c) * s >= 0;
    assert c >= 40 ==> (c - 40) * s >= 0;
  }

  /** Later samples come from later indices. */
  lemma SampleAtMonotone(n: nat, k: nat, l: nat)
    requires k <= l < SampleCount(n)
    ensures SampleAt(n, k) <= SampleAt(n, l)
  {
    assert (l - k) * Stride(n) >= 0;
    assert l * Stride(n) == k * Stride(n) + (l - k) * Stride(n);
  }

  /**
   * The down-sampling loop: `for (let i = 0; i < n; i += s) kept.push(xs[i])`.
   * The first element is always kept.
   */
  method StrideSample<T>(xs: seq<T>) returns (kept: seq<T>)
    ensures |kept| == SampleCount(|xs|)
    ensures forall k :: 0 <= k < |kept| ==> kept[k] == xs[SampleAt(|xs|, k)]
    ensures |xs| > 0 ==> |kept| > 0 && kept[0] == xs[0]
  {
    var n := |xs|;
    var s := Stride(n);
    kept := [];
    var i := 0;
    while i < n
      invariant i == |kept| * s
      invariant |kept| == 0 || (|kept| - 1) * s < n
      invariant forall k :: 0 <= k < |kept| ==> k * s < n && kept[k] == xs[k * s]
    {
      assert (|kept| + 1) * s == i + s;
      kept := kept + [xs[i]];
      i := i + s;
    }
    SampleCountExact(n, |kept|);
  }
}
