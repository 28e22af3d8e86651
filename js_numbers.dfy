/**
 * The few JavaScript number behaviours the dashboard relies on.
 *
 * The CSV reader turns an empty numeric cell into `null`; a present cell is a
 * number. `null || 0` is 0, `null > c` compares 0 with c, and `null / x` is 0,
 * so every use of a missing count goes through `OrZero`.
 */
module JsNumbers {
  import opened Wrappers

  /** A count column of one observation (cases, deaths, tests, ...). */
  type Count = Option<int>

  /** A normalised column (per hundred, per thousand, per million). */
  type Rate = Option<real>

  /** `x || 0` */
  function OrZero(c: Count): int {
    if c.Some? then c.value else 0
  }

  /** `x || 0` on a normalised column. */
  function RateOrZero(c: Rate): real {
    if c.Some? then c.value else 0.0
  }

  /** `if (x)` on a number: null and 0 are falsy. */
  predicate Truthy(c: Count) {
    c.Some? && c.value != 0
  }

  predicate RateTruthy(c: Rate) {
    c.Some? && c.value != 0.0
  }

  /** `if (s)` on a string: the CSV reader's null is modelled as "". */
  predicate StrTruthy(s: string) {
    s != ""
  }

  /** A JavaScript number that may be NaN (the only non-finite value the statistics can reach). */
  datatype Num = Fin(v: real) | NaN

  /** `n > 0`; false for NaN. */
  predicate Positive(n: Num) {
    n.Fin? && n.v > 0.0
  }

  /** `n` truthy: neither 0 nor NaN. */
  predicate NumTruthy(n: Num) {
    n.Fin? && n.v != 0.0
  }

  /** `n * f` */
  function Times(n: Num, f: real): Num {
    match n
    case Fin(v) => Fin(v * f)
    case NaN => NaN
  }

  /**
   * `(d > 0 ? n / d * 100 : 0)`: a guarded percentage, as used for the
   * case-fatality and positivity rates.
   */
  function GuardedPercent(n: Num, d: Num): (r: Num)
    ensures !Positive(d) ==> r == Fin(0.0)
    ensures Positive(d) && n.Fin? ==> r.Fin? && r.v * d.v == n.v * 100.0
    ensures Positive(d) && n.NaN? ==> r.NaN?
  {
    if Positive(d) then
      match n
      case Fin(v) => Fin(v / d.v * 100.0)
      case NaN => NaN
    else Fin(0.0)
  }

  /**
   * `parseFloat(x.toFixed(digits))` with `unit` = 10^digits: the magnitude is
   * rounded half up and the sign kept, as `toFixed` does on exact values.
   */
  function RoundFixed(x: real, unit: nat): (r: real)
    requires unit > 0
    ensures -1.0 / (2 * unit) as real <= r - x <= 1.0 / (2 * unit) as real
  {
    var u := unit as real;
    if x >= 0.0 then
      var n := (x * u + 0.5).Floor;
      assert n as real <= x * u + 0.5 < n as real + 1.0;
      n as real / u
    else
      var n := (-x * u + 0.5).Floor;
      assert n as real <= -x * u + 0.5 < n as real + 1.0;
      -(n as real / u)
  }

  /** `parseFloat(x.toFixed(2))` */
  function Round2(x: real): (r: real)
    ensures -0.005 <= r - x <= 0.005
  {
    RoundFixed(x, 100)
  }

  /** A value shown with one decimal is positive exactly when the value is at least 0.05. */
  lemma RoundOnePositive(x: real)
    ensures RoundFixed(x, 10) > 0.0 <==> x >= 0.05
    ensures RoundFixed(x, 10) < 0.0 <==> x <= -0.05
  {
    if x >= 0.0 {
      var n := (x * 10.0 + 0.5).Floor;
      assert n as real <= x * 10.0 + 0.5 < n as real + 1.0;
    } else {
      var n := (-x * 10.0 + 0.5).Floor;
      assert n as real <= -x * 10.0 + 0.5 < n as real + 1.0;
    }
  }
}
