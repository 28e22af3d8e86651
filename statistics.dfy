/**
 * The summary-statistics calculator: the latest, peak and average figures of
 * the filtered view, their scaling by view mode, the 7-day change indicators
 * and the "last updated" date (js/main.js, `calculateLatestStats` through
 * `updateChangeIndicators`).
 *
 * Each calculation takes the filtered view as a parameter; the dashboard
 * passes its current `filteredData`.
 */
module Statistics {
  import opened Wrappers
  import opened JsNumbers
  import opened Observations
  import opened Sequences
  import opened Keyed

  /** The `summary-view` selector. */
  datatype ViewMode = Total | PerMillion | PerCapita

  /** The `summary-data-type` selector. */
  datatype DataType = LatestData | PeakData | AverageData

  /** The four headline figures before scaling. */
  datatype Figures = Figures(cases: Num, deaths: Num, vaccinations: Num, tests: Num)

  /**
   * The values the formatted fields are printed from: the scaled figures and
   * the case-fatality and positivity rates, in percent.
   */
  datatype Display = Display(cases: Num, deaths: Num, vaccinations: Num, tests: Num, cfr: Num, positivity: Num)

  /**
   * The `percent` string of a change: the initial "0%", a value printed with
   * one decimal (kept here as the value `parseFloat` reads back), or
   * "Infinity%" when the previous total is 0.
   */
  datatype PercentText = Unset | Fixed(shown: real) | Infinite

  /** A change with its value and percent, or a label ("Peak", "Avg") without a `%`. */
  datatype Change = Change(value: int, percent: PercentText) | Marker(caption: string)

  datatype Summary = Summary(
    totals: Figures,
    population: int,
    display: Option<Display>,
    casesChange: Change,
    deathsChange: Change,
    vaccinationsChange: Change,
    lastUpdated: Option<int>)

  // ---------------------------------------------------------------------
  // Latest row per location
  // ---------------------------------------------------------------------

  /** `Object.values(latestData)` after the latest-per-location loop. */
  function LatestEntries(view: seq<Row>): (entries: seq<Row>)
    ensures |entries| == |KeyOrder(view, Location, Always)|
  {
    LatestByKeys(view, Location, Always);
    ValuesOf(LatestBy(view, Location, Always), KeyOrder(view, Location, Always))
  }

  /**
   * One entry per location of the view, in order of first appearance, and
   * each entry is that location's first row with the largest date.
   */
  lemma LatestEntriesFacts(view: seq<Row>)
    ensures Distinct(KeyOrder(view, Location, Always))
    ensures forall loc :: loc in KeyOrder(view, Location, Always) <==> exists i :: 0 <= i < |view| && view[i].location == loc
    ensures forall n :: 0 <= n < |LatestEntries(view)| ==>
      exists i :: IsLatestAt(view, Location, Always, KeyOrder(view, Location, Always)[n], i) && LatestEntries(view)[n] == view[i]
  {
    var locs := KeyOrder(view, Location, Always);
    KeyOrderFacts(view, Location, Always);
    LatestByKeys(view, Location, Always);
    forall loc ensures loc in locs <==> exists i :: 0 <= i < |view| && view[i].location == loc {
      assert Present(view, Location, Always, loc) <==> exists i :: 0 <= i < |view| && Location(view[i]) == loc;
    }
    forall n | 0 <= n < |LatestEntries(view)|
      ensures exists i :: IsLatestAt(view, Location, Always, locs[n], i) && LatestEntries(view)[n] == view[i]
    {
      assert locs[n] in LatestBy(view, Location, Always);
      LatestBySelects(view, Location, Always, locs[n]);
    }
  }

  /**
   * No row that is not its location's latest contributes: rewriting the
   * figures of such a row leaves the latest entries unchanged.
   */
  lemma LatestEntriesIgnoreOlderRows(view: seq<Row>, j: int, r: Row)
    requires 0 <= j < |view|
    requires r.location == view[j].location && r.date == view[j].date
    requires exists i :: i != j && IsLatestAt(view, Location, Always, view[j].location, i)
    ensures LatestEntries(view[j := r]) == LatestEntries(view)
  {
    var other := view[j := r];
    assert SameSelection(view, other, Location, Always);
    forall k, i | IsLatestAt(view, Location, Always, k, i) ensures other[i] == view[i] {
      if i == j {
        var i' :| i' != j && IsLatestAt(view, Location, Always, view[j].location, i');
        LatestAtUnique(view, Location, Always, k, i, i');
      }
    }
    LatestByOnlyLatestRowsMatter(view, other, Location, Always);
    KeyOrderSameSelection(view, other, Location, Always);
  }

  // ---------------------------------------------------------------------
  // Scaling by view mode
  // ---------------------------------------------------------------------

  /** `shown` is `raw` scaled by `unit / population`. */
  predicate Scaled(shown: Num, raw: Num, population: int, unit: real) {
    && (shown.NaN? <==> raw.NaN?)
    && (raw.Fin? ==> shown.v * population as real == raw.v * unit)
  }

  lemma ScaledTimes(raw: Num, population: int, unit: real)
    requires population > 0
    ensures Scaled(Times(raw, unit / population as real), raw, population, unit)
  {
    if raw.Fin? {
      var p := population as real;
      calc {
        raw.v * (unit / p) * p;
        raw.v * ((unit / p) * p);
        raw.v * unit;
      }
    }
  }

  /**
   * `formatStatsByViewMode`: totals as they are, per million or per hundred
   * inhabitants; the rates are the same in every mode. A per-population mode
   * with no population produces no formatted fields.
   */
  function FormatStatsByViewMode(f: Figures, population: int, mode: ViewMode): (r: Option<Display>)
    ensures r.None? <==> mode != Total && population <= 0
    ensures r.Some? ==> r.value.cfr == GuardedPercent(f.deaths, f.cases) && r.value.positivity == GuardedPercent(f.cases, f.tests)
    ensures mode == Total ==>
      r.Some? && r.value.cases == f.cases && r.value.deaths == f.deaths
      && r.value.vaccinations == f.vaccinations && r.value.tests == f.tests
    ensures mode == PerMillion && r.Some? ==>
      && Scaled(r.value.cases, f.cases, population, 1000000.0) && Scaled(r.value.deaths, f.deaths, population, 1000000.0)
      && Scaled(r.value.vaccinations, f.vaccinations, population, 1000000.0) && Scaled(r.value.tests, f.tests, population, 1000000.0)
    ensures mode == PerCapita && r.Some? ==>
      && Scaled(r.value.cases, f.cases, population, 100.0) && Scaled(r.value.deaths, f.deaths, population, 100.0)
      && Scaled(r.value.vaccinations, f.vaccinations, population, 100.0) && Scaled(r.value.tests, f.tests, population, 100.0)
  {
    var cfr := GuardedPercent(f.deaths, f.cases);
    var positivity := GuardedPercent(f.cases, f.tests);
    if mode == Total then
      Some(Display(f.cases, f.deaths, f.vaccinations, f.tests, cfr, positivity))
    else if population <= 0 then
      None
    else
      var unit := if mode == PerMillion then 1000000.0 else 100.0;
      var factor := unit / population as real;
      ScaledTimes(f.cases, population, unit);
      ScaledTimes(f.deaths, population, unit);
      ScaledTimes(f.vaccinations, population, unit);
      ScaledTimes(f.tests, population, unit);
      Some(Display(Times(f.cases, factor), Times(f.deaths, factor), Times(f.vaccinations, factor), Times(f.tests, factor), cfr, positivity))
  }

  // ---------------------------------------------------------------------
  // Seven-day changes
  // ---------------------------------------------------------------------

  /** A row of `location` dated strictly less than two days from `target`. */
  predicate NearTarget(r: Row, location: string, target: int) {
    r.location == location && -2 < r.date - target < 2
  }

  /** `view.find(...)`: the index of the first row near the target, if any. */
  function FindNear(view: seq<Row>, location: string, target: int): (r: Option<nat>)
    ensures r.None? <==> forall j :: 0 <= j < |view| ==> !NearTarget(view[j], location, target)
    ensures r.Some? ==>
      r.value < |view| && NearTarget(view[r.value], location, target)
      && forall j :: 0 <= j < r.value ==> !NearTarget(view[j], location, target)
  {
    if view == [] then None
    else if NearTarget(view[0], location, target) then Some(0)
    else
      match FindNear(view[1..], location, target)
      case None => None
      case Some(i) => Some(i + 1)
  }

  /** The row compared with `latest`: the first of its location about 7 days earlier. */
  function PreviousRow(view: seq<Row>, latest: Row): Option<Row> {
    match FindNear(view, latest.location, latest.date - 7)
    case None => None
    case Some(i) => Some(view[i])
  }

  /** One location's contribution to a change; 0 without a previous row. */
  function WeekDelta(view: seq<Row>, latest: Row, metric: Row -> int): int {
    match PreviousRow(view, latest)
    case None => 0
    case Some(p) => metric(latest) - metric(p)
  }

  /** The change value: the contributions of all latest entries. */
  function DeltaSum(view: seq<Row>, entries: seq<Row>, metric: Row -> int): int {
    if entries == [] then 0
    else DeltaSum(view, entries[..|entries| - 1], metric) + WeekDelta(view, entries[|entries| - 1], metric)
  }

  /** Locations without a row about a week earlier contribute nothing. */
  lemma {:induction false} DeltaSumWithoutHistory(view: seq<Row>, entries: seq<Row>, metric: Row -> int)
    requires forall e :: e in entries ==> forall j :: 0 <= j < |view| ==> !NearTarget(view[j], e.location, e.date - 7)
    ensures DeltaSum(view, entries, metric) == 0
  {
    if entries != [] {
      DeltaSumWithoutHistory(view, entries[..|entries| - 1], metric);
    }
  }

  /**
   * The percent of a change: `value / (total - value) * 100` printed with one
   * decimal, set only when the total is positive.
   */
  function PercentOf(value: int, total: int): (p: PercentText)
    ensures p.Unset? <==> total <= 0
    ensures p.Infinite? <==> total > 0 && value == total
    ensures p.Fixed? ==> -0.05 <= p.shown - value as real / (total - value) as real * 100.0 <= 0.05
    ensures p.Fixed? && value == 0 ==> p.shown == 0.0
  {
    if total <= 0 then Unset
    else if total == value then Infinite
    else Fixed(RoundFixed(value as real / (total - value) as real * 100.0, 10))
  }

  /** The change of one metric over the latest entries. */
  function WeekChange(view: seq<Row>, entries: seq<Row>, metric: Row -> int): Change {
    var value := DeltaSum(view, entries, metric);
    Change(value, PercentOf(value, SumBy(entries, metric)))
  }

  /**
   * `calculateChanges`: the loop over the latest entries that accumulates the
   * three change values, then the percentages.
   */
  method CalculateChanges(view: seq<Row>, entries: seq<Row>) returns (cases: Change, deaths: Change, vaccinations: Change)
    ensures cases == WeekChange(view, entries, TotalCases)
    ensures deaths == WeekChange(view, entries, TotalDeaths)
    ensures vaccinations == WeekChange(view, entries, TotalVaccinations)
  {
    var casesValue, deathsValue, vaccinationsValue := 0, 0, 0;
    for i := 0 to |entries|
      invariant casesValue == DeltaSum(view, entries[..i], TotalCases)
      invariant deathsValue == DeltaSum(view, entries[..i], TotalDeaths)
      invariant vaccinationsValue == DeltaSum(view, entries[..i], TotalVaccinations)
    {
      assert entries[..i + 1][..i] == entries[..i];
      var latest := entries[i];
      var found := FindNear(view, latest.location, latest.date - 7);
      if found.Some? {
        var previous := view[found.value];
        casesValue := casesValue + (TotalCases(latest) - TotalCases(previous));
        deathsValue := deathsValue + (TotalDeaths(latest) - TotalDeaths(previous));
        vaccinationsValue := vaccinationsValue + (TotalVaccinations(latest) - TotalVaccinations(previous));
      }
    }
    assert entries[..|entries|] == entries;
    cases := Change(casesValue, PercentOf(casesValue, SumBy(entries, TotalCases)));
    deaths := Change(deathsValue, PercentOf(deathsValue, SumBy(entries, TotalDeaths)));
    vaccinations := Change(vaccinationsValue, PercentOf(vaccinationsValue, SumBy(entries, TotalVaccinations)));
  }

  // ---------------------------------------------------------------------
  // Change indicators
  // ---------------------------------------------------------------------

  datatype Icon = ArrowUp | ArrowDown | Dash

  /** The `stat-change` colour class: good news, bad news, or neither. */
  datatype Tone = Favourable | Unfavourable | Neutral

  datatype Indication = Indication(icon: Icon, tone: Tone)

  /**
   * The sign `parseFloat` reads from a change's percent string; a label
   * without `%` is shown as neutral.
   */
  function ShownSign(c: Change): int {
    match c
    case Marker(_) => 0
    case Change(_, Unset) => 0
    case Change(_, Infinite) => 1
    case Change(_, Fixed(x)) => if x > 0.0 then 1 else if x < 0.0 then -1 else 0
  }

  /**
   * `updateChangeIndicators` for one metric: a rise is bad news for cases and
   * deaths and good news for vaccinations (`upIsGood`).
   */
  function Indicator(c: Change, upIsGood: bool): (r: Indication)
    ensures c.Marker? ==> r == Indication(Dash, Neutral)
    ensures r.icon == Dash <==> r.tone == Neutral
    ensures r.icon == ArrowUp ==> r.tone == (if upIsGood then Favourable else Unfavourable)
    ensures r.icon == ArrowDown ==> r.tone == (if upIsGood then Unfavourable else Favourable)
  {
    var sign := ShownSign(c);
    if sign > 0 then Indication(ArrowUp, if upIsGood then Favourable else Unfavourable)
    else if sign < 0 then Indication(ArrowDown, if upIsGood then Unfavourable else Favourable)
    else Indication(Dash, Neutral)
  }

  /**
   * The arrow of a change follows the sign of the exact percentage, except
   * that changes under 0.05% in magnitude print as "0.0%" and show a dash.
   */
  lemma IndicatorOfChange(value: int, total: int, upIsGood: bool)
    requires total > 0
    ensures var icon := Indicator(Change(value, PercentOf(value, total)), upIsGood).icon;
      && (value == total ==> icon == ArrowUp)
      && (value != total ==>
            && (icon == ArrowUp <==> value as real / (total - value) as real * 100.0 >= 0.05)
            && (icon == ArrowDown <==> value as real / (total - value) as real * 100.0 <= -0.05))
  {
    if value != total {
      RoundOnePositive(value as real / (total - value) as real * 100.0);
    }
  }

  // ---------------------------------------------------------------------
  // Last updated
  // ---------------------------------------------------------------------

  /** The largest date of the rows, if there are any. */
  function LastDate(rows: seq<Row>): (r: Option<int>)
    ensures r.None? <==> rows == []
    ensures r.Some? ==> forall i :: 0 <= i < |rows| ==> rows[i].date <= r.value
    ensures r.Some? ==> exists i :: 0 <= i < |rows| && rows[i].date == r.value
  {
    if rows == [] then None
    else
      var d := rows[|rows| - 1].date;
      match LastDate(rows[..|rows| - 1])
      case None => Some(d)
      case Some(e) => Some(if d > e then d else e)
  }

  /**
   * `getLastUpdatedDate`: null without entries, otherwise the latest entry
   * date, starting the search from the epoch (day 0).
   */
  function GetLastUpdatedDate(entries: seq<Row>): (r: Option<int>)
    ensures r.None? <==> entries == []
    ensures r.Some? ==> r.value >= 0 && forall i :: 0 <= i < |entries| ==> entries[i].date <= r.value
    ensures r.Some? && r.value > 0 ==> exists i :: 0 <= i < |entries| && entries[i].date == r.value
  {
    match LastDate(entries)
    case None => None
    case Some(d) => Some(if d > 0 then d else 0)
  }

  // ---------------------------------------------------------------------
  // Latest mode
  // ---------------------------------------------------------------------

  function Whole(n: int): Num { Fin(n as real) }

  /**
   * What latest mode shows: totals and population over the latest entry of
   * each location, the 7-day changes, and the last entry date.
   */
  predicate IsLatestSummary(view: seq<Row>, mode: ViewMode, s: Summary) {
    var entries := LatestEntries(view);
    && s.totals == Figures(Whole(SumBy(entries, TotalCases)), Whole(SumBy(entries, TotalDeaths)),
                           Whole(SumBy(entries, TotalVaccinations)), Whole(SumBy(entries, TotalTests)))
    && s.population == SumBy(entries, Population)
    && s.display == FormatStatsByViewMode(s.totals, s.population, mode)
    && s.casesChange == WeekChange(view, entries, TotalCases)
    && s.deathsChange == WeekChange(view, entries, TotalDeaths)
    && s.vaccinationsChange == WeekChange(view, entries, TotalVaccinations)
    && s.lastUpdated == GetLastUpdatedDate(entries)
  }

  /** `calculateLatestStats` */
  method CalculateLatestStats(view: seq<Row>, mode: ViewMode) returns (s: Summary)
    ensures IsLatestSummary(view, mode, s)
  {
    var latest, order := CollectLatest(view, Location, Always);
    LatestByKeys(view, Location, Always);
    var entries := ValuesOf(latest, order);
    var totals := Figures(Whole(SumBy(entries, TotalCases)), Whole(SumBy(entries, TotalDeaths)),
                          Whole(SumBy(entries, TotalVaccinations)), Whole(SumBy(entries, TotalTests)));
    var population := SumBy(entries, Population);
    var cases, deaths, vaccinations := CalculateChanges(view, entries);
    s := Summary(totals, population, FormatStatsByViewMode(totals, population, mode),
                 cases, deaths, vaccinations, GetLastUpdatedDate(entries));
  }

  // ---------------------------------------------------------------------
  // Peak mode
  // ---------------------------------------------------------------------

  /** `{ totalValue, date }` of `findPeakValue`. */
  datatype Peak = Peak(totalValue: int, date: Option<int>)

  /** The peak over the days in `days`, a later day replacing it only when strictly larger. */
  function PeakOver(days: seq<int>, view: seq<Row>, metric: Row -> int): Peak {
    if days == [] then Peak(0, None)
    else
      var p := PeakOver(days[..|days| - 1], view, metric);
      var d := days[|days| - 1];
      var total := GroupSum(view, Date, Always, metric, d);
      if total > p.totalValue then Peak(total, Some(d)) else p
  }

  /**
   * The peak is the largest day sum and the first day reaching it; it is
   * `{0, null}` exactly when no day sum is positive.
   */
  lemma {:induction false} PeakOverFacts(days: seq<int>, view: seq<Row>, metric: Row -> int)
    ensures var p := PeakOver(days, view, metric);
      && p.totalValue >= 0
      && (forall i :: 0 <= i < |days| ==> GroupSum(view, Date, Always, metric, days[i]) <= p.totalValue)
      && (p.date.None? <==> forall i :: 0 <= i < |days| ==> GroupSum(view, Date, Always, metric, days[i]) <= 0)
      && (p.date.None? ==> p.totalValue == 0)
      && (p.date.Some? ==>
            exists i :: && 0 <= i < |days| && days[i] == p.date.value
                        && GroupSum(view, Date, Always, metric, days[i]) == p.totalValue
                        && forall j :: 0 <= j < i ==> GroupSum(view, Date, Always, metric, days[j]) < p.totalValue)
  {
    if days != [] {
      var n := |days|;
      var prefix := days[..n - 1];
      PeakOverFacts(prefix, view, metric);
      var p := PeakOver(prefix, view, metric);
      assert forall i :: 0 <= i < n - 1 ==> days[i] == prefix[i];
      if p.date.Some? {
        var i :| 0 <= i < n - 1 && prefix[i] == p.date.value
          && GroupSum(view, Date, Always, metric, prefix[i]) == p.totalValue
          && forall j :: 0 <= j < i ==> GroupSum(view, Date, Always, metric, prefix[j]) < p.totalValue;
        assert days[i] == p.date.value;
      }
    }
  }

  /**
   * `findPeakValue`: the per-date sums of the metric, then the loop over the
   * dates in insertion order keeping a strictly larger sum.
   */
  method FindPeakValue(view: seq<Row>, metric: Row -> int) returns (peak: Peak)
    ensures peak == PeakOver(KeyOrder(view, Date, Always), view, metric)
  {
    var sums, days := Accumulate(view, Date, Always, metric);
    peak := Peak(0, None);
    for i := 0 to |days|
      invariant peak == PeakOver(days[..i], view, metric)
    {
      assert days[..i + 1][..i] == days[..i];
      var total := sums[days[i]];
      if total > peak.totalValue {
        peak := Peak(total, Some(days[i]));
      }
    }
    assert days[..|days|] == days;
  }

  /** `new Date(peak.date || 0)`: a missing peak date is the epoch. */
  function PeakDay(p: Peak): int {
    if p.date.Some? then p.date.value else 0
  }

  /**
   * The evidently intended "last updated" of peak mode: the latest of the
   * three peak dates, a missing one counting as the epoch.
   */
  function PeakLastUpdated(cases: Peak, deaths: Peak, vaccinations: Peak): (d: int)
    ensures d >= PeakDay(cases) && d >= PeakDay(deaths) && d >= PeakDay(vaccinations)
    ensures d == PeakDay(cases) || d == PeakDay(deaths) || d == PeakDay(vaccinations)
  {
    var m := if PeakDay(cases) > PeakDay(deaths) then PeakDay(cases) else PeakDay(deaths);
    if PeakDay(vaccinations) > m then PeakDay(vaccinations) else m
  }

  /** The JavaScript values the peak "last updated" expression handles. */
  datatype JsValue = JsNumber(n: int) | JsDate(day: int)

  /**
   * `Math.max(...)` of one or more arguments converts them to numbers and
   * returns a number, never a Date. (With no arguments JavaScript returns
   * -Infinity, which has no place among these integers; the code never calls it so.)
   */
  function MathMax(args: seq<JsValue>): (r: JsValue)
    requires |args| > 0
    ensures r.JsNumber?
  {
    var x := match args[|args| - 1] case JsNumber(n) => n case JsDate(day) => day;
    if |args| == 1 then JsNumber(x)
    else
      var rest := MathMax(args[..|args| - 1]).n;
      JsNumber(if x > rest then x else rest)
  }

  /** `v.toISOString()`: a method of Date only; on a number it throws a TypeError. */
  function ToISOString(v: JsValue): Result<int> {
    match v
    case JsDate(day) => Success(day)
    case JsNumber(_) => Failure("TypeError: toISOString is not a function")
  }

  /** The peak-mode "last updated" as written: `Math.max(...).toISOString()`. */
  function PeakLastUpdatedAsWritten(cases: Peak, deaths: Peak, vaccinations: Peak): (r: Result<int>)
    ensures r.Failure?
  {
    ToISOString(MathMax([JsDate(PeakDay(cases)), JsDate(PeakDay(deaths)), JsDate(PeakDay(vaccinations))]))
  }

  /** As written, peak mode never produces a result, whatever the view. */
  lemma PeakModeAlwaysThrows(view: seq<Row>)
    ensures var days := KeyOrder(view, Date, Always);
      PeakLastUpdatedAsWritten(PeakOver(days, view, NewCases), PeakOver(days, view, NewDeaths),
                               PeakOver(days, view, NewVaccinations)).Failure?
  {
  }

  /**
   * What peak mode shows, with the "last updated" date computed as intended:
   * each figure is the peak day sum of its daily metric.
   */
  predicate IsPeakSummary(view: seq<Row>, mode: ViewMode, s: Summary) {
    var days := KeyOrder(view, Date, Always);
    && s.totals == Figures(Whole(PeakOver(days, view, NewCases).totalValue), Whole(PeakOver(days, view, NewDeaths).totalValue),
                           Whole(PeakOver(days, view, NewVaccinations).totalValue), Whole(PeakOver(days, view, NewTests).totalValue))
    && s.population == SumBy(LatestEntries(view), Population)
    && s.display == FormatStatsByViewMode(s.totals, s.population, mode)
    && s.casesChange == Marker("Peak") && s.deathsChange == Marker("Peak") && s.vaccinationsChange == Marker("Peak")
    && s.lastUpdated == Some(PeakLastUpdated(PeakOver(days, view, NewCases), PeakOver(days, view, NewDeaths),
                                             PeakOver(days, view, NewVaccinations)))
  }

  /** `calculatePeakStats` */
  method CalculatePeakStats(view: seq<Row>, mode: ViewMode) returns (s: Summary)
    ensures IsPeakSummary(view, mode, s)
  {
    var cases := FindPeakValue(view, NewCases);
    var deaths := FindPeakValue(view, NewDeaths);
    var vaccinations := FindPeakValue(view, NewVaccinations);
    var tests := FindPeakValue(view, NewTests);
    var latest, order := CollectLatest(view, Location, Always);
    LatestByKeys(view, Location, Always);
    var population := SumBy(ValuesOf(latest, order), Population);
    var totals := Figures(Whole(cases.totalValue), Whole(deaths.totalValue), Whole(vaccinations.totalValue), Whole(tests.totalValue));
    s := Summary(totals, population, FormatStatsByViewMode(totals, population, mode),
                 Marker("Peak"), Marker("Peak"), Marker("Peak"), Some(PeakLastUpdated(cases, deaths, vaccinations)));
  }

  // ---------------------------------------------------------------------
  // Average mode
  // ---------------------------------------------------------------------

  /**
   * The weekly average: the sum of the daily totals over the number of
   * distinct dates, times 7; 0 / 0 (NaN) for an empty view.
   */
  function WeeklyMean(view: seq<Row>, metric: Row -> int): Num {
    var days := |KeyOrder(view, Date, Always)|;
    if days == 0 then NaN
    else Fin(EligibleTotal(view, Always, metric) as real / days as real * 7.0)
  }

  lemma {:induction false} EligibleTotalAlways(rows: seq<Row>, metric: Row -> int)
    ensures EligibleTotal(rows, Always, metric) == SumBy(rows, metric)
  {
    if rows != [] {
      EligibleTotalAlways(rows[..|rows| - 1], metric);
    }
  }

  /**
   * The average is NaN exactly for an empty view; otherwise it is the total
   * of the metric over every row, spread over the distinct dates, per week.
   */
  lemma WeeklyMeanFacts(view: seq<Row>, metric: Row -> int)
    ensures WeeklyMean(view, metric).NaN? <==> view == []
    ensures view != [] ==>
      WeeklyMean(view, metric).v * |KeyOrder(view, Date, Always)| as real == SumBy(view, metric) as real * 7.0
  {
    KeyOrderFacts(view, Date, Always);
    EligibleTotalAlways(view, metric);
    if view != [] {
      assert Present(view, Date, Always, view[0].date) by {
        assert Always(view[0]) && Date(view[0]) == view[0].date;
      }
      assert view[0].date in KeyOrder(view, Date, Always);
    }
  }

  /**
   * The daily totals of `calculateAverageStats` for one metric, added up in
   * a loop over the dates and averaged.
   */
  method DailyAverage(view: seq<Row>, metric: Row -> int) returns (avg: Num)
    ensures avg == WeeklyMean(view, metric)
  {
    var sums, days := Accumulate(view, Date, Always, metric);
    var total := 0;
    for i := 0 to |days|
      invariant total == SumOfGroups(days[..i], view, Date, Always, metric)
    {
      assert days[..i + 1][..i] == days[..i];
      total := total + sums[days[i]];
    }
    assert days[..|days|] == days;
    GroupsPartitionTotal(view, Date, Always, metric);
    if |days| == 0 {
      avg := NaN;
    } else {
      avg := Fin(total as real / |days| as real * 7.0);
    }
  }

  /**
   * What average mode shows: weekly averages of the daily metrics, and the
   * last date of the view as "last updated".
   */
  predicate IsAverageSummary(view: seq<Row>, mode: ViewMode, s: Summary) {
    && s.totals == Figures(WeeklyMean(view, NewCases), WeeklyMean(view, NewDeaths),
                           WeeklyMean(view, NewVaccinations), WeeklyMean(view, NewTests))
    && s.population == SumBy(LatestEntries(view), Population)
    && s.display == FormatStatsByViewMode(s.totals, s.population, mode)
    && s.casesChange == Marker("Avg") && s.deathsChange == Marker("Avg") && s.vaccinationsChange == Marker("Avg")
    && s.lastUpdated == LastDate(view)
  }

  /** `calculateAverageStats` */
  method CalculateAverageStats(view: seq<Row>, mode: ViewMode) returns (s: Summary)
    ensures IsAverageSummary(view, mode, s)
  {
    var cases := DailyAverage(view, NewCases);
    var deaths := DailyAverage(view, NewDeaths);
    var vaccinations := DailyAverage(view, NewVaccinations);
    var tests := DailyAverage(view, NewTests);
    var latest, order := CollectLatest(view, Location, Always);
    LatestByKeys(view, Location, Always);
    var population := SumBy(ValuesOf(latest, order), Population);
    var totals := Figures(cases, deaths, vaccinations, tests);
    s := Summary(totals, population, FormatStatsByViewMode(totals, population, mode),
                 Marker("Avg"), Marker("Avg"), Marker("Avg"), LastDate(view));
  }
}
