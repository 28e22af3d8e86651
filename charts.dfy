/**
 * The data-preparation halves of the chart builders (js/charts.js): each one
 * fills a dictionary from the filtered view in a `forEach` loop, then sorts,
 * cuts and maps it into the labels and values handed to the chart.
 */
module Charts {
  import opened Wrappers
  import opened JsNumbers
  import opened Observations
  import opened Sequences
  import opened Strings
  import opened Keyed
  import opened Sampling

  // ---------------------------------------------------------------------
  // Bars by continent: cases and vaccination progress
  // ---------------------------------------------------------------------

  /** Rows the case bars use: a continent and truthy total cases. */
  predicate CasesBarRow(r: Row) {
    StrTruthy(r.continent) && Truthy(r.totalCases)
  }

  /** Rows the vaccination bars use: a continent, a date and a truthy fully-vaccinated share. */
  predicate VaccinationBarRow(r: Row) {
    StrTruthy(r.continent) && RateTruthy(r.peopleFullyVaccinatedPerHundred)
  }

  /** A case bar's height: total cases (missing reads 0) in millions. */
  function CasesInMillions(r: Row): real {
    TotalCases(r) as real / 1000000.0
  }

  /** A vaccination bar's height: the fully-vaccinated share, missing reads 0. */
  function FullyVaccinatedShare(r: Row): real {
    RateOrZero(r.peopleFullyVaccinatedPerHundred)
  }

  /**
   * The latest eligible row per continent, labelled by the sorted continent
   * names: each bar is the value of ONE row (the first-seen row with the
   * largest date), not a sum over the continent's countries.
   */
  method ContinentBars(view: seq<Row>, eligible: Row -> bool, value: Row -> real)
    returns (labels: seq<string>, values: seq<real>)
    ensures StrictlyAscending(labels)
    ensures forall c :: c in labels <==> Present(view, Continent, eligible, c)
    ensures |values| == |labels|
    ensures forall k :: 0 <= k < |labels| ==>
      exists i :: IsLatestAt(view, Continent, eligible, labels[k], i) && values[k] == value(view[i])
  {
    var latest, order := CollectLatest(view, Continent, eligible);
    KeyOrderFacts(view, Continent, eligible);
    LatestByKeys(view, Continent, eligible);
    SortStringsFacts(order);
    labels := SortStrings(order);
    values := seq(|labels|, k requires 0 <= k < |labels| => value(latest[labels[k]]));
    forall k | 0 <= k < |labels|
      ensures exists i :: IsLatestAt(view, Continent, eligible, labels[k], i) && values[k] == value(view[i])
    {
      LatestBySelects(view, Continent, eligible, labels[k]);
    }
  }

  /** The "Total Cases (millions)" bars. */
  method CasesByContinent(view: seq<Row>) returns (labels: seq<string>, values: seq<real>)
    ensures StrictlyAscending(labels)
    ensures forall c :: c in labels <==>
      exists i :: 0 <= i < |view| && view[i].continent == c && c != "" && Truthy(view[i].totalCases)
    ensures |values| == |labels|
    ensures forall k :: 0 <= k < |labels| ==>
      exists i :: IsLatestAt(view, Continent, CasesBarRow, labels[k], i) && values[k] * 1000000.0 == TotalCases(view[i]) as real
  {
    labels, values := ContinentBars(view, CasesBarRow, CasesInMillions);
    forall c ensures Present(view, Continent, CasesBarRow, c) <==>
      exists i :: 0 <= i < |view| && view[i].continent == c && c != "" && Truthy(view[i].totalCases)
    {
      assert Present(view, Continent, CasesBarRow, c) <==>
        exists i :: 0 <= i < |view| && CasesBarRow(view[i]) && Continent(view[i]) == c;
    }
    forall k | 0 <= k < |labels|
      ensures exists i :: IsLatestAt(view, Continent, CasesBarRow, labels[k], i) && values[k] * 1000000.0 == TotalCases(view[i]) as real
    {
      var i :| IsLatestAt(view, Continent, CasesBarRow, labels[k], i) && values[k] == CasesInMillions(view[i]);
      assert values[k] * 1000000.0 == TotalCases(view[i]) as real;
    }
  }

  /** The "Fully Vaccinated (%)" bars. */
  method VaccinationProgress(view: seq<Row>) returns (labels: seq<string>, values: seq<real>)
    ensures StrictlyAscending(labels)
    ensures forall c :: c in labels <==>
      exists i :: 0 <= i < |view| && view[i].continent == c && c != "" && RateTruthy(view[i].peopleFullyVaccinatedPerHundred)
    ensures |values| == |labels|
    ensures forall k :: 0 <= k < |labels| ==> exists i ::
      IsLatestAt(view, Continent, VaccinationBarRow, labels[k], i) && Some(values[k]) == view[i].peopleFullyVaccinatedPerHundred
  {
    labels, values := ContinentBars(view, VaccinationBarRow, FullyVaccinatedShare);
    forall c ensures Present(view, Continent, VaccinationBarRow, c) <==>
      exists i :: 0 <= i < |view| && view[i].continent == c && c != "" && RateTruthy(view[i].peopleFullyVaccinatedPerHundred)
    {
      assert Present(view, Continent, VaccinationBarRow, c) <==>
        exists i :: 0 <= i < |view| && VaccinationBarRow(view[i]) && Continent(view[i]) == c;
    }
    forall k | 0 <= k < |labels|
      ensures exists i ::
        IsLatestAt(view, Continent, VaccinationBarRow, labels[k], i) && Some(values[k]) == view[i].peopleFullyVaccinatedPerHundred
    {
      var i :| IsLatestAt(view, Continent, VaccinationBarRow, labels[k], i) && values[k] == FullyVaccinatedShare(view[i]);
      assert VaccinationBarRow(view[i]);
    }
  }

  // ---------------------------------------------------------------------
  // Cases timeline
  // ---------------------------------------------------------------------

  /** Rows the timeline adds up: truthy new cases (the date is always present). */
  predicate HasNewCases(r: Row) {
    Truthy(r.newCases)
  }

  /** The timeline's dates: those with a truthy `new_cases`, ascending, each once. */
  function TimelineDates(view: seq<Row>): seq<int> {
    SortedKeys(view, Date, HasNewCases)
  }

  /**
   * `updateCasesTimeline`: the per-date sums of `new_cases`, on the dates in
   * ascending order, down-sampled with the stride of `Sampling`; each kept
   * date is labelled with its month.
   */
  method CasesTimeline(view: seq<Row>) returns (labels: seq<MonthKey>, values: seq<int>)
    ensures |labels| == |values| == SampleCount(|TimelineDates(view)|)
    ensures forall k :: 0 <= k < |labels| ==>
      && labels[k] == MonthOf(TimelineDates(view)[SampleAt(|TimelineDates(view)|, k)])
      && values[k] == GroupSum(view, Date, HasNewCases, NewCases, TimelineDates(view)[SampleAt(|TimelineDates(view)|, k)])
  {
    var sums, order := Accumulate(view, Date, HasNewCases, NewCases);
    KeyOrderFacts(view, Date, HasNewCases);
    var dates := SortAscending(order);
    assert dates == TimelineDates(view);
    KeyOrderFacts(view, Date, HasNewCases);
    var kept := StrideSample(dates);
    assert forall k :: 0 <= k < |kept| ==> kept[k] in dates;
    labels := seq(|kept|, k requires 0 <= k < |kept| => MonthOf(kept[k]));
    values := seq(|kept|, k requires 0 <= k < |kept| => sums[kept[k]]);
  }

  // ---------------------------------------------------------------------
  // Top 10 countries by total cases
  // ---------------------------------------------------------------------

  /** Rows the top-ten dictionary keeps: a location, a date and truthy total cases. */
  predicate CountryCasesRow(r: Row) {
    StrTruthy(r.location) && Truthy(r.totalCases)
  }

  /** Positive total cases and a continent: leaves out the aggregates such as "World" and "International". */
  predicate Listed(r: Row) {
    TotalCases(r) > 0 && StrTruthy(r.continent)
  }

  /** The sort key that puts the largest total cases first. */
  function MoreCasesFirst(r: Row): real {
    -(TotalCases(r) as real)
  }

  /** `view[i]` is the row kept for its location, and it is listed. */
  ghost predicate ListedLatest(view: seq<Row>, i: int) {
    0 <= i < |view| && IsLatestAt(view, Location, CountryCasesRow, view[i].location, i) && Listed(view[i])
  }

  /** The ten listed latest rows with the most cases. */
  function TopCountries(view: seq<Row>): (top: seq<Row>)
    ensures |top| <= 10
  {
    TopTen(Filter(LatestRows(view, Location, CountryCasesRow), Listed), MoreCasesFirst)
  }

  /**
   * `updateCountryComparison`: the latest row per location, the listed ones,
   * the ten with the most cases in descending order, as location labels and
   * case counts.
   */
  method CountryComparison(view: seq<Row>) returns (labels: seq<string>, values: seq<int>)
    ensures |labels| == |values| == |TopCountries(view)| <= 10
    ensures forall k :: 0 <= k < |labels| ==>
      labels[k] == TopCountries(view)[k].location && values[k] == TotalCases(TopCountries(view)[k])
  {
    var latest, order := CollectLatest(view, Location, CountryCasesRow);
    LatestByKeys(view, Location, CountryCasesRow);
    var rows := ValuesOf(latest, order);
    assert rows == LatestRows(view, Location, CountryCasesRow);
    var top := TopTen(Filter(rows, Listed), MoreCasesFirst);
    labels := seq(|top|, k requires 0 <= k < |top| => top[k].location);
    values := seq(|top|, k requires 0 <= k < |top| => TotalCases(top[k]));
  }

  /** One row per location, in descending order of cases. */
  lemma TopCountriesOrdered(view: seq<Row>)
    ensures DistinctBy(TopCountries(view), Location)
    ensures forall j, k :: 0 <= j < k < |TopCountries(view)| ==> TotalCases(TopCountries(view)[j]) >= TotalCases(TopCountries(view)[k])
  {
    var rows := LatestRows(view, Location, CountryCasesRow);
    LatestRowsFacts(view, Location, CountryCasesRow);
    FilterDistinctBy(rows, Listed, Location);
    TopTenDistinctBy(Filter(rows, Listed), MoreCasesFirst, Location);
    TopTenFacts(Filter(rows, Listed), MoreCasesFirst);
  }

  /** Each of the ten is the listed latest row of its location. */
  lemma TopCountriesSound(view: seq<Row>)
    ensures forall k :: 0 <= k < |TopCountries(view)| ==>
      exists i :: ListedLatest(view, i) && TopCountries(view)[k] == view[i]
  {
    var rows := LatestRows(view, Location, CountryCasesRow);
    var top := TopCountries(view);
    TopTenFacts(Filter(rows, Listed), MoreCasesFirst);
    forall k | 0 <= k < |top| ensures exists i :: ListedLatest(view, i) && top[k] == view[i] {
      assert top[k] in Filter(rows, Listed);
      LatestRowsSound(view, Location, CountryCasesRow, top[k]);
    }
  }

  /** A listed latest row left out of the ten has no more cases than any of them. */
  lemma TopCountriesComplete(view: seq<Row>, i: int)
    requires ListedLatest(view, i)
    requires forall k :: 0 <= k < |TopCountries(view)| ==> TopCountries(view)[k].location != view[i].location
    ensures |TopCountries(view)| == 10
    ensures forall k :: 0 <= k < 10 ==> TotalCases(TopCountries(view)[k]) >= TotalCases(view[i])
  {
    var rows := LatestRows(view, Location, CountryCasesRow);
    var listed := Filter(rows, Listed);
    LatestRowsComplete(view, Location, CountryCasesRow, view[i].location, i);
    var n :| 0 <= n < |rows| && rows[n] == view[i];
    var m :| 0 <= m < |listed| && listed[m] == view[i];
    TopTenFacts(listed, MoreCasesFirst);
    assert view[i] !in TopCountries(view);
  }

  // ---------------------------------------------------------------------
  // Continental waves
  // ---------------------------------------------------------------------

  /** `continentsToShow`, in the order of the chart's series. */
  const Waves: seq<string> := ["Europe", "North America", "Asia", "South America"]

  /** Rows of the wave chart: one of the four continents shown, with truthy new cases and a date. */
  predicate InWaves(r: Row) {
    StrTruthy(r.continent) && r.continent in Waves && Truthy(r.newCases)
  }

  /** The bucket a wave row is added to: its continent and its month. */
  function WaveKey(r: Row): (string, MonthKey) {
    (r.continent, RowMonth(r))
  }

  /** Some row of the four continents with truthy `new_cases` falls in month `m`. */
  ghost predicate WaveMonth(view: seq<Row>, m: MonthKey) {
    exists i :: 0 <= i < |view| && InWaves(view[i]) && RowMonth(view[i]) == m
  }

  /** The months of the (continent, month) keys are the months of the rows behind them. */
  lemma WaveMonthsOfKeys(view: seq<Row>, m: MonthKey)
    ensures (exists t :: 0 <= t < |KeyOrder(view, WaveKey, InWaves)| && KeyOrder(view, WaveKey, InWaves)[t].1 == m)
      <==> WaveMonth(view, m)
  {
    var order := KeyOrder(view, WaveKey, InWaves);
    if WaveMonth(view, m) {
      var i :| 0 <= i < |view| && InWaves(view[i]) && RowMonth(view[i]) == m;
      KeyOrderHasKey(view, WaveKey, InWaves, i);
      var t :| 0 <= t < |order| && order[t] == WaveKey(view[i]);
    }
    if t :| 0 <= t < |order| && order[t].1 == m {
      KeyOrderKeyHasRow(view, WaveKey, InWaves, t);
    }
  }

  /** `allMonths`: the months of the (continent, month) keys, each once. */
  method UnionOfMonths(keys: seq<(string, MonthKey)>) returns (months: seq<MonthKey>)
    ensures Distinct(months)
    ensures forall m :: m in months <==> exists t :: 0 <= t < |keys| && keys[t].1 == m
  {
    months := [];
    for t := 0 to |keys|
      invariant Distinct(months)
      invariant forall m :: m in months <==> exists u :: 0 <= u < t && keys[u].1 == m
    {
      if keys[t].1 !in months {
        months := months + [keys[t].1];
      }
    }
  }

  /**
   * The continental-waves block of `updateAnalysisCharts`: per continent and
   * month the sum of `new_cases`, the sorted union of the months, and for each
   * of the four continents one value per month, 0 where it has none.
   */
  method ContinentalWaves(view: seq<Row>) returns (months: seq<MonthKey>, series: seq<seq<int>>)
    ensures forall i, j :: 0 <= i < j < |months| ==> months[i] < months[j]
    ensures forall m :: m in months <==> WaveMonth(view, m)
    ensures |series| == |Waves|
    ensures forall c :: 0 <= c < |Waves| ==> |series[c]| == |months|
    ensures forall c, j :: 0 <= c < |Waves| && 0 <= j < |months| ==>
      series[c][j] == GroupSum(view, WaveKey, InWaves, NewCases, (Waves[c], months[j]))
  {
    var sums, order := Accumulate(view, WaveKey, InWaves, NewCases);
    var allMonths := UnionOfMonths(order);
    months := SortAscending(allMonths);
    forall m ensures m in months <==> WaveMonth(view, m) {
      WaveMonthsOfKeys(view, m);
    }
    series := WaveSeries(view, sums, months);
  }

  /** The datasets: per continent, each month's bucket, a missing bucket reading 0. */
  method WaveSeries(view: seq<Row>, sums: map<(string, MonthKey), int>, months: seq<MonthKey>) returns (series: seq<seq<int>>)
    requires forall k :: k in sums <==> k in KeyOrder(view, WaveKey, InWaves)
    requires forall k :: k in sums ==> sums[k] == GroupSum(view, WaveKey, InWaves, NewCases, k)
    ensures |series| == |Waves|
    ensures forall c :: 0 <= c < |Waves| ==> |series[c]| == |months|
    ensures forall c, j :: 0 <= c < |Waves| && 0 <= j < |months| ==>
      series[c][j] == GroupSum(view, WaveKey, InWaves, NewCases, (Waves[c], months[j]))
  {
    series := seq(|Waves|, c requires 0 <= c < |Waves| =>
      seq(|months|, j requires 0 <= j < |months| =>
        if (Waves[c], months[j]) in sums then sums[(Waves[c], months[j])] else 0));
    forall c, j | 0 <= c < |Waves| && 0 <= j < |months|
      ensures series[c][j] == GroupSum(view, WaveKey, InWaves, NewCases, (Waves[c], months[j]))
    {
      WaveSeriesValue(view, sums, (Waves[c], months[j]));
    }
  }

  /** Reading a bucket with a 0 default gives its group sum, 0 for a missing bucket. */
  lemma WaveSeriesValue(view: seq<Row>, sums: map<(string, MonthKey), int>, k: (string, MonthKey))
    requires forall k :: k in sums <==> k in KeyOrder(view, WaveKey, InWaves)
    requires forall k :: k in sums ==> sums[k] == GroupSum(view, WaveKey, InWaves, NewCases, k)
    ensures (if k in sums then sums[k] else 0) == GroupSum(view, WaveKey, InWaves, NewCases, k)
  {
    if k !in sums {
      KeyOrderFacts(view, WaveKey, InWaves);
      GroupSumAbsent(view, WaveKey, InWaves, NewCases, k);
    }
  }

  // ---------------------------------------------------------------------
  // Monthly case growth
  // ---------------------------------------------------------------------

  /** The months with a truthy `new_cases`, ascending: `Object.keys(monthlyGrowth).sort()`. */
  function GrowthMonths(data: seq<Row>): seq<MonthKey> {
    SortedKeys(data, RowMonth, HasNewCases)
  }

  /** `monthlyGrowth[month].newCases` for each of those months. */
  function MonthlyTotals(data: seq<Row>): (totals: seq<int>)
    ensures |totals| == |GrowthMonths(data)|
  {
    var months := GrowthMonths(data);
    seq(|months|, i requires 0 <= i < |months| => GroupSum(data, RowMonth, HasNewCases, NewCases, months[i]))
  }

  /** The month-on-month growth in percent, read back from two decimals. */
  function GrowthRate(prev: int, cur: int): (r: real)
    requires prev > 0
    ensures -0.005 <= r - (cur - prev) as real / prev as real * 100.0 <= 0.005
  {
    Round2((cur - prev) as real / prev as real * 100.0)
  }

  /** A point of the growth chart: a month and its growth over the month before. */
  datatype GrowthPoint = GrowthPoint(month: MonthKey, rate: real)

  /** The points the `forEach` over the sorted months pushes. */
  function Growth(months: seq<MonthKey>, totals: seq<int>): seq<GrowthPoint>
    requires |months| == |totals|
  {
    if |months| < 2 then []
    else
      var n := |months|;
      Growth(months[..n - 1], totals[..n - 1])
        + (if totals[n - 2] > 0 then [GrowthPoint(months[n - 1], GrowthRate(totals[n - 2], totals[n - 1]))] else [])
  }

  /** `p` is the point of some month `i > 0` whose predecessor has a positive total. */
  ghost predicate GrowthPointOf(months: seq<MonthKey>, totals: seq<int>, p: GrowthPoint)
    requires |months| == |totals|
  {
    exists i :: 1 <= i < |months| && totals[i - 1] > 0 && p == GrowthPoint(months[i], GrowthRate(totals[i - 1], totals[i]))
  }

  /** At most one point per month after the first. */
  lemma {:induction false} GrowthLength(months: seq<MonthKey>, totals: seq<int>)
    requires |months| == |totals|
    ensures |Growth(months, totals)| <= if |months| == 0 then 0 else |months| - 1
  {
    if |months| >= 2 {
      GrowthLength(months[..|months| - 1], totals[..|totals| - 1]);
    }
  }

  /** Every point is the growth of a month over a predecessor with a positive total. */
  lemma {:induction false} GrowthSound(months: seq<MonthKey>, totals: seq<int>)
    requires |months| == |totals|
    ensures forall k :: 0 <= k < |Growth(months, totals)| ==> GrowthPointOf(months, totals, Growth(months, totals)[k])
  {
    if |months| >= 2 {
      var n := |months|;
      var pm, pt := months[..n - 1], totals[..n - 1];
      GrowthSound(pm, pt);
      var g := Growth(pm, pt);
      forall k | 0 <= k < |Growth(months, totals)| ensures GrowthPointOf(months, totals, Growth(months, totals)[k]) {
        if k < |g| {
          var i :| 1 <= i < n - 1 && pt[i - 1] > 0 && g[k] == GrowthPoint(pm[i], GrowthRate(pt[i - 1], pt[i]));
          assert pm[i] == months[i] && pt[i - 1] == totals[i - 1] && pt[i] == totals[i];
          assert Growth(months, totals)[k] == g[k];
        } else {
          assert Growth(months, totals)[k] == GrowthPoint(months[n - 1], GrowthRate(totals[n - 2], totals[n - 1]));
        }
      }
    }
  }

  /** Every month after the first whose predecessor has a positive total has its point. */
  lemma {:induction false} GrowthComplete(months: seq<MonthKey>, totals: seq<int>, i: int)
    requires |months| == |totals|
    requires 1 <= i < |months| && totals[i - 1] > 0
    ensures GrowthPoint(months[i], GrowthRate(totals[i - 1], totals[i])) in Growth(months, totals)
  {
    var n := |months|;
    var pm, pt := months[..n - 1], totals[..n - 1];
    if i < n - 1 {
      GrowthComplete(pm, pt, i);
      assert pm[i] == months[i] && pt[i - 1] == totals[i - 1] && pt[i] == totals[i];
    }
  }

  /** The chart's labels and data are the months and rates of `points`, in order. */
  predicate Plots(labels: seq<MonthKey>, rates: seq<real>, points: seq<GrowthPoint>) {
    && |labels| == |points| && |rates| == |points|
    && forall k :: 0 <= k < |points| ==> GrowthPoint(labels[k], rates[k]) == points[k]
  }

  /**
   * The `forEach` over the sorted months: from the second month on, when the
   * month before has a positive sum, push the month and its growth rate.
   */
  method GrowthLoop(months: seq<MonthKey>, sums: map<MonthKey, int>, ghost totals: seq<int>)
    returns (labels: seq<MonthKey>, rates: seq<real>)
    requires |totals| == |months|
    requires forall i :: 0 <= i < |months| ==> months[i] in sums && sums[months[i]] == totals[i]
    ensures Plots(labels, rates, Growth(months, totals))
  {
    labels, rates := [], [];
    if |months| == 0 {
      return;
    }
    var index := 1;
    while index < |months|
      invariant 1 <= index <= |months|
      invariant Plots(labels, rates, Growth(months[..index], totals[..index]))
    {
      var currentNewCases := sums[months[index]];
      var previousNewCases := sums[months[index - 1]];
      assert months[..index + 1][..index] == months[..index];
      assert totals[..index + 1][..index] == totals[..index];
      if previousNewCases > 0 {
        rates := rates + [GrowthRate(previousNewCases, currentNewCases)];
        labels := labels + [months[index]];
      }
      index := index + 1;
    }
    assert months[..index] == months && totals[..index] == totals;
  }

  /**
   * `generateTemporalEvolutionData`: monthly sums of `new_cases` over the
   * sorted months, then their growth points.
   */
  method TemporalEvolution(data: seq<Row>) returns (labels: seq<MonthKey>, rates: seq<real>)
    ensures Plots(labels, rates, Growth(GrowthMonths(data), MonthlyTotals(data)))
  {
    var sums, order := Accumulate(data, RowMonth, HasNewCases, NewCases);
    KeyOrderFacts(data, RowMonth, HasNewCases);
    var months := SortAscending(order);
    assert months == GrowthMonths(data);
    labels, rates := GrowthLoop(months, sums, MonthlyTotals(data));
  }

  // ---------------------------------------------------------------------
  // Top 10 countries by case fatality rate
  // ---------------------------------------------------------------------

  /** Rows the case fatality chart keeps: a location and truthy total cases and deaths. */
  predicate CfrRow(r: Row) {
    StrTruthy(r.location) && Truthy(r.totalCases) && Truthy(r.totalDeaths)
  }

  /** `country.total_cases > 10000 && country.total_deaths > 0` */
  predicate MeaningfulCfr(r: Row) {
    TotalCases(r) > 10000 && TotalDeaths(r) > 0
  }

  /** The case fatality rate in percent, read back from two decimals. */
  function CaseFatality(deaths: int, cases: int): (r: real)
    requires cases > 0
    ensures -0.005 <= r - deaths as real / cases as real * 100.0 <= 0.005
  {
    Round2(deaths as real / cases as real * 100.0)
  }

  /** An entry `[location, cfr]` of `Object.entries(countryCFR)`. */
  datatype Entry = Entry(name: string, value: real)

  function EntryOf(r: Row): Entry
    requires MeaningfulCfr(r)
  {
    Entry(r.location, CaseFatality(TotalDeaths(r), TotalCases(r)))
  }

  function EntriesOf(rows: seq<Row>): (es: seq<Entry>)
    requires forall k :: 0 <= k < |rows| ==> MeaningfulCfr(rows[k])
    ensures |es| == |rows|
  {
    seq(|rows|, k requires 0 <= k < |rows| => EntryOf(rows[k]))
  }

  lemma EntriesAppend(rows: seq<Row>, r: Row)
    requires forall k :: 0 <= k < |rows| ==> MeaningfulCfr(rows[k])
    requires MeaningfulCfr(r)
    ensures EntriesOf(rows + [r]) == EntriesOf(rows) + [EntryOf(r)]
  {
  }

  /** The sort key that puts the highest rate first. */
  function HigherFirst(e: Entry): real {
    -e.value
  }

  /** The CFR of every latest row with a meaningful CFR, in key order. */
  function CfrEntries(view: seq<Row>): seq<Entry> {
    EntriesOf(Filter(LatestRows(view, Location, CfrRow), MeaningfulCfr))
  }

  /** The ten entries with the highest CFR. */
  function TopCfr(view: seq<Row>): (top: seq<Entry>)
    ensures |top| <= 10
  {
    TopTen(CfrEntries(view), HigherFirst)
  }

  /** `view[i]` is the row kept for its location, and its CFR is meaningful. */
  ghost predicate CfrLatest(view: seq<Row>, i: int) {
    0 <= i < |view| && IsLatestAt(view, Location, CfrRow, view[i].location, i) && MeaningfulCfr(view[i])
  }

  /**
   * `generateGeographicalComparisonData`: the `forEach` over the latest rows
   * that records a CFR per location, then the ten highest.
   */
  method GeographicalComparison(view: seq<Row>) returns (labels: seq<string>, values: seq<real>)
    ensures |labels| == |values| == |TopCfr(view)| <= 10
    ensures forall k :: 0 <= k < |labels| ==> Entry(labels[k], values[k]) == TopCfr(view)[k]
  {
    var latest, order := CollectLatest(view, Location, CfrRow);
    LatestByKeys(view, Location, CfrRow);
    var rows := ValuesOf(latest, order);
    assert rows == LatestRows(view, Location, CfrRow);
    var entries: seq<Entry> := [];
    for i := 0 to |rows|
      invariant entries == EntriesOf(Filter(rows[..i], MeaningfulCfr))
    {
      var country := rows[i];
      assert rows[..i + 1] == rows[..i] + [country];
      FilterAppend(rows[..i], country, MeaningfulCfr);
      if MeaningfulCfr(country) {
        EntriesAppend(Filter(rows[..i], MeaningfulCfr), country);
        entries := entries + [EntryOf(country)];
      }
    }
    assert rows[..|rows|] == rows;
    var top := TopTen(entries, HigherFirst);
    labels := seq(|top|, k requires 0 <= k < |top| => top[k].name);
    values := seq(|top|, k requires 0 <= k < |top| => top[k].value);
  }

  /** One entry per location, highest CFR first. */
  lemma TopCfrOrdered(view: seq<Row>)
    ensures DistinctBy(TopCfr(view), (e: Entry) => e.name)
    ensures forall j, k :: 0 <= j < k < |TopCfr(view)| ==> TopCfr(view)[j].value >= TopCfr(view)[k].value
  {
    var rows := LatestRows(view, Location, CfrRow);
    var f := Filter(rows, MeaningfulCfr);
    LatestRowsFacts(view, Location, CfrRow);
    FilterDistinctBy(rows, MeaningfulCfr, Location);
    assert DistinctBy(CfrEntries(view), (e: Entry) => e.name);
    TopTenDistinctBy(CfrEntries(view), HigherFirst, (e: Entry) => e.name);
    TopTenFacts(CfrEntries(view), HigherFirst);
  }

  /** Each of the ten is the CFR of a latest row whose CFR is meaningful. */
  lemma TopCfrSound(view: seq<Row>)
    ensures forall k :: 0 <= k < |TopCfr(view)| ==>
      exists i :: CfrLatest(view, i) && TopCfr(view)[k] == EntryOf(view[i])
  {
    var rows := LatestRows(view, Location, CfrRow);
    var f := Filter(rows, MeaningfulCfr);
    var top := TopCfr(view);
    TopTenFacts(CfrEntries(view), HigherFirst);
    forall k | 0 <= k < |top| ensures exists i :: CfrLatest(view, i) && top[k] == EntryOf(view[i]) {
      var m :| 0 <= m < |f| && CfrEntries(view)[m] == top[k];
      assert f[m] in rows;
      LatestRowsSound(view, Location, CfrRow, f[m]);
    }
  }

  /** A location with a meaningful CFR left out of the ten has no higher CFR than any of them. */
  lemma TopCfrComplete(view: seq<Row>, i: int)
    requires CfrLatest(view, i)
    requires forall k :: 0 <= k < |TopCfr(view)| ==> TopCfr(view)[k].name != view[i].location
    ensures |TopCfr(view)| == 10
    ensures forall k :: 0 <= k < 10 ==> TopCfr(view)[k].value >= EntryOf(view[i]).value
  {
    var rows := LatestRows(view, Location, CfrRow);
    var f := Filter(rows, MeaningfulCfr);
    LatestRowsComplete(view, Location, CfrRow, view[i].location, i);
    var n :| 0 <= n < |rows| && rows[n] == view[i];
    var m :| 0 <= m < |f| && f[m] == view[i];
    assert CfrEntries(view)[m] == EntryOf(view[i]);
    TopTenFacts(CfrEntries(view), HigherFirst);
    assert EntryOf(view[i]) !in TopCfr(view);
  }

  // ---------------------------------------------------------------------
  // Case fatality by vaccination coverage
  // ---------------------------------------------------------------------

  /** Rows the vaccination bins keep: a location and a truthy vaccinated share. */
  predicate VaccinatedRow(r: Row) {
    StrTruthy(r.location) && RateTruthy(r.peopleVaccinatedPerHundred)
  }

  /** `country.people_vaccinated_per_hundred && country.total_cases > 10000 && country.total_deaths > 0` */
  predicate Binned(r: Row) {
    RateTruthy(r.peopleVaccinatedPerHundred) && TotalCases(r) > 10000 && TotalDeaths(r) > 0
  }

  function VaccinatedShare(r: Row): real {
    RateOrZero(r.peopleVaccinatedPerHundred)
  }

  const BinLabels: seq<string> := ["Under 20%", "20-40%", "40-60%", "60-80%", "Over 80%"]

  /** The bin of a vaccination rate: bin `b` covers `[20 b, 20 (b + 1))`, the first and last open-ended. */
  function BinOf(rate: real): (b: nat)
    ensures b < |BinLabels|
    ensures b == 0 || (20 * b) as real <= rate
    ensures b == 4 || rate < (20 * (b + 1)) as real
  {
    if rate < 20.0 then 0
    else if rate < 40.0 then 1
    else if rate < 60.0 then 2
    else if rate < 80.0 then 3
    else 4
  }

  /** The qualifying rows of bin `b`, in order. */
  function InBin(rows: seq<Row>, b: nat): seq<Row> {
    if rows == [] then []
    else
      var last := rows[|rows| - 1];
      InBin(rows[..|rows| - 1], b) + (if Binned(last) && BinOf(VaccinatedShare(last)) == b then [last] else [])
  }

  /** `{ deaths, cases, countries }` of one bin. */
  datatype Bin = Bin(deaths: int, cases: int, countries: nat)

  /** The reference totals of bin `b`: sums over its qualifying rows. */
  function Tally(rows: seq<Row>, b: nat): Bin {
    var members := InBin(rows, b);
    Bin(SumBy(members, TotalDeaths), SumBy(members, TotalCases), |members|)
  }

  /** A bin's case fatality rate: 0 without cases, else the percentage read back from two decimals. */
  function BinCfr(bin: Bin): (r: real)
    ensures bin.cases <= 0 ==> r == 0.0
    ensures bin.cases > 0 ==> -0.005 <= r - bin.deaths as real / bin.cases as real * 100.0 <= 0.005
  {
    if bin.cases > 0 then CaseFatality(bin.deaths, bin.cases) else 0.0
  }

  lemma InBinStep(rows: seq<Row>, r: Row, b: nat)
    ensures Binned(r) && BinOf(VaccinatedShare(r)) == b ==> InBin(rows + [r], b) == InBin(rows, b) + [r]
    ensures !(Binned(r) && BinOf(VaccinatedShare(r)) == b) ==> InBin(rows + [r], b) == InBin(rows, b)
  {
    assert (rows + [r])[..|rows|] == rows;
    assert InBin(rows, b) + [] == InBin(rows, b);
  }

  lemma TallyStep(rows: seq<Row>, r: Row, b: nat)
    ensures Tally(rows + [r], b) ==
      if Binned(r) && BinOf(VaccinatedShare(r)) == b then
        Bin(Tally(rows, b).deaths + TotalDeaths(r), Tally(rows, b).cases + TotalCases(r), Tally(rows, b).countries + 1)
      else Tally(rows, b)
  {
    InBinStep(rows, r, b);
    SumByAppend(InBin(rows, b), r, TotalDeaths);
    SumByAppend(InBin(rows, b), r, TotalCases);
  }

  /** The bins of the latest row per vaccinated location. */
  function VaccinationBins(view: seq<Row>): (bins: seq<Bin>)
    ensures |bins| == |BinLabels|
  {
    var rows := LatestRows(view, Location, VaccinatedRow);
    seq(5, b requires 0 <= b < 5 => Tally(rows, b))
  }

  /**
   * `generatePolicyImpactData`: the latest row per location with a
   * vaccination rate, its deaths, cases and one country added into the bin of
   * its rate when it qualifies, then the CFR of each bin.
   */
  method PolicyImpact(view: seq<Row>) returns (labels: seq<string>, bins: seq<Bin>, cfr: seq<real>)
    ensures labels == BinLabels
    ensures bins == VaccinationBins(view)
    ensures |cfr| == |bins| && forall b :: 0 <= b < |bins| ==> cfr[b] == BinCfr(bins[b])
  {
    var latest, order := CollectLatest(view, Location, VaccinatedRow);
    LatestByKeys(view, Location, VaccinatedRow);
    var rows := ValuesOf(latest, order);
    assert rows == LatestRows(view, Location, VaccinatedRow);
    bins := [Bin(0, 0, 0), Bin(0, 0, 0), Bin(0, 0, 0), Bin(0, 0, 0), Bin(0, 0, 0)];
    for i := 0 to |rows|
      invariant |bins| == 5
      invariant forall b :: 0 <= b < 5 ==> bins[b] == Tally(rows[..i], b)
    {
      var country := rows[i];
      assert rows[..i + 1] == rows[..i] + [country];
      if Binned(country) {
        var bin := BinOf(VaccinatedShare(country));
        bins := bins[bin := Bin(bins[bin].deaths + TotalDeaths(country), bins[bin].cases + TotalCases(country), bins[bin].countries + 1)];
      }
      forall b | 0 <= b < 5 ensures bins[b] == Tally(rows[..i + 1], b) {
        TallyStep(rows[..i], country, b);
      }
    }
    assert rows[..|rows|] == rows;
    labels := BinLabels;
    cfr := seq(5, b requires 0 <= b < 5 => BinCfr(bins[b]));
  }

  lemma BinSumStep(rows: seq<Row>, r: Row, b: nat, f: Row -> int)
    ensures SumBy(InBin(rows + [r], b), f) == SumBy(InBin(rows, b), f) + (if Binned(r) && BinOf(VaccinatedShare(r)) == b then f(r) else 0)
  {
    InBinStep(rows, r, b);
    SumByAppend(InBin(rows, b), r, f);
  }

  /** Every qualifying row adds its metric to exactly one bin. */
  lemma {:induction false} BinSumsPartition(rows: seq<Row>, f: Row -> int)
    ensures SumBy(InBin(rows, 0), f) + SumBy(InBin(rows, 1), f) + SumBy(InBin(rows, 2), f)
      + SumBy(InBin(rows, 3), f) + SumBy(InBin(rows, 4), f) == SumBy(Filter(rows, Binned), f)
  {
    if rows != [] {
      var p := rows[..|rows| - 1];
      var r := rows[|rows| - 1];
      assert rows == p + [r];
      BinSumsPartition(p, f);
      FilterAppend(p, r, Binned);
      SumByAppend(Filter(p, Binned), r, f);
      BinSumStep(p, r, 0, f);
      BinSumStep(p, r, 1, f);
      BinSumStep(p, r, 2, f);
      BinSumStep(p, r, 3, f);
      BinSumStep(p, r, 4, f);
    }
  }

  /** Every qualifying row is counted in exactly one bin. */
  lemma {:induction false} BinCountsPartition(rows: seq<Row>)
    ensures |InBin(rows, 0)| + |InBin(rows, 1)| + |InBin(rows, 2)| + |InBin(rows, 3)| + |InBin(rows, 4)|
      == |Filter(rows, Binned)|
  {
    if rows != [] {
      var p := rows[..|rows| - 1];
      var r := rows[|rows| - 1];
      assert rows == p + [r];
      BinCountsPartition(p);
      FilterAppend(p, r, Binned);
      forall b | 0 <= b < 5
        ensures |InBin(rows, b)| == |InBin(p, b)| + (if Binned(r) && BinOf(VaccinatedShare(r)) == b then 1 else 0)
      {
        InBinStep(p, r, b);
      }
    }
  }

  /**
   * The bins split the qualifying rows: their country counts add up to the
   * number of qualifying rows, and their deaths and cases to the totals.
   */
  lemma BinsPartition(rows: seq<Row>)
    ensures Tally(rows, 0).countries + Tally(rows, 1).countries + Tally(rows, 2).countries
      + Tally(rows, 3).countries + Tally(rows, 4).countries == |Filter(rows, Binned)|
    ensures Tally(rows, 0).deaths + Tally(rows, 1).deaths + Tally(rows, 2).deaths
      + Tally(rows, 3).deaths + Tally(rows, 4).deaths == SumBy(Filter(rows, Binned), TotalDeaths)
    ensures Tally(rows, 0).cases + Tally(rows, 1).cases + Tally(rows, 2).cases
      + Tally(rows, 3).cases + Tally(rows, 4).cases == SumBy(Filter(rows, Binned), TotalCases)
  {
    BinCountsPartition(rows);
    BinSumsPartition(rows, TotalDeaths);
    BinSumsPartition(rows, TotalCases);
  }

  /** The country counts of the five bins add up to the number of qualifying locations. */
  lemma BinCountsAddUp(view: seq<Row>)
    ensures var bins := VaccinationBins(view);
      bins[0].countries + bins[1].countries + bins[2].countries + bins[3].countries + bins[4].countries
      == |Filter(LatestRows(view, Location, VaccinatedRow), Binned)|
  {
    BinsPartition(LatestRows(view, Location, VaccinatedRow));
  }

  // ---------------------------------------------------------------------
  // Tests against cases
  // ---------------------------------------------------------------------

  /** Rows the scatter plot keeps: a location, truthy tests per thousand and truthy cases per million. */
  predicate ReportsTests(r: Row) {
    StrTruthy(r.location) && RateTruthy(r.totalTestsPerThousand) && RateTruthy(r.totalCasesPerMillion)
  }

  /** `country.total_tests_per_thousand > 0 && country.total_cases_per_million > 0` */
  predicate BothPositive(r: Row) {
    RateOrZero(r.totalTestsPerThousand) > 0.0 && RateOrZero(r.totalCasesPerMillion) > 0.0
  }

  /** A scatter point `{ x, y, label }`. */
  datatype Point = Point(x: real, y: real, name: string)

  function PointOf(r: Row): Point {
    Point(RateOrZero(r.totalTestsPerThousand), RateOrZero(r.totalCasesPerMillion), r.location)
  }

  function PointsOf(rows: seq<Row>): (ps: seq<Point>)
    ensures |ps| == |rows|
  {
    seq(|rows|, k requires 0 <= k < |rows| => PointOf(rows[k]))
  }

  lemma PointsAppend(rows: seq<Row>, r: Row)
    ensures PointsOf(rows + [r]) == PointsOf(rows) + [PointOf(r)]
  {
  }

  function ScatterPoints(view: seq<Row>): seq<Point> {
    PointsOf(Filter(LatestRows(view, Location, ReportsTests), BothPositive))
  }

  /** `view[i]` is the row kept for its location, and both its coordinates are positive. */
  ghost predicate PlottedLatest(view: seq<Row>, i: int) {
    0 <= i < |view| && IsLatestAt(view, Location, ReportsTests, view[i].location, i) && BothPositive(view[i])
  }

  /** `generateContextualFactorsData`: the `forEach` over the latest rows that pushes a point. */
  method ContextualFactors(view: seq<Row>) returns (points: seq<Point>)
    ensures points == ScatterPoints(view)
  {
    var latest, order := CollectLatest(view, Location, ReportsTests);
    LatestByKeys(view, Location, ReportsTests);
    var rows := ValuesOf(latest, order);
    assert rows == LatestRows(view, Location, ReportsTests);
    points := [];
    for i := 0 to |rows|
      invariant points == PointsOf(Filter(rows[..i], BothPositive))
    {
      var country := rows[i];
      assert rows[..i + 1] == rows[..i] + [country];
      FilterAppend(rows[..i], country, BothPositive);
      if BothPositive(country) {
        PointsAppend(Filter(rows[..i], BothPositive), country);
        points := points + [PointOf(country)];
      }
    }
    assert rows[..|rows|] == rows;
  }

  /** One point per location. */
  lemma ScatterDistinct(view: seq<Row>)
    ensures forall j, k :: 0 <= j < k < |ScatterPoints(view)| ==> ScatterPoints(view)[j].name != ScatterPoints(view)[k].name
  {
    var rows := LatestRows(view, Location, ReportsTests);
    LatestRowsFacts(view, Location, ReportsTests);
    FilterDistinctBy(rows, BothPositive, Location);
  }

  /** `p` is the point of a latest row with both coordinates positive. */
  ghost predicate PlottedPoint(view: seq<Row>, p: Point) {
    exists i :: PlottedLatest(view, i) && p == PointOf(view[i])
  }

  /** Each point is placed at the coordinates of a latest row with both positive. */
  lemma ScatterSound(view: seq<Row>)
    ensures forall k :: 0 <= k < |ScatterPoints(view)| ==> PlottedPoint(view, ScatterPoints(view)[k])
  {
    var rows := LatestRows(view, Location, ReportsTests);
    var f := Filter(rows, BothPositive);
    forall k | 0 <= k < |ScatterPoints(view)| ensures PlottedPoint(view, ScatterPoints(view)[k]) {
      assert f[k] in rows && BothPositive(f[k]);
      LatestRowsSound(view, Location, ReportsTests, f[k]);
      var i :| IsLatestAt(view, Location, ReportsTests, Location(f[k]), i) && f[k] == view[i];
      assert PlottedLatest(view, i);
    }
  }

  /** Every location whose latest row has both coordinates positive gets its point. */
  lemma ScatterComplete(view: seq<Row>, i: int)
    requires PlottedLatest(view, i)
    ensures PointOf(view[i]) in ScatterPoints(view)
  {
    var rows := LatestRows(view, Location, ReportsTests);
    var f := Filter(rows, BothPositive);
    LatestRowsComplete(view, Location, ReportsTests, view[i].location, i);
    var n :| 0 <= n < |rows| && rows[n] == view[i];
    var m :| 0 <= m < |f| && f[m] == view[i];
    assert ScatterPoints(view)[m] == PointOf(view[i]);
  }
}
