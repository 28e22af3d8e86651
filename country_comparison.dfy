/**
 * The country panel (js/country-comparison.js): the dropdown of countries,
 * the statistics card of the selected country and its sampled timeline, all
 * computed from the filtered view.
 */
module CountryComparison {
  import opened Wrappers
  import opened JsNumbers
  import opened Observations
  import opened Sequences
  import opened Strings
  import opened Keyed
  import opened Sampling

  // ---------------------------------------------------------------------------
  // The dropdown (`initCountrySelection`)
  // ---------------------------------------------------------------------------

  /** A row that offers its location: location, ISO code and continent are all set. */
  predicate Selectable(r: Row) {
    StrTruthy(r.location) && StrTruthy(r.isoCode) && StrTruthy(r.continent)
  }

  /** One dropdown entry `{name, iso}`: the option shows the name and selects the code. */
  datatype Choice = Choice(name: string, iso: string)

  function ChoiceOf(r: Row): Choice { Choice(r.location, r.isoCode) }

  function ChoiceName(c: Choice): string { c.name }

  /**
   * `Object.values(countries)`: one entry per location, built from the first
   * selectable row of that location, in the order the locations first occur.
   */
  function FirstChoices(view: seq<Row>): (r: seq<Choice>)
    ensures |r| == |KeyOrder(view, Location, Selectable)|
  {
    var first := FirstBy(view, Location, Selectable);
    var order := KeyOrder(view, Location, Selectable);
    FirstByKeys(view, Location, Selectable);
    seq(|order|, n requires 0 <= n < |order| => ChoiceOf(first[order[n]]))
  }

  /** The dropdown's entries, sorted by name. */
  function Choices(view: seq<Row>): seq<Choice> {
    SortByName(FirstChoices(view), ChoiceName)
  }

  /** The loop that fills the `countries` dictionary, then the sort. */
  method InitCountrySelection(view: seq<Row>) returns (choices: seq<Choice>)
    ensures choices == Choices(view)
  {
    var countries: map<string, Choice> := map[];
    var order: seq<string> := [];
    for i := 0 to |view|
      invariant order == KeyOrder(view[..i], Location, Selectable)
      invariant forall k :: k in countries <==> k in order
      invariant forall k :: k in countries <==> k in FirstBy(view[..i], Location, Selectable)
      invariant forall k :: k in countries ==> countries[k] == ChoiceOf(FirstBy(view[..i], Location, Selectable)[k])
    {
      assert view[..i + 1][..i] == view[..i];
      FirstByKeys(view[..i], Location, Selectable);
      var row := view[i];
      if row.location != "" && row.isoCode != "" && row.location !in countries && row.continent != "" {
        countries := countries[row.location := Choice(row.location, row.isoCode)];
        order := order + [row.location];
      }
    }
    assert view[..|view|] == view;
    var values := seq(|order|, n requires 0 <= n < |order| => countries[order[n]]);
    assert values == FirstChoices(view);
    choices := SortByName(values, ChoiceName);
  }

  /** The entry at position `n` of the unsorted entries names the location at position `n`. */
  lemma FirstChoiceAt(view: seq<Row>, n: nat)
    requires n < |FirstChoices(view)|
    ensures FirstChoices(view)[n].name == KeyOrder(view, Location, Selectable)[n]
    ensures exists i :: IsFirstAt(view, Location, Selectable, FirstChoices(view)[n].name, i) && FirstChoices(view)[n] == ChoiceOf(view[i])
  {
    var order := KeyOrder(view, Location, Selectable);
    FirstByKeys(view, Location, Selectable);
    assert order[n] in order;
    FirstBySelects(view, Location, Selectable, order[n]);
  }

  /** Every entry comes from the first selectable row of its location. */
  lemma ChoicesSound(view: seq<Row>, c: Choice)
    requires c in Choices(view)
    ensures exists i :: IsFirstAt(view, Location, Selectable, c.name, i) && c == ChoiceOf(view[i])
  {
    SortByNameFacts(FirstChoices(view), ChoiceName);
    assert c in multiset(Choices(view));
    var n :| 0 <= n < |FirstChoices(view)| && FirstChoices(view)[n] == c;
    FirstChoiceAt(view, n);
  }

  /** The first selectable row of every location gives an entry. */
  lemma ChoicesComplete(view: seq<Row>, k: string, i: int)
    requires IsFirstAt(view, Location, Selectable, k, i)
    ensures ChoiceOf(view[i]) in Choices(view)
  {
    var order := KeyOrder(view, Location, Selectable);
    FirstByAt(view, Location, Selectable, k, i);
    FirstByKeys(view, Location, Selectable);
    var n :| 0 <= n < |order| && order[n] == k;
    assert FirstChoices(view)[n] == ChoiceOf(view[i]);
    SortByNameFacts(FirstChoices(view), ChoiceName);
    assert ChoiceOf(view[i]) in multiset(FirstChoices(view));
  }

  /** Every location of a selectable row is offered. */
  lemma ChoicesCover(view: seq<Row>, i: int)
    requires 0 <= i < |view| && Selectable(view[i])
    ensures exists c :: c in Choices(view) && c.name == view[i].location
  {
    var k := view[i].location;
    KeyOrderHasKey(view, Location, Selectable, i);
    FirstByKeys(view, Location, Selectable);
    FirstBySelects(view, Location, Selectable, k);
    var j :| IsFirstAt(view, Location, Selectable, k, j) && FirstBy(view, Location, Selectable)[k] == view[j];
    ChoicesComplete(view, k, j);
  }

  /** The entries are in strictly ascending order of name: each location is offered once. */
  lemma ChoicesSorted(view: seq<Row>)
    ensures forall a, b :: 0 <= a < b < |Choices(view)| ==> Less(Choices(view)[a].name, Choices(view)[b].name)
  {
    var u := FirstChoices(view);
    var t := Choices(view);
    KeyOrderFacts(view, Location, Selectable);
    forall a, b | 0 <= a < b < |u| ensures ChoiceName(u[a]) != ChoiceName(u[b]) {
      FirstChoiceAt(view, a);
      FirstChoiceAt(view, b);
    }
    SortByNameFacts(u, ChoiceName);
    PermutationDistinctBy(u, t, ChoiceName);
    forall a, b | 0 <= a < b < |t| ensures Less(t[a].name, t[b].name) {
      assert !Less(ChoiceName(t[b]), ChoiceName(t[a]));
      LessTotal(t[a].name, t[b].name);
    }
  }

  // ---------------------------------------------------------------------------
  // The statistics card (`updateCountryData`)
  // ---------------------------------------------------------------------------

  /** The rows of the selected ISO code. */
  function HasIso(iso: string): Row -> bool {
    (r: Row) => r.isoCode == iso
  }

  /** The card: hidden, or shown with its figures, each `None` where it reads "N/A". */
  datatype Card =
    | Hidden
    | Shown(name: string, totalCases: Option<int>, totalDeaths: Option<int>, fullyVaccinated: Option<int>,
            cfr: Option<real>, vacRate: Option<real>)

  /** `formatNumber`: a truthy count is shown (rounding a whole count changes nothing), any other reads "N/A". */
  function FormatCount(c: Count): (r: Option<int>)
    ensures r.Some? <==> Truthy(c)
    ensures r.Some? ==> r.value == c.value && r.value != 0
  {
    if Truthy(c) then Some(c.value) else None
  }

  /** The card's case fatality rate: shown, to two decimals, only when both totals are truthy. */
  function CardCfr(r: Row): (cfr: Option<real>)
    ensures cfr.Some? <==> Truthy(r.totalCases) && Truthy(r.totalDeaths)
    ensures cfr.Some? ==>
      -0.005 <= cfr.value - r.totalDeaths.value as real / r.totalCases.value as real * 100.0 <= 0.005
  {
    if Truthy(r.totalCases) && Truthy(r.totalDeaths) then
      Some(Round2(r.totalDeaths.value as real / r.totalCases.value as real * 100.0))
    else None
  }

  /** The card's vaccination rate: the fully-vaccinated share to two decimals, when truthy. */
  function CardVacRate(r: Row): (rate: Option<real>)
    ensures rate.Some? <==> RateTruthy(r.peopleFullyVaccinatedPerHundred)
    ensures rate.Some? ==> -0.005 <= rate.value - r.peopleFullyVaccinatedPerHundred.value <= 0.005
  {
    if RateTruthy(r.peopleFullyVaccinatedPerHundred) then Some(Round2(r.peopleFullyVaccinatedPerHundred.value)) else None
  }

  /** The card shown for a row. */
  function CardOf(r: Row): (c: Card)
    ensures c.Shown? && c.name == r.location
    ensures c.totalCases.Some? <==> Truthy(r.totalCases)
    ensures c.totalDeaths.Some? <==> Truthy(r.totalDeaths)
    ensures c.fullyVaccinated.Some? <==> Truthy(r.peopleFullyVaccinated)
    ensures c.totalCases.Some? ==> c.totalCases.value == r.totalCases.value
    ensures c.totalDeaths.Some? ==> c.totalDeaths.value == r.totalDeaths.value
    ensures c.fullyVaccinated.Some? ==> c.fullyVaccinated.value == r.peopleFullyVaccinated.value
    ensures c.cfr.Some? <==> c.totalCases.Some? && c.totalDeaths.Some?
    ensures c.cfr.Some? ==>
      -0.005 <= c.cfr.value - r.totalDeaths.value as real / r.totalCases.value as real * 100.0 <= 0.005
    ensures c.vacRate.Some? <==> RateTruthy(r.peopleFullyVaccinatedPerHundred)
    ensures c.vacRate.Some? ==> -0.005 <= c.vacRate.value - r.peopleFullyVaccinatedPerHundred.value <= 0.005
  {
    Shown(r.location, FormatCount(r.totalCases), FormatCount(r.totalDeaths), FormatCount(r.peopleFullyVaccinated),
          CardCfr(r), CardVacRate(r))
  }

  /**
   * The card for the selected code: hidden when nothing is selected or no row
   * has the code, otherwise built from the latest row with the code (the
   * first of them on a tie).
   */
  method UpdateCountryData(view: seq<Row>, selectedIso: string) returns (card: Card)
    ensures selectedIso == "" ==> card == Hidden
    ensures card == Hidden && selectedIso != "" ==> forall i :: 0 <= i < |view| ==> view[i].isoCode != selectedIso
    ensures card != Hidden ==>
      selectedIso != "" && exists i :: IsLatestAt(view, IsoCode, HasIso(selectedIso), selectedIso, i) && card == CardOf(view[i])
  {
    if selectedIso == "" {
      return Hidden;
    }
    var countryData: Option<Row> := None;
    for i := 0 to |view|
      invariant countryData.None? <==> selectedIso !in LatestBy(view[..i], IsoCode, HasIso(selectedIso))
      invariant countryData.Some? ==> countryData.value == LatestBy(view[..i], IsoCode, HasIso(selectedIso))[selectedIso]
    {
      assert view[..i + 1][..i] == view[..i];
      var row := view[i];
      if row.isoCode == selectedIso {
        if countryData.None? || row.date > countryData.value.date {
          countryData := Some(row);
        }
      }
    }
    assert view[..|view|] == view;
    LatestByKeys(view, IsoCode, HasIso(selectedIso));
    KeyOrderFacts(view, IsoCode, HasIso(selectedIso));
    if countryData.None? {
      return Hidden;
    }
    LatestBySelects(view, IsoCode, HasIso(selectedIso), selectedIso);
    card := CardOf(countryData.value);
  }

  // ---------------------------------------------------------------------------
  // The timeline (`updateCountryTimeline`)
  // ---------------------------------------------------------------------------

  /** The timeline's sort key: the row's date. */
  function DayKey(r: Row): real { r.date as real }

  /** The selected country's rows in date order (a stable sort of the filtered view). */
  function CountryRows(view: seq<Row>, iso: string): seq<Row> {
    SortBy(Filter(view, HasIso(iso)), DayKey)
  }

  /** The country's rows are in ascending date order. */
  lemma CountryRowsSorted(view: seq<Row>, iso: string)
    ensures SortedBy(CountryRows(view, iso), DayKey)
  {
    SortByFacts(Filter(view, HasIso(iso)), DayKey);
  }

  /**
   * The country's rows are exactly the view's rows with the code, in
   * ascending date order, rows of one date keeping their order in the view.
   */
  lemma CountryRowsFacts(view: seq<Row>, iso: string)
    ensures SortedBy(CountryRows(view, iso), DayKey)
    ensures forall k :: 0 <= k < |CountryRows(view, iso)| ==> CountryRows(view, iso)[k] in view && CountryRows(view, iso)[k].isoCode == iso
    ensures forall i :: 0 <= i < |view| && view[i].isoCode == iso ==> view[i] in CountryRows(view, iso)
    ensures forall d :: WithKey(CountryRows(view, iso), DayKey, d) == WithKey(Filter(view, HasIso(iso)), DayKey, d)
  {
    var f := Filter(view, HasIso(iso));
    var t := CountryRows(view, iso);
    SortByFacts(f, DayKey);
    forall k | 0 <= k < |t| ensures t[k] in view && t[k].isoCode == iso {
      assert t[k] in multiset(f);
      var j :| 0 <= j < |f| && f[j] == t[k];
      assert HasIso(iso)(f[j]);
    }
    forall i | 0 <= i < |view| && view[i].isoCode == iso ensures view[i] in t {
      assert HasIso(iso)(view[i]);
      assert view[i] in f;
      assert view[i] in multiset(t);
    }
  }

  /** The `k`-th plotted row. */
  function SampledRow(view: seq<Row>, iso: string, k: nat): Row
    requires k < SampleCount(|CountryRows(view, iso)|)
  {
    CountryRows(view, iso)[SampleAt(|CountryRows(view, iso)|, k)]
  }

  /**
   * The timeline: every `s`-th row of the country's rows from the first on,
   * labelled by month, with its new cases and new deaths (`|| 0`).
   */
  method UpdateCountryTimeline(view: seq<Row>, iso: string) returns (labels: seq<MonthKey>, newCases: seq<int>, newDeaths: seq<int>)
    ensures |labels| == |newCases| == |newDeaths| == SampleCount(|CountryRows(view, iso)|)
    ensures forall k :: 0 <= k < |labels| ==>
      && labels[k] == RowMonth(SampledRow(view, iso, k))
      && newCases[k] == NewCases(SampledRow(view, iso, k))
      && newDeaths[k] == NewDeaths(SampledRow(view, iso, k))
    ensures |CountryRows(view, iso)| > 0 ==> |labels| > 0 && labels[0] == RowMonth(CountryRows(view, iso)[0])
  {
    var sorted := SortBy(Filter(view, HasIso(iso)), DayKey);
    var kept := StrideSample(sorted);
    labels := seq(|kept|, k requires 0 <= k < |kept| => RowMonth(kept[k]));
    newCases := seq(|kept|, k requires 0 <= k < |kept| => NewCases(kept[k]));
    newDeaths := seq(|kept|, k requires 0 <= k < |kept| => NewDeaths(kept[k]));
  }

  /** The plotted rows are in date order. */
  lemma TimelineInDateOrder(view: seq<Row>, iso: string, k: nat, l: nat)
    requires k <= l < SampleCount(|CountryRows(view, iso)|)
    ensures SampledRow(view, iso, k).date <= SampledRow(view, iso, l).date
  {
    var t := CountryRows(view, iso);
    SampleAtMonotone(|t|, k, l);
    var a := SampleAt(|t|, k);
    var b := SampleAt(|t|, l);
    CountryRowsSorted(view, iso);
    assert a == b || DayKey(t[a]) <= DayKey(t[b]);
  }

  /** The first plotted row is the country's earliest: no row with the code has an earlier date. */
  lemma TimelineStartsEarliest(view: seq<Row>, iso: string, r: Row)
    requires r in view && r.isoCode == iso
    ensures |CountryRows(view, iso)| > 0 && CountryRows(view, iso)[0].date <= r.date
  {
    var t := CountryRows(view, iso);
    CountryRowsFacts(view, iso);
    var i :| 0 <= i < |view| && view[i] == r;
    assert r in t;
    var j :| 0 <= j < |t| && t[j] == r;
    assert j == 0 || DayKey(t[0]) <= DayKey(t[j]);
  }
}
