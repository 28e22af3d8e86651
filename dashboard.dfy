/**
 * The dashboard's module-level state (js/main.js): the loaded dataset, the
 * filtered view every panel is drawn from, the continent and country lists
 * of the filter dropdowns, the dataset's date range, and the filter controls
 * the view is computed from.
 */
module Dashboard {
  import opened Wrappers
  import opened JsNumbers
  import opened Observations
  import opened Sequences
  import opened Strings
  import opened Keyed
  import opened Statistics

  /** The value of the "All Continents" / "All Countries" options. */
  const All: string := "all"

  // ---------------------------------------------------------------------
  // Dataset index
  // ---------------------------------------------------------------------

  predicate HasContinent(r: Row) { StrTruthy(r.continent) }

  predicate HasLocation(r: Row) { StrTruthy(r.location) }

  /** `Array.from(continentSet).sort()` */
  function Continents(data: seq<Row>): seq<string> {
    SortStrings(KeyOrder(data, Continent, HasContinent))
  }

  /** `Array.from(countrySet).sort()` */
  function Countries(data: seq<Row>): seq<string> {
    SortStrings(KeyOrder(data, Location, HasLocation))
  }

  /** The sorted distinct values of a column: ascending, without repeats, exactly the values present. */
  lemma SortedKeysFacts(data: seq<Row>, key: Row -> string, eligible: Row -> bool)
    ensures StrictlyAscending(SortStrings(KeyOrder(data, key, eligible)))
    ensures forall x :: x in SortStrings(KeyOrder(data, key, eligible)) <==> Present(data, key, eligible, x)
  {
    KeyOrderFacts(data, key, eligible);
    SortStringsFacts(KeyOrder(data, key, eligible));
  }

  /** The continent list holds each non-empty continent of the dataset once, in ascending order. */
  lemma ContinentsFacts(data: seq<Row>)
    ensures StrictlyAscending(Continents(data))
    ensures forall c :: c in Continents(data) <==> c != "" && exists i :: 0 <= i < |data| && data[i].continent == c
  {
    SortedKeysFacts(data, Continent, HasContinent);
    forall c ensures c in Continents(data) <==> c != "" && exists i :: 0 <= i < |data| && data[i].continent == c {
      assert Present(data, Continent, HasContinent, c) <==>
        exists i :: 0 <= i < |data| && HasContinent(data[i]) && Continent(data[i]) == c;
    }
  }

  /** The country list holds each non-empty location of the dataset once, in ascending order. */
  lemma CountriesFacts(data: seq<Row>)
    ensures StrictlyAscending(Countries(data))
    ensures forall c :: c in Countries(data) <==> c != "" && exists i :: 0 <= i < |data| && data[i].location == c
  {
    SortedKeysFacts(data, Location, HasLocation);
    forall c ensures c in Countries(data) <==> c != "" && exists i :: 0 <= i < |data| && data[i].location == c {
      assert Present(data, Location, HasLocation, c) <==>
        exists i :: 0 <= i < |data| && HasLocation(data[i]) && Location(data[i]) == c;
    }
  }

  /**
   * The `forEach` of `processData` that adds every truthy continent and
   * location to a `Set` (kept here in insertion order).
   */
  method CollectColumns(data: seq<Row>) returns (continentSet: seq<string>, countrySet: seq<string>)
    ensures continentSet == KeyOrder(data, Continent, HasContinent)
    ensures countrySet == KeyOrder(data, Location, HasLocation)
  {
    continentSet, countrySet := [], [];
    for i := 0 to |data|
      invariant continentSet == KeyOrder(data[..i], Continent, HasContinent)
      invariant countrySet == KeyOrder(data[..i], Location, HasLocation)
    {
      assert data[..i + 1][..i] == data[..i];
      var row := data[i];
      if StrTruthy(row.continent) && row.continent !in continentSet {
        continentSet := continentSet + [row.continent];
      }
      if StrTruthy(row.location) && row.location !in countrySet {
        countrySet := countrySet + [row.location];
      }
    }
    assert data[..|data|] == data;
  }

  /** The smallest date of the rows, if there are any. */
  function FirstDate(rows: seq<Row>): (r: Option<int>)
    ensures r.None? <==> rows == []
    ensures r.Some? ==> forall i :: 0 <= i < |rows| ==> r.value <= rows[i].date
    ensures r.Some? ==> exists i :: 0 <= i < |rows| && rows[i].date == r.value
  {
    if rows == [] then None
    else
      var d := rows[|rows| - 1].date;
      match FirstDate(rows[..|rows| - 1])
      case None => Some(d)
      case Some(e) => Some(if d < e then d else e)
  }

  /**
   * `startDate` and `endDate`: undefined before the data is loaded, and an
   * invalid date (`Math.min()` of nothing) for an empty dataset.
   */
  datatype DateValue = Undefined | InvalidDate | Day(day: int)

  function DateValueOf(d: Option<int>): DateValue {
    if d.Some? then Day(d.value) else InvalidDate
  }

  /** A date input set `days` after a date; an invalid date leaves the input empty. */
  function ShiftedInput(d: DateValue, days: int): Option<int> {
    if d.Day? then Some(d.day + days) else None
  }

  /** The days of the filter's lead-in after the first date. */
  const LeadInDays: int := 60

  // ---------------------------------------------------------------------
  // Country options
  // ---------------------------------------------------------------------

  function OfContinent(continent: string): Row -> bool {
    (r: Row) => r.continent == continent
  }

  /**
   * `updateCountryOptions`: every country for "all", otherwise the sorted
   * distinct locations of the rows of that continent.
   */
  function CountryOptions(data: seq<Row>, countries: seq<string>, continent: string): seq<string> {
    if continent == All then countries
    else SortStrings(KeyOrder(data, Location, OfContinent(continent)))
  }

  /** For one continent, the options are its locations, ascending, once each. */
  lemma CountryOptionsFacts(data: seq<Row>, countries: seq<string>, continent: string)
    requires continent != All
    ensures StrictlyAscending(CountryOptions(data, countries, continent))
    ensures forall c :: c in CountryOptions(data, countries, continent) <==>
      exists i :: 0 <= i < |data| && data[i].continent == continent && data[i].location == c
  {
    SortedKeysFacts(data, Location, OfContinent(continent));
    forall c ensures c in CountryOptions(data, countries, continent) <==>
      exists i :: 0 <= i < |data| && data[i].continent == continent && data[i].location == c
    {
      assert Present(data, Location, OfContinent(continent), c) <==>
        exists i :: 0 <= i < |data| && OfContinent(continent)(data[i]) && Location(data[i]) == c;
    }
  }

  // ---------------------------------------------------------------------
  // Filter evaluation
  // ---------------------------------------------------------------------

  /**
   * `valueAsDate` of a date input: null when the input is empty, and a
   * comparison with null compares with 0, the epoch.
   */
  function DateBound(input: Option<int>): int {
    input.GetOr(0)
  }

  /** The test of `applyFilters`: continent, country, and the inclusive date range. */
  predicate Keeps(r: Row, continent: string, country: string, start: int, end: int) {
    && (continent == All || r.continent == continent)
    && (country == All || r.location == country)
    && start <= r.date <= end
  }

  /** `covidData.filter(...)` */
  function FilterRows(data: seq<Row>, continent: string, country: string, start: int, end: int): (r: seq<Row>)
    ensures |r| <= |data|
    ensures forall x :: x in r <==> x in data && Keeps(x, continent, country, start, end)
  {
    if data == [] then []
    else
      var last := data[|data| - 1];
      assert data == data[..|data| - 1] + [last];
      FilterRows(data[..|data| - 1], continent, country, start, end)
        + (if Keeps(last, continent, country, start, end) then [last] else [])
  }

  /** Filtering keeps the input order: it distributes over concatenation. */
  lemma {:induction false} FilterRowsAppend(a: seq<Row>, b: seq<Row>, continent: string, country: string, start: int, end: int)
    ensures FilterRows(a + b, continent, country, start, end)
      == FilterRows(a, continent, country, start, end) + FilterRows(b, continent, country, start, end)
  {
    if b != [] {
      var b' := b[..|b| - 1];
      assert (a + b)[..|a + b| - 1] == a + b';
      FilterRowsAppend(a, b', continent, country, start, end);
    } else {
      assert a + b == a;
    }
  }

  /** A filter every row passes gives back the whole dataset. */
  lemma {:induction false} FilterRowsKeepsAll(data: seq<Row>, continent: string, country: string, start: int, end: int)
    requires forall i :: 0 <= i < |data| ==> Keeps(data[i], continent, country, start, end)
    ensures FilterRows(data, continent, country, start, end) == data
  {
    if data != [] {
      var p := data[..|data| - 1];
      var last := data[|data| - 1];
      forall i | 0 <= i < |p| ensures Keeps(p[i], continent, country, start, end) {
        assert p[i] == data[i];
      }
      FilterRowsKeepsAll(p, continent, country, start, end);
      assert Keeps(last, continent, country, start, end);
      assert data == p + [last];
    }
  }

  /**
   * A country outside the chosen continent gives an empty view: the two
   * dropdowns are combined with "and".
   */
  lemma {:induction false} FilterRowsMismatch(data: seq<Row>, continent: string, country: string, start: int, end: int)
    requires continent != All && country != All
    requires forall i :: 0 <= i < |data| && data[i].location == country ==> data[i].continent != continent
    ensures FilterRows(data, continent, country, start, end) == []
  {
    if data != [] {
      FilterRowsMismatch(data[..|data| - 1], continent, country, start, end);
    }
  }

  /**
   * Resetting shows the whole dataset although the start input is set 60
   * days after the first date: applying the reset controls right away would
   * drop the rows of those first days.
   */
  lemma ResetViewIsNotTheResetFilter(data: seq<Row>)
    requires data != []
    ensures var start := FirstDate(data).value + LeadInDays;
      var end := LastDate(data).value;
      exists x :: x in data && x !in FilterRows(data, All, All, start, end)
  {
    var i :| 0 <= i < |data| && data[i].date == FirstDate(data).value;
    assert data[i] in data;
  }

  /** The "Showing" line of the summary card. */
  function SelectionText(continent: string, country: string): (t: string)
    ensures country != All ==> t == country
    ensures country == All && continent != All ==> t == continent + " (All Countries)"
    ensures country == All && continent == All ==> t == "Global"
  {
    if country != All then country
    else if continent != All then continent + " (All Countries)"
    else "Global"
  }

  /** What the summary card shows. */
  datatype SummaryPanel = SummaryPanel(
    summary: Summary,
    testsShown: bool,
    casesIndicator: Indication,
    deathsIndicator: Indication,
    vaccinationsIndicator: Indication,
    selection: string)

  /** The sorted lists and the date range are those of `data` (no range before any data is loaded). */
  ghost predicate Describes(data: seq<Row>, continents: seq<string>, countries: seq<string>, startDate: DateValue, endDate: DateValue) {
    && continents == Continents(data)
    && countries == Countries(data)
    && (startDate.Undefined? <==> endDate.Undefined?)
    && (!startDate.Undefined? ==> startDate == DateValueOf(FirstDate(data)) && endDate == DateValueOf(LastDate(data)))
  }

  class Dashboard {
    var covidData: seq<Row>
    var filteredData: seq<Row>
    var continents: seq<string>
    var countries: seq<string>
    var startDate: DateValue
    var endDate: DateValue
    /** The filter controls: dropdown values, the country dropdown's options, and the date inputs. */
    var continentFilter: string
    var countryFilter: string
    var countryOptions: seq<string>
    var startInput: Option<int>
    var endInput: Option<int>

    /**
     * The lists and the date range describe the dataset, and the view never
     * holds a row the dataset does not.
     */
    ghost predicate Valid()
      reads this
    {
      && Describes(covidData, continents, countries, startDate, endDate)
      && (forall x :: x in filteredData ==> x in covidData)
    }

    /** The state before any data is loaded. */
    constructor ()
      ensures Valid()
      ensures covidData == [] && filteredData == [] && continents == [] && countries == []
      ensures startDate == Undefined && endDate == Undefined
      ensures continentFilter == All && countryFilter == All && countryOptions == []
      ensures startInput == None && endInput == None
    {
      covidData, filteredData := [], [];
      continents, countries := [], [];
      startDate, endDate := Undefined, Undefined;
      continentFilter, countryFilter, countryOptions := All, All, [];
      startInput, endInput := None, None;
    }

    /**
     * `processData` with `populateFilters`: stores the dataset, collects the
     * continents and countries, finds the date range, sets the inputs and
     * shows the whole dataset.
     */
    method ProcessData(data: seq<Row>)
      modifies this
      ensures Valid()
      ensures covidData == data && filteredData == data
      ensures continents == Continents(data) && countries == Countries(data)
      ensures startDate == DateValueOf(FirstDate(data)) && endDate == DateValueOf(LastDate(data))
      ensures continentFilter == All && countryFilter == All && countryOptions == countries
      ensures startInput == ShiftedInput(startDate, LeadInDays) && endInput == ShiftedInput(endDate, 0)
    {
      var continentSet, countrySet := CollectColumns(data);
      var first, last := DateValueOf(FirstDate(data)), DateValueOf(LastDate(data));
      var sortedContinents, sortedCountries := SortStrings(continentSet), SortStrings(countrySet);
      assert Describes(data, sortedContinents, sortedCountries, first, last);
      covidData, filteredData, continents, countries, continentFilter, countryFilter, countryOptions,
        startDate, endDate, startInput, endInput :=
        data, data, sortedContinents, sortedCountries, All, All, sortedCountries,
        first, last, ShiftedInput(first, LeadInDays), ShiftedInput(last, 0);
    }

    /** Choosing a continent runs `updateCountryOptions`, which also resets the country to "all". */
    method SelectContinent(continent: string)
      modifies this
      requires Valid()
      ensures Valid()
      ensures continentFilter == continent && countryFilter == All
      ensures countryOptions == CountryOptions(covidData, countries, continent)
      ensures covidData == old(covidData) && filteredData == old(filteredData)
      ensures startInput == old(startInput) && endInput == old(endInput)
      ensures unchanged(this`continents) && unchanged(this`countries) && unchanged(this`startDate) && unchanged(this`endDate)
    {
      continentFilter := continent;
      countryFilter := All;
      countryOptions := CountryOptions(covidData, countries, continent);
    }

    /** Choosing a country or dates in the controls. */
    method SetControls(country: string, start: Option<int>, end: Option<int>)
      modifies this
      requires Valid()
      ensures Valid()
      ensures countryFilter == country && startInput == start && endInput == end
      ensures continentFilter == old(continentFilter) && countryOptions == old(countryOptions)
      ensures covidData == old(covidData) && filteredData == old(filteredData)
      ensures unchanged(this`continents) && unchanged(this`countries) && unchanged(this`startDate) && unchanged(this`endDate)
    {
      countryFilter, startInput, endInput := country, start, end;
    }

    /** `applyFilters`: the view becomes the rows the controls keep, in dataset order. */
    method ApplyFilters()
      modifies this
      requires Valid()
      ensures Valid()
      ensures filteredData == FilterRows(covidData, continentFilter, countryFilter, DateBound(startInput), DateBound(endInput))
      ensures covidData == old(covidData) && continentFilter == old(continentFilter) && countryFilter == old(countryFilter)
      ensures countryOptions == old(countryOptions) && startInput == old(startInput) && endInput == old(endInput)
      ensures unchanged(this`continents) && unchanged(this`countries) && unchanged(this`startDate) && unchanged(this`endDate)
    {
      filteredData := FilterRows(covidData, continentFilter, countryFilter, DateBound(startInput), DateBound(endInput));
    }

    /**
     * `resetFilters`: both dropdowns back to "all", then the date inputs and
     * the whole dataset as the view. Before any data is loaded `startDate`
     * is undefined and reading its time throws after the dropdowns are reset.
     */
    method ResetFilters() returns (thrown: bool)
      modifies this
      requires Valid()
      ensures Valid()
      ensures thrown <==> old(startDate).Undefined?
      ensures continentFilter == All && countryFilter == All
      ensures !thrown ==> startInput == ShiftedInput(startDate, LeadInDays) && endInput == ShiftedInput(endDate, 0)
      ensures !thrown ==> filteredData == covidData
      ensures thrown ==> filteredData == old(filteredData) && startInput == old(startInput) && endInput == old(endInput)
      ensures covidData == old(covidData) && countryOptions == old(countryOptions)
      ensures unchanged(this`continents) && unchanged(this`countries) && unchanged(this`startDate) && unchanged(this`endDate)
    {
      if startDate.Undefined? {
        continentFilter, countryFilter := All, All;
        return true;
      }
      continentFilter, countryFilter, startInput, endInput, filteredData :=
        All, All, ShiftedInput(startDate, LeadInDays), ShiftedInput(endDate, 0), covidData;
      return false;
    }

    /**
     * `updateSummaryStats`: the statistics of the chosen kind over the view,
     * the tests line only when the total tests are truthy, the change
     * indicators (a rise is bad for cases and deaths, good for vaccinations)
     * and the selection line. In peak mode the code as written throws while
     * computing the "last updated" date, before any of the panel is written,
     * so the page keeps its old panel and skips the redraws that follow:
     * `thrown` reports that, and `panel` is what the corrected peak date shows.
     */
    method UpdateSummaryStats(mode: ViewMode, dataType: DataType) returns (panel: SummaryPanel, thrown: bool)
      ensures thrown <==> dataType == PeakData
      ensures dataType == LatestData ==> IsLatestSummary(filteredData, mode, panel.summary)
      ensures dataType == PeakData ==> IsPeakSummary(filteredData, mode, panel.summary)
      ensures dataType == AverageData ==> IsAverageSummary(filteredData, mode, panel.summary)
      ensures panel.testsShown <==> NumTruthy(panel.summary.totals.tests)
      ensures panel.casesIndicator == Indicator(panel.summary.casesChange, false)
      ensures panel.deathsIndicator == Indicator(panel.summary.deathsChange, false)
      ensures panel.vaccinationsIndicator == Indicator(panel.summary.vaccinationsChange, true)
      ensures panel.selection == SelectionText(continentFilter, countryFilter)
    {
      var s: Summary;
      thrown := false;
      match dataType {
        case LatestData => s := CalculateLatestStats(filteredData, mode);
        case PeakData =>
          s := CalculatePeakStats(filteredData, mode);
          var days := KeyOrder(filteredData, Date, Always);
          thrown := PeakLastUpdatedAsWritten(PeakOver(days, filteredData, NewCases), PeakOver(days, filteredData, NewDeaths),
                                             PeakOver(days, filteredData, NewVaccinations)).Failure?;
        case AverageData => s := CalculateAverageStats(filteredData, mode);
      }
      panel := SummaryPanel(s, NumTruthy(s.totals.tests), Indicator(s.casesChange, false), Indicator(s.deathsChange, false),
                            Indicator(s.vaccinationsChange, true), SelectionText(continentFilter, countryFilter));
    }
  }
}
