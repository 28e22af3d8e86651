/**
 * The world map (js/map.js): the latest row per lower-cased ISO code, the
 * `mapData` of total cases per key, and the tooltip looked up for a key.
 */
module MapView {
  import opened Wrappers
  import opened JsNumbers
  import opened Observations
  import opened Strings
  import opened Keyed

  /** A row the map uses: ISO code, location and total cases all truthy. */
  predicate Mapped(r: Row) {
    StrTruthy(r.isoCode) && StrTruthy(r.location) && Truthy(r.totalCases)
  }

  /** The key of both dictionaries: the ISO code lower-cased. */
  function Region(r: Row): string { ToLower(r.isoCode) }

  /** `countryData`: the latest mapped row per key. */
  function MapRows(view: seq<Row>): map<string, Row> {
    LatestBy(view, Region, Mapped)
  }

  /** `mapData`: every key of `countryData` with its truthy total cases. */
  function RegionValues(view: seq<Row>): map<string, int> {
    var rows := MapRows(view);
    map k | k in rows && Truthy(rows[k].totalCases) :: rows[k].totalCases.value
  }

  /**
   * The two dictionaries the map is drawn from: the `forEach` that keeps the
   * latest row per key, then the loop over its entries that copies the
   * truthy total cases.
   */
  method UpdateMapView(view: seq<Row>) returns (countryData: map<string, Row>, mapData: map<string, int>)
    ensures countryData == MapRows(view)
    ensures mapData == RegionValues(view)
  {
    var order;
    countryData, order := CollectLatest(view, Region, Mapped);
    LatestByKeys(view, Region, Mapped);
    mapData := map[];
    for n := 0 to |order|
      invariant forall k :: k in mapData <==> k in order[..n] && Truthy(countryData[k].totalCases)
      invariant forall k :: k in mapData ==> mapData[k] == countryData[k].totalCases.value
    {
      var row := countryData[order[n]];
      if Truthy(row.totalCases) {
        mapData := mapData[order[n] := row.totalCases.value];
      }
    }
    assert order[..|order|] == order;
  }

  /**
   * `mapData` holds a key exactly when some mapped row has it, and its value
   * is the nonzero total cases of the latest such row.
   */
  lemma RegionValuesFacts(view: seq<Row>, k: string)
    ensures k in RegionValues(view) <==> Present(view, Region, Mapped, k)
    ensures forall i :: IsLatestAt(view, Region, Mapped, k, i) ==>
      k in RegionValues(view) && RegionValues(view)[k] == view[i].totalCases.value && RegionValues(view)[k] != 0
  {
    LatestByKeys(view, Region, Mapped);
    KeyOrderFacts(view, Region, Mapped);
    if k in MapRows(view) {
      LatestBySelects(view, Region, Mapped, k);
      var j :| IsLatestAt(view, Region, Mapped, k, j) && MapRows(view)[k] == view[j];
      forall i | IsLatestAt(view, Region, Mapped, k, i)
        ensures k in RegionValues(view) && RegionValues(view)[k] == view[i].totalCases.value
      {
        LatestAtUnique(view, Region, Mapped, k, i, j);
      }
    }
  }

  /** Rows whose codes differ only in letter case share one key. */
  lemma CaseVariantsShareRegion(a: Row, b: Row)
    ensures Region(a) == Region(b) <==> SameIgnoringCase(a.isoCode, b.isoCode)
  {
    ToLowerMerges(a.isoCode, b.isoCode);
  }

  /** The tooltip of a row: its name, the totals (`|| 0`) and the case fatality rate. */
  datatype Tooltip = Tooltip(name: string, cases: int, deaths: int, vaccinations: int, cfr: Option<real>)

  /** The tooltip of a row: the rate to two decimals when the cases are positive, else "N/A". */
  function TooltipOf(r: Row): (t: Tooltip)
    ensures t.name == r.location && t.cases == TotalCases(r) && t.deaths == TotalDeaths(r)
    ensures t.vaccinations == TotalVaccinations(r)
    ensures t.cfr.Some? <==> TotalCases(r) > 0
    ensures t.cfr.Some? ==> -0.005 <= t.cfr.value - TotalDeaths(r) as real / TotalCases(r) as real * 100.0 <= 0.005
  {
    Tooltip(r.location, TotalCases(r), TotalDeaths(r), TotalVaccinations(r),
      if TotalCases(r) > 0 then Some(Round2(TotalDeaths(r) as real / TotalCases(r) as real * 100.0)) else None)
  }

  /** `onRegionTipShow`: a code `countryData` holds gets its row's tooltip; any other code keeps the default. */
  function RegionTip(countryData: map<string, Row>, code: string): (t: Option<Tooltip>)
    ensures t.Some? <==> code in countryData
    ensures t.Some? ==> t.value == TooltipOf(countryData[code])
  {
    if code in countryData then Some(TooltipOf(countryData[code])) else None
  }

  /**
   * The key of every mapped row is in `mapData` and finds a tooltip in
   * `countryData`, and the tooltip's cases are its `mapData` value.
   */
  lemma MappedRowsShown(view: seq<Row>, i: int)
    requires 0 <= i < |view| && Mapped(view[i])
    ensures Region(view[i]) in RegionValues(view)
    ensures RegionTip(MapRows(view), Region(view[i])).Some?
    ensures RegionTip(MapRows(view), Region(view[i])).value.cases == RegionValues(view)[Region(view[i])]
  {
    RegionValuesFacts(view, Region(view[i]));
  }
}
