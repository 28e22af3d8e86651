# COVID-19 dashboard: a Dafny model of its aggregation engine

The dashboard (SquizAI/DA_covidHW) loads the Our World in Data table of daily
COVID-19 observations, one row per location and day. It keeps the whole
dataset and a filtered *view*, and it draws everything from that view:
- the summary statistics (latest, peak and average figures, scaled by view mode, with
  seven-day change indicators);
- the bar charts per continent;
- the timeline of new cases;
- the top ten countries by cases;
- the analysis charts (continental waves, monthly growth, case fatality
  top ten, vaccination bins, tests against cases);
- the country panel;
- the world map.

This project models that engine in Dafny and proves what each computation
delivers.

| module | file | models |
|---|---|---|
| `JsNumbers` | js_numbers.dfy | the JavaScript number behaviours relied on: `x \|\| 0`, truthiness, NaN, `toFixed` |
| `Observations` | observations.dfy | the row, its month (`YYYY-MM`) and the keys the dictionaries use |
| `Sequences`, `Strings` | sequences.dfy, strings.dfy | `filter`, the stable `sort` by number, the default string `sort`, `slice(0, 10)`, `toLowerCase` |
| `Keyed` | keyed.dfy | dictionaries filled row by row: key insertion order, "latest row per key", "first row per key", per-key sums |
| `Sampling` | sampling.dfy | the stride loop that keeps about twenty points of a timeline |
| `Statistics` | statistics.dfy | `calculateLatestStats` through `updateChangeIndicators` (js/main.js) |
| `Dashboard` | dashboard.dfy | the module-level state of js/main.js as a class: loading, filter controls, filtering, reset, summary panel |
| `Charts` | charts.dfy | js/charts.js |
| `CountryComparison` | country_comparison.dfy | js/country-comparison.js |
| `MapView` | map_view.dfy | js/map.js |

Modelling conventions:
- Dates are day numbers, and a month is the integer `year * 12 + (month - 1)`.
  Ordering those integers is ordering the `YYYY-MM` strings the code sorts,
  since all years have four digits.
- A missing numeric cell is `None`, and a missing string cell is `""`.
- The dictionaries keep their keys in insertion order, which is the order in
  which `Object.keys`, `Object.values` and `Map.forEach` report them.
- Every "keep the latest row" loop replaces the stored row only on a strictly
  later date, so the first row seen wins a tie.
- Methods that loop are proved against specification functions. Separate
  lemmas then prove what those functions deliver:
  - each bar, point or entry comes from the row kept for its key (soundness);
  - every such row is shown (completeness);
  - ordering, one entry per key, and the partition of totals.

Where the code and its documentation disagree, the model follows the code.
Loading and resetting show the whole dataset, although the start-date input
is set 60 days after the first date (`Dashboard.ResetViewIsNotTheResetFilter`
proves the difference).

## Model

| member | source | states |
|---|---|---|
| JsNumbers.GuardedPercent | js/main.js:519-520 | `(d > 0 ? n / d * 100 : 0)` as a Num: 0 unless the divisor is positive, otherwise the percentage, NaN in and NaN out |
| JsNumbers.RoundFixed | js/main.js:590-591 | `toFixed(k)` read back: within half a unit of the value, ties away from zero |
| JsNumbers.Round2 | js/charts.js:436 | `parseFloat(x.toFixed(2))` is within 0.005 of `x` |
| JsNumbers.RoundOnePositive | js/main.js:625-637 | a percentage printed with one decimal reads as positive exactly from 0.05 on, and as negative exactly from -0.05 down |
| Sequences.SortByFacts | js/charts.js:198 | the numeric `sort` gives an ascending permutation that is stable (rows with equal keys keep their order) |
| Sequences.Filter | js/charts.js:197 | `filter` keeps exactly the elements that pass, no more of them than the input has |
| Sequences.TopTenFacts | js/charts.js:196-199 | the ten are in sort order and come from the input, and anything left out has a key no smaller than any of the ten (and then there are exactly ten) |
| Sequences.TopTenDistinctBy | js/charts.js:196-199 | taking the top ten of entries with distinct names keeps the names distinct |
| Strings.SortByNameFacts | js/country-comparison.js:25 | sorting by name gives a permutation in non-decreasing name order (code-point order standing in for `localeCompare`) |
| Strings.SortStringsFacts | js/main.js:144-145 | the default `sort` of distinct strings is strictly ascending with the same members |
| Strings.LessTotal | js/main.js:144-145 | the code-point order (code-unit order inside the Basic Multilingual Plane) compares any two different strings |
| Strings.ToLower | js/map.js:51 | `toLowerCase` maps every character and keeps the length |
| Strings.ToLowerMerges | js/map.js:51 | two codes share a lower-cased key exactly when they are equal ignoring ASCII case |
| Keyed.KeyOrderFacts | js/main.js:338-344 | a dictionary's keys come once each, and they are exactly the keys of the eligible rows |
| Keyed.LatestByKeys | js/main.js:338-344 | the latest-row dictionary holds exactly the keys of the key order |
| Keyed.LatestBySelects | js/main.js:339-343 | each kept row is the first eligible row of its key with the largest date |
| Keyed.LatestAtUnique | js/main.js:339-343 | that row is unique |
| Keyed.LatestRowsFacts | js/main.js:347 | `Object.values` of the latest rows: one row per key, in key order, each the key's latest |
| Keyed.LatestRowsSound | js/main.js:347 | every listed row is the kept row of its own key |
| Keyed.LatestRowsComplete | js/main.js:347 | the kept row of every key is listed |
| Keyed.LatestByOnlyLatestRowsMatter | js/main.js:339-343 | rewriting rows that are not kept leaves the dictionary unchanged |
| Keyed.GroupSumAbsent | js/charts.js:301-303 | a key no eligible row has sums to 0 (the `\|\| 0` of a missing bucket) |
| Keyed.GroupsPartitionTotal | js/charts.js:67-79 | the per-key sums add up to the total over the eligible rows |
| Keyed.FirstByKeys | js/country-comparison.js:14-22 | the first-row dictionary holds exactly the keys of the key order |
| Keyed.FirstBySelects | js/country-comparison.js:14-22 | each stored entry comes from the first eligible row of its key |
| Keyed.FirstByAt | js/country-comparison.js:14-22 | the first eligible row of each key is the one stored |
| Keyed.CollectLatest | js/charts.js:17-23 | the `forEach` loop builds the latest-row dictionary, and its keys arrive in key order |
| Keyed.Accumulate | js/charts.js:67-79 | the `forEach` loop that adds into buckets gives every present key its group sum, and no other key |
| Keyed.SortAscending | js/charts.js:82 | sorting distinct dates or months gives them strictly ascending, with the same members |
| Keyed.SortedKeys | js/charts.js:82 | the sorted dictionary keys are strictly ascending and are exactly the keys of the eligible rows |
| Sampling.SampleAt | js/charts.js:90-94 | the k-th kept index is `k * stride`, inside the series |
| Sampling.SampleCountExact | js/charts.js:90 | the loop runs exactly `ceil(n / stride)` times |
| Sampling.ShortSeriesKeptWhole | js/charts.js:87-90 | fewer than 40 points are all kept |
| Sampling.SampleCountBounds | js/charts.js:87-90 | from 20 points on, between 20 and 39 are kept |
| Sampling.SampleAtMonotone | js/charts.js:90 | later samples come from later indices |
| Sampling.StrideSample | js/country-comparison.js:117-122 | the loop keeps element `k * stride` as its k-th element, the first element always |
| Statistics.LatestEntriesFacts | js/main.js:338-347 | the entries are the locations, once each, in order of first appearance, each the location's latest row |
| Statistics.LatestEntriesIgnoreOlderRows | js/main.js:339-343 | changing the figures of a row that is not its location's latest leaves the entries unchanged |
| Statistics.ScaledTimes | js/main.js:520-526 | multiplying by `1000000 / population` scales a figure per million inhabitants |
| Statistics.FormatStatsByViewMode | js/main.js:505-543 | totals as they are, per million or per hundred inhabitants; the rates agree in every mode; a per-population mode without population produces no text |
| Statistics.FindNear | js/main.js:559-562 | `find` returns the first row of the location within two days of the target, and none exactly when no row is |
| Statistics.DeltaSumWithoutHistory | js/main.js:564-574 | locations without a row about a week earlier contribute nothing to a change |
| Statistics.PercentOf | js/main.js:582-595 | the percent is set only for a positive total, is "Infinity%" when the previous total is 0, and is otherwise within 0.05 of `value / (total - value) * 100` |
| Statistics.CalculateChanges | js/main.js:546-600 | the loop over the latest entries produces the week change of cases, deaths and vaccinations |
| Statistics.Indicator | js/main.js:614-690 | a label is neutral; an arrow up is bad news for cases and deaths and good news for vaccinations, and down the reverse |
| Statistics.IndicatorOfChange | js/main.js:623-638 | the arrow follows the sign of the exact percentage, changes under 0.05% either way show a dash, and a change from nothing shows an arrow up |
| Statistics.LastDate | js/main.js:474-476 | the largest date of the rows, `None` exactly for no rows |
| Statistics.GetLastUpdatedDate | js/main.js:603-611 | null without entries; otherwise the latest entry date, or the epoch when all entries are older |
| Statistics.CalculateLatestStats | js/main.js:335-374 | latest mode sums the figures and the population over the latest entry of each location, and adds the changes and the last entry date |
| Statistics.PeakOverFacts | js/main.js:493-499 | the peak is the largest day sum and the first day reaching it; it is `{0, null}` exactly when no day sum is positive |
| Statistics.FindPeakValue | js/main.js:482-502 | the per-date loop computes that peak over the dates in insertion order |
| Statistics.PeakLastUpdated | js/main.js:408-412 | the evidently intended peak "last updated": the latest of the three peak days |
| Statistics.MathMax | js/main.js:408-412 | `Math.max` of one or more values returns a number, never a Date |
| Statistics.PeakLastUpdatedAsWritten | js/main.js:408-412 | as written, `.toISOString()` on that number fails |
| Statistics.PeakModeAlwaysThrows | js/main.js:377-414 | so peak mode never produces a result, whatever the view |
| Statistics.CalculatePeakStats | js/main.js:377-414 | peak mode (with the corrected date) shows the peak day sum of each daily metric |
| Statistics.WeeklyMeanFacts | js/main.js:440-460 | the average is NaN exactly for an empty view, and otherwise seven times the total over the number of distinct dates |
| Statistics.DailyAverage | js/main.js:419-443 | the per-date loop computes that weekly mean |
| Statistics.CalculateAverageStats | js/main.js:417-479 | average mode shows the weekly means and the last date of the view |
| Dashboard.SortedKeysFacts | js/main.js:139-145 | the sorted `Set` of a column is strictly ascending and holds exactly the column's values |
| Dashboard.ContinentsFacts | js/main.js:140-144 | the continent list holds each non-empty continent of the data once, in ascending order |
| Dashboard.CountriesFacts | js/main.js:141-145 | the country list holds each non-empty location of the data once, in ascending order |
| Dashboard.CollectColumns | js/main.js:136-142 | the `forEach` adds each continent and location to its `Set` in order of first appearance |
| Dashboard.FirstDate | js/main.js:151-152 | the smallest date, `None` exactly for no rows |
| Dashboard.CountryOptionsFacts | js/main.js:212-217 | a chosen continent offers exactly the locations of its rows, once each, ascending |
| Dashboard.FilterRows | js/main.js:236-254 | the view holds exactly the rows of the chosen continent and country within the inclusive date range |
| Dashboard.FilterRowsAppend | js/main.js:236 | filtering keeps the order of the dataset |
| Dashboard.FilterRowsKeepsAll | js/main.js:236-254 | a filter every row passes gives back the whole dataset |
| Dashboard.FilterRowsMismatch | js/main.js:238-246 | a country outside the chosen continent gives an empty view |
| Dashboard.ResetViewIsNotTheResetFilter | js/main.js:260-268 | the reset view keeps rows that the reset controls, applied, would drop |
| Dashboard.SelectionText | js/main.js:321-331 | the selection line: the country, else "continent (All Countries)", else "Global" |
| Dashboard.Dashboard.constructor | js/main.js:2-7 | before loading, everything is empty and the dates are undefined |
| Dashboard.Dashboard.ProcessData | js/main.js:130-164 | loading stores the data, the sorted continent and country lists and the date range, sets the inputs 60 days after the first date and at the last one, and shows the whole dataset |
| Dashboard.Dashboard.SelectContinent | js/main.js:196-227 | choosing a continent resets the country to "all" and lists that continent's countries |
| Dashboard.Dashboard.SetControls | js/main.js:231-234 | the country and date controls hold what was chosen; nothing else changes |
| Dashboard.Dashboard.ApplyFilters | js/main.js:230-257 | the view becomes the filter of the dataset by the controls, an empty date input counting as the epoch |
| Dashboard.Dashboard.ResetFilters | js/main.js:260-268 | reset sets both dropdowns to all; before loading it then throws (there is no start date), otherwise it sets the inputs 60 days after the first date and at the last one and shows the whole dataset |
| Dashboard.Dashboard.UpdateSummaryStats | js/main.js:283-332 | the panel shows the chosen statistics, the tests line only for truthy tests, the three indicators and the selection line; `thrown` holds exactly in peak mode, where the code as written throws before writing the panel |
| Charts.ContinentBars | js/charts.js:15-27 | the labels are the continents of the eligible rows, strictly ascending, each with the value of its latest row |
| Charts.CasesByContinent | js/charts.js:8-37 | each bar is its continent's latest total cases, in millions |
| Charts.VaccinationProgress | js/charts.js:127-146 | each bar is its continent's latest fully-vaccinated share |
| Charts.CasesTimeline | js/charts.js:58-94 | every stride-th date with new cases, in date order, labelled by its month, with that date's summed new cases |
| Charts.CountryComparison | js/charts.js:178-203 | the bars are the top countries' names and total cases |
| Charts.TopCountriesOrdered | js/charts.js:196-199 | one bar per location, in descending total cases |
| Charts.TopCountriesSound | js/charts.js:185-199 | each bar is a location's latest row, with positive cases and a continent |
| Charts.TopCountriesComplete | js/charts.js:196-199 | a listed location left out means ten bars, all with at least its cases |
| Charts.WaveMonthsOfKeys | js/charts.js:262-279 | the months gathered from the buckets are exactly the months of the wave rows |
| Charts.UnionOfMonths | js/charts.js:276-279 | the `Set` of months holds each bucket's month once |
| Charts.ContinentalWaves | js/charts.js:253-312 | the months are ascending and exactly those with wave rows; each of the four continents has one value per month, the month's new-case sum, 0 without rows |
| Charts.WaveSeries | js/charts.js:292-312 | a bucket's value is its sum, and a missing bucket reads 0 |
| Charts.WaveSeriesValue | js/charts.js:301-303 | `\|\| 0` of a bucket equals the group sum, 0 for a missing bucket |
| Charts.GrowthRate | js/charts.js:433-436 | the rate is within 0.005 of `(cur - prev) / prev * 100` |
| Charts.GrowthLength | js/charts.js:427-443 | there is at most one point fewer than there are months |
| Charts.GrowthSound | js/charts.js:427-443 | each point is a month after the first, whose previous month has positive cases, with its rate |
| Charts.GrowthComplete | js/charts.js:427-443 | every such month is plotted |
| Charts.GrowthLoop | js/charts.js:427-443 | the loop over the sorted months plots exactly the growth points |
| Charts.TemporalEvolution | js/charts.js:403-457 | the growth chart plots the growth of the monthly new-case totals |
| Charts.CaseFatality | js/charts.js:478-479 | the rate is within 0.005 of `deaths / cases * 100` |
| Charts.GeographicalComparison | js/charts.js:460-498 | the chart shows the top CFR entries, name and value |
| Charts.TopCfrOrdered | js/charts.js:484-486 | one entry per location, highest rate first |
| Charts.TopCfrSound | js/charts.js:467-486 | each entry is a location's latest row above the thresholds, with its rate |
| Charts.TopCfrComplete | js/charts.js:484-486 | a qualifying location left out means ten entries, all with at least its rate |
| Charts.BinOf | js/charts.js:527-531 | the bin is one of five and brackets the vaccination share by 20-point steps |
| Charts.BinCfr | js/charts.js:541-544 | a bin's rate is 0 without cases, otherwise within 0.005 of `deaths / cases * 100` |
| Charts.TallyStep | js/charts.js:533-535 | adding a row updates only its own bin |
| Charts.PolicyImpact | js/charts.js:501-558 | the five labels, the bins tallied from the latest rows, and each bin's rate |
| Charts.BinsPartition | js/charts.js:523-537 | the bins partition the binned rows: the countries, deaths and cases add up |
| Charts.BinCountsAddUp | js/charts.js:523-537 | the countries of the five bins add up to the binned latest rows |
| Charts.ContextualFactors | js/charts.js:561-598 | the loop pushes the point of each latest row with both coordinates positive |
| Charts.ScatterDistinct | js/charts.js:568-584 | one point per location |
| Charts.ScatterSound | js/charts.js:568-584 | each point sits at the coordinates of a latest row with both positive |
| Charts.ScatterComplete | js/charts.js:568-584 | every such row gets its point |
| CountryComparison.InitCountrySelection | js/country-comparison.js:12-25 | the loop builds one entry per location from its first selectable row, then sorts the entries by name |
| CountryComparison.FirstChoiceAt | js/country-comparison.js:14-22 | the n-th unsorted entry names the n-th location and comes from its first row |
| CountryComparison.ChoicesSound | js/country-comparison.js:14-25 | each entry is the name and code of the first selectable row of its location |
| CountryComparison.ChoicesComplete | js/country-comparison.js:14-25 | the first selectable row of each location gives an entry |
| CountryComparison.ChoicesCover | js/country-comparison.js:14-25 | every location with a selectable row is offered |
| CountryComparison.ChoicesSorted | js/country-comparison.js:25 | the entries are in strictly ascending name order (code-point order standing in for `localeCompare`), one per location |
| CountryComparison.FormatCount | js/country-comparison.js:75-77 | a truthy count is shown as it is, any other reads "N/A" |
| CountryComparison.CardCfr | js/country-comparison.js:86-88 | the rate is shown only when both totals are truthy, within 0.005 of `deaths / cases * 100` |
| CountryComparison.CardVacRate | js/country-comparison.js:92-94 | the rate is shown only when truthy, within 0.005 of the fully-vaccinated share |
| CountryComparison.CardOf | js/country-comparison.js:70-94 | the card shows the row's location; each count is shown, as its value, exactly when truthy; the fatality rate only with both totals and the vaccination rate only when truthy, each within 0.005 of the exact value |
| CountryComparison.UpdateCountryData | js/country-comparison.js:40-99 | the card is hidden with nothing selected or no row with the code; otherwise it shows the latest row with the code |
| CountryComparison.CountryRowsSorted | js/country-comparison.js:111-114 | the country's rows are in date order |
| CountryComparison.CountryRowsFacts | js/country-comparison.js:111-114 | they are exactly the view's rows with the code, in date order, with rows of one date in view order |
| CountryComparison.UpdateCountryTimeline | js/country-comparison.js:102-131 | every stride-th row from the first, labelled by month, with its new cases and deaths |
| CountryComparison.TimelineInDateOrder | js/country-comparison.js:111-122 | the plotted rows are in date order |
| CountryComparison.TimelineStartsEarliest | js/country-comparison.js:111-122 | the first row is the country's earliest |
| MapView.UpdateMapView | js/map.js:46-70 | the map keeps the latest mapped row per lower-cased code, and the values are their total cases |
| MapView.RegionValuesFacts | js/map.js:46-70 | `mapData` holds key k exactly when a mapped row has the lower-cased code k, and its value is the latest such row's nonzero total cases |
| MapView.CaseVariantsShareRegion | js/map.js:51 | codes differing only in ASCII letter case share one `countryData`/`mapData` key |
| MapView.TooltipOf | js/map.js:97-103 | the tooltip shows the totals (`\|\| 0`), and a rate only for positive cases, within 0.005 of `deaths / cases * 100` |
| MapView.RegionTip | js/map.js:97-98 | the tooltip handler finds a row exactly when `countryData` holds the code, and then shows that row's tooltip |
| MapView.MappedRowsShown | js/map.js:46-103 | the key of every mapped row is in `mapData` and in `countryData`, and the tooltip's cases equal its `mapData` value |

## Left out

- The page itself is not modelled: the DOM, the CSV fetch and its parser, Chart.js, jVectorMap
  and the page layout (js/dashboard-layout.js is not part of this model).
  - Each operation takes the current view as a parameter.
  - Display-only strings are kept as the values they are formatted from. The `toFixed`, `Math.round` and `Intl` rounding of text the code never reads back is not modelled (for example the summary's rates and per-capita figures).
- `loadData` and `useSampleData` (network access and a hard-coded fallback dataset) are not modelled.
- Chart.js datasets, colours, the map's zoom controls and the constant CFR trend icon are not modelled.
- MapView: the keys are lower-cased ISO codes from the dataset (three letters, such as "usa"). Whether the `world_mill` map's region codes match those keys is assumed, not modelled; the map library is not part of this model. The map contracts speak of the `countryData` and `mapData` dictionaries only.
- The `updateDashboard` sequence of redraws is not modelled as one member; each view is its own method over the filtered view.
- Numbers are exact: JavaScript doubles become unbounded integers and reals, so overflow and rounding error are not modelled.
- `toFixed(k)` is modelled as rounding half away from zero on exact values.
- `Intl.NumberFormat`, `toLocaleDateString` and `toISOString` text is not modelled. Dates are day numbers and months are `year * 12 + month - 1`, in UTC (time zones are not modelled).
- The default string `sort` is modelled as code-point order, which agrees with JavaScript's UTF-16 code-unit order inside the Basic Multilingual Plane; names with characters beyond it may sort differently. `toLowerCase` is modelled on ASCII letters only.
- CountryComparison.InitCountrySelection: `localeCompare` is a locale collation (base letters first, case and accents only to break ties), and code-point order stands in for it. The two agree on names whose first difference is between two ASCII letters of the same case, or where one name is a prefix of the other, as for the sample dataset's names (js/main.js:103-114). They differ on other names even inside the Basic Multilingual Plane: `localeCompare` puts "a" before "B" and "Åland" before "Belgium", code-point order the reverse.
- Integer-like keys, which JavaScript objects list first, are not modelled. No location, continent, ISO code or date of the dataset is integer-like.
- Charts.CasesTimeline: the `new_deaths` sums the timeline accumulates but never plots are not modelled.
- Charts.TemporalEvolution: the unused `totalCases` field and `previousMonthCases` variable are not modelled.
- Charts.GeographicalComparison: the `countryCFR` dictionary is modelled as a list of entries in insertion order. The latest rows have distinct locations, so the two agree.
- Charts.ContinentalWaves: the insertion order of the `allMonths` set is not modelled, because the months are sorted right after.
- A row's date string is always present in the dataset, so the `row.date` tests are not modelled.
- Statistics.CalculatePeakStats: uses the corrected "last updated" date; the code as written throws (see Findings).
- Dashboard.Dashboard.UpdateSummaryStats: in peak mode `panel` holds the statistics with the corrected "last updated" date. The page as written throws instead (reported by `thrown`), keeps its old panel and skips the redraws `updateDashboard` makes after it (js/main.js:272-279).
- Dashboard.Dashboard.UpdateSummaryStats: a data type other than latest, peak or average (the code then reads a field of `undefined`) cannot be chosen in the page and is not modelled.

## Findings

| source | as written | input that shows it | evidently intended | confidence | as-written member | corrected member |
|---|---|---|---|---|---|---|
| js/main.js:408-412 | `Math.max(new Date(...), ...)` returns a number, and `.toISOString()` is then called on that number | any view, with the summary in peak mode | the ISO date of the latest of the three peak days | high, not executed | Statistics.PeakModeAlwaysThrows | Statistics.PeakLastUpdated |
