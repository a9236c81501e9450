# Request dashboard: the data-table pipeline in Dafny

This project models the record pipeline of the API-request dashboard's
`DataTable` component. The component holds a list of request records, each
with a timestamp, a path, a response time, a status code and an optional
error text. From that list it derives:

- the per-path average response time (`calculateAverageResponseTimes`);
- the per-path error count (`calculateErrorCounts`), where a status code is
  an error only in 400..451 or 500..511;
- the number of error records on a given day (`getErrorCountByDate`), which
  compares dates as "YYYY-MM-DD" strings produced by `formatDate`;
- the visible table rows (`onFilter`): a stable sort by timestamp, an
  exact-match status filter, a case-insensitive substring path filter, then
  optionally a stable sort by path and optionally a stable sort by status;
- the points of the two charts drawn while a path filter is set: the
  records whose path equals the filter (ignoring case), in timestamp order,
  as (date, response time) for the line chart and (date, per-day error
  count) for the bar chart.

Modules:

| file | module | contents |
|---|---|---|
| `text.dfy` | `Text` | decimal rendering, `padStart`, ASCII lower-casing, substring search, the string order used for `localeCompare` |
| `records.dfy` | `Wrappers`, `Records` | the record, the error rule, `formatDate`, parsing a "YYYY-MM-DD" target date |
| `seqs.dfy` | `Seqs` | `Array.prototype.filter` on sequences and its laws |
| `sorting.dfy` | `Sorting` | the three comparators, `Array.prototype.sort` as a stable insertion sort, lexicographic order from sorts in a row |
| `sums.dfy` | `Sums` | sums over a set of paths, for the consistency of the two maps |
| `aggregation.dfy` | `Aggregation` | the two per-path maps and the per-day count, as loops with invariants |
| `filtering.dfy` | `Filtering` | `onFilter` and what its result is |
| `charts.dfy` | `Charts` | the line and bar series |

Modelling choices:

- A record's `timestamp` is the parsed epoch-millisecond integer that
  `Date.parse` gives. Its `date` is the calendar date that the local-time
  getters of `new Date(timestamp)` give: year, month index 0..11, day 1..31.
- `response_time` is an exact `real`.
- The dictionaries built by the two aggregations are `map`s that the loops
  reassign. `onFilter` works on a copy and reassigns its local `filtered`
  step by step, as the method `Filtering.OnFilter` does. Because
  `tableData` is a sequence value, it is unchanged by construction.
- `localeCompare(a, b) <= 0` becomes the code-point lexicographic order
  `Text.StrLe`, which is a total order. `toLowerCase` becomes ASCII
  lower-casing (`Text.Lower`).
- `new Date(targetDate)` on a target string is `Records.ParseDate`: a
  "YYYY-MM-DD" string with a month 01..12 and a day 01..31 gives that date.
  Any other string gives an Invalid Date, which `formatDate` renders as
  "NaN-NaN-NaN".
- With both sort flags set, the code sorts by path and then, stably, by
  status code. The result is therefore ordered by status code with ties
  ordered by path and then by timestamp. It is not "by status code alone".
  The model follows the code (`Filtering.SortOrderMeaning`).

## Model

| member | source | states |
|---|---|---|
| `Records.IsError` | src/components/DataTable.tsx:64-66 | definition of the error rule (400..451 or 500..511), also used at :85-87; properties in `Records.NonErrorCodes` and `Aggregation.ErrorCountPositiveIff` |
| `Text.IntToString` | src/components/DataTable.tsx:18-19 | definition of `String(n)` and `toString()` on an integer, also used at :106; properties in `Text.NatToStringRoundTrip` and `Text.IntToStringInjective` |
| `Text.PadStart` | src/components/DataTable.tsx:18-19 | definition of `padStart` with a one-character fill; properties in `Text.PadStartShape` |
| `Records.FormatDate` | src/components/DataTable.tsx:16-21 | definition of `formatDate`; properties in `Records.FormatDateParts`, `Records.FormatDateShape`, `Records.FormatDateInjective` and `Records.FormatDateIsNotInvalid` |
| `Records.NonErrorCodes` | src/components/DataTable.tsx:64-66 | a code is not an error exactly when it is below 400, in 452..499, or 512 and above |
| `Text.NatToStringRoundTrip` | src/components/DataTable.tsx:18-19 | `String(n)` of a natural number is a non-empty digit string whose value is n |
| `Text.PadStartShape` | src/components/DataTable.tsx:18-19 | `padStart(2, '0')` only prepends '0' characters; the result has the requested width, or the string's own length if that is longer |
| `Records.FormatDateParts` | src/components/DataTable.tsx:16-21 | for every valid date, whatever the number of year digits, the rendering is the year, a dash, two digits worth monthIndex + 1, a dash and two digits worth the day |
| `Records.FormatDateShape` | src/components/DataTable.tsx:16-21 | for a valid date with a four-digit year, `formatDate` gives ten characters "YYYY-MM-DD"; the month part has value monthIndex + 1 in 1..12 and the day part has value day in 1..31 |
| `Records.FormatDateInjective` | src/components/DataTable.tsx:16-21 | on valid dates, two dates format to the same string exactly when they are the same date, whatever the number of year digits |
| `Records.FormatDateIsNotInvalid` | src/components/DataTable.tsx:16-21 | no date renders as the "NaN-NaN-NaN" of an Invalid Date |
| `Records.ParseDate` | src/components/DataTable.tsx:81 | a target string that parses gives a valid calendar date with a year in 0..9999 |
| `Records.FormatTarget` | src/components/DataTable.tsx:81 | definition of `formatDate(new Date(targetDate))`: the formatted parsed date, or "NaN-NaN-NaN" when the target does not parse; properties in `Aggregation.InvalidTargetCountsNothing` and `Aggregation.ErrorCountByDateOfDay` |
| `Records.ParseFormatRoundTrip` | src/components/DataTable.tsx:81 | formatting a valid date with a four-digit year and parsing it again gives the same date |
| `Records.FormatParseRoundTrip` | src/components/DataTable.tsx:81 | a target string that parses, and whose year does not start with '0', formats back to itself |
| `Aggregation.GroupByPath` | src/components/DataTable.tsx:41-49 | the grouping loop: its keys are the distinct paths, and each group holds the path's total response time and its record count, which is at least 1 |
| `Aggregation.CalculateAverageResponseTimes` | src/components/DataTable.tsx:40-55 | the keys are exactly the distinct paths; each path's average is its total response time divided by its record count, and that count is at least 1, so no division by zero happens |
| `Aggregation.DivideGroups` | src/components/DataTable.tsx:52-55 | the division loop gives one entry per group, and that entry is the group's total divided by its count |
| `Aggregation.AverageTimesCount` | src/components/DataTable.tsx:52-55 | a path's average times its record count gives back the path's total response time |
| `Aggregation.PathsAreCounted` | src/components/DataTable.tsx:43-48 | a path is one of the distinct paths exactly when it has at least one record |
| `Aggregation.AveragesSumToTotal` | src/components/DataTable.tsx:52-55 | summed over the averages map, average × count gives the total response time of all records |
| `Aggregation.CalculateErrorCounts` | src/components/DataTable.tsx:60-74 | a path is a key exactly when it has an error record, and its value is the number of its error records; paths without errors are absent |
| `Aggregation.ErrorCountPositiveIff` | src/components/DataTable.tsx:63-73 | a path's error count is positive exactly when some record of that path has an error code |
| `Aggregation.ErrorsWithinPath` | src/components/DataTable.tsx:60-74 | no path has more error records than records, and a path with an error record is one of the distinct paths, so every error key is also an average key |
| `Aggregation.ErrorCountsSumToTotal` | src/components/DataTable.tsx:60-74 | the values of the error-count map add up to the number of error records |
| `Aggregation.ErrorsOnDate` | src/components/DataTable.tsx:84-94 | the per-day count never exceeds the number of records |
| `Aggregation.ErrorCountByDate` | src/components/DataTable.tsx:80-97 | definition of the per-day count as a function, the specification of `Aggregation.GetErrorCountByDate`; properties in `Aggregation.ErrorCountByDateOfDay` and `Aggregation.InvalidTargetCountsNothing` |
| `Aggregation.GetErrorCountByDate` | src/components/DataTable.tsx:80-97 | the loop returns the number of error records whose formatted date equals the formatted target, which is between 0 and the number of records |
| `Aggregation.ErrorsOnDateCountsFilter` | src/components/DataTable.tsx:84-94 | the per-day count is the length of the data filtered to the error records of that day |
| `Aggregation.ErrorsOnDateOrderIndependent` | src/components/DataTable.tsx:80-97 | two orderings of the same records give the same per-day count |
| `Aggregation.InvalidTargetCountsNothing` | src/components/DataTable.tsx:81 | a target string that is not a date gives a count of 0 |
| `Aggregation.ErrorsOnCalendarDay` | src/components/DataTable.tsx:89-91 | for valid dates, comparing formatted strings is comparing calendar dates |
| `Aggregation.ErrorCountByDateOfDay` | src/components/DataTable.tsx:80-97 | for the formatted rendering of a date with a four-digit year, the count is the number of error records on that calendar day |
| `Seqs.Filter` | src/components/DataTable.tsx:105-107 | `Array.prototype.filter` (also at :112-114 and :198); its result is never longer than its input; properties in `Seqs.FilterMultiset` and `Seqs.FilterKeepsOrdered` |
| `Seqs.FilterMultiset` | src/components/DataTable.tsx:105-107 | filtering keeps every passing element with its multiplicity and drops the rest |
| `Seqs.FilterKeepsOrdered` | src/components/DataTable.tsx:104-116 | filtering keeps an ordered sequence ordered |
| `Text.StrLe` | src/components/DataTable.tsx:120 | definition of the string order standing in for `localeCompare(a, b) <= 0`; properties in `Text.StrLeTotal`, `Text.StrLeTransitive` and `Text.StrLeAntisymmetric` |
| `Text.StrLeTotal` | src/components/DataTable.tsx:120 | any two paths are comparable in the string order |
| `Text.StrLeTransitive` | src/components/DataTable.tsx:120 | the string order is transitive |
| `Text.StrLeAntisymmetric` | src/components/DataTable.tsx:120 | two paths that each sort before the other are the same path |
| `Sorting.SortBy` | src/components/DataTable.tsx:101 | definition of the stable `Array.prototype.sort` (also at :120, :125 and :199); properties in `Sorting.SortByCorrect` and `Sorting.SortByExtends` |
| `Sorting.SameKeyIff` | src/components/DataTable.tsx:101 | a comparator returns 0 exactly when the compared field is equal |
| `Sorting.SortByCorrect` | src/components/DataTable.tsx:101 | the sort orders by its key, is a permutation of its input, and keeps records with equal keys in input order (stability) |
| `Sorting.SortByExtends` | src/components/DataTable.tsx:119-126 | a stable sort by k of records already ordered by keys ks orders them by k, then by ks among ties |
| `Sorting.SortedTiesUnique` | src/components/DataTable.tsx:99-126 | two orderings of the same records that are both ordered by ks and agree within each class of full ties are equal |
| `Filtering.StatusMatches` | src/components/DataTable.tsx:104-108 | definition of the status filter predicate; properties in `Filtering.StatusFilterExact` |
| `Filtering.PathMatches` | src/components/DataTable.tsx:111-116 | definition of the path filter predicate, through `Text.Lower` and `Text.Contains`; properties in `Filtering.PathFilterMeaning` and `Filtering.PathFilterCaseInsensitive` |
| `Filtering.Passes` | src/components/DataTable.tsx:104-116 | definition: each non-empty filter matches; properties in `Filtering.PassingStage` |
| `Filtering.ThenSorted` | src/components/DataTable.tsx:119-126 | definition of the two optional sorts, by path then by status; properties in `Filtering.SortOrderMeaning` and `Filtering.OnFilter` |
| `Filtering.OnFilter` | src/components/DataTable.tsx:99-126 | the rows are exactly the records that pass both filters, each with its multiplicity; they are ordered by the sort order of the flags; records that tie on every sorted key keep input order |
| `Filtering.PassingStage` | src/components/DataTable.tsx:104-116 | the status filter followed by the path filter keeps exactly the records for which each non-empty filter matches |
| `Filtering.FilterResultUnique` | src/components/DataTable.tsx:99-126 | the contract of `onFilter` fixes its result: any two results that meet it are equal |
| `Filtering.FilterIdempotent` | src/components/DataTable.tsx:99-126 | running `onFilter` on its own result with the same controls gives that result back |
| `Filtering.NoMatchGivesEmpty` | src/components/DataTable.tsx:104-116 | when no record passes the filters, the table is empty |
| `Filtering.SortOrderMeaning` | src/components/DataTable.tsx:119-126 | the order is by status code if that flag is set; then by path among equal codes if that flag is set; then by timestamp among the remaining ties; and this holds in both directions |
| `Filtering.ResultOrder` | src/components/DataTable.tsx:119-126 | every earlier row stands in that order to every later row |
| `Text.IntToStringInjective` | src/components/DataTable.tsx:106 | two status codes render as the same text exactly when they are the same code |
| `Text.Lower` | src/components/DataTable.tsx:113 | ASCII `toLowerCase`: the result has the length of the input; properties in `Filtering.PathFilterCaseInsensitive` |
| `Text.Contains` | src/components/DataTable.tsx:113 | definition of `includes`; properties in `Text.ContainsIff` |
| `Text.ContainsIff` | src/components/DataTable.tsx:113 | `includes` holds exactly when the substring occurs at some position |
| `Filtering.StatusFilterExact` | src/components/DataTable.tsx:104-108 | the status filter is an exact match: the rendering of n selects code n and no other code, so no partial match |
| `Filtering.PathFilterMeaning` | src/components/DataTable.tsx:111-116 | the path filter matches exactly when the lower-cased filter occurs in the lower-cased path, and any occurrence of the filter as written is such a match |
| `Filtering.PathFilterCaseInsensitive` | src/components/DataTable.tsx:111-116 | a filter and its lower-cased form select the same records |
| `Charts.ChartRecords` | src/components/DataTable.tsx:197-199 | definition of the chart selection and its timestamp sort; properties in `Charts.ChartRecordsCorrect` |
| `Charts.ShowCharts` | src/components/DataTable.tsx:189-191 | definition of the condition under which the charts are drawn; properties in `Charts.ShowChartsIff` |
| `Charts.ChartRecordsCorrect` | src/components/DataTable.tsx:197-199 | the chart records are the records whose path equals the filter up to case, with their multiplicity, in ascending timestamp order, with equal timestamps in data order |
| `Charts.ChartRecordsLength` | src/components/DataTable.tsx:197-199 | sorting the chart selection by timestamp keeps as many records as the selection holds |
| `Charts.ShowChartsIff` | src/components/DataTable.tsx:189-191 | the charts are drawn exactly when the filter is non-empty and some record's path equals it, which is exactly when the line series is non-empty |
| `Charts.LineSeries` | src/components/DataTable.tsx:197-203 | one line point per chart record |
| `Charts.LineSeriesPoints` | src/components/DataTable.tsx:200-203 | each line point is the formatted date and the response time of a record of the data whose path equals the filter |
| `Charts.SeriesShareDates` | src/components/DataTable.tsx:216-217 | the bar chart has the same x values as the line chart, point for point |
| `Charts.ChartPathPassesTableFilter` | src/components/DataTable.tsx:198 | a record the charts show also passes the table's path filter with the same text |
| `Charts.BarSeries` | src/components/DataTable.tsx:213-219 | one bar per chart record, as written |
| `Charts.BarSeriesCountsAllPaths` | src/components/DataTable.tsx:218 | as written, a bar's height is the number of error records of every path on its record's calendar day, for valid dates and a four-digit year on the bar's own record |
| `Charts.BarSeriesCountsOtherPath` | src/components/DataTable.tsx:218 | for data with "/a" at status 200 and "/b" at status 500 on the same day, the bar for "/a" is 1 as written and 0 when corrected |
| `Charts.BarSeriesForPath` | src/components/DataTable.tsx:210-219 | corrected: one bar per chart record |
| `Charts.BarSeriesForPathCounts` | src/components/DataTable.tsx:210-219 | corrected, a bar's height is the number of error records of the filtered path on its record's calendar day |
| `Charts.BarSeriesForPathBounds` | src/components/DataTable.tsx:210-219 | a corrected bar never exceeds the bar as written, and a record that is itself an error makes its own bar at least 1 |

## Left out

- React state, effects and JSX markup. `onFilter` is a method of the records and the four controls (`Filtering.FilterState`), and the charts are functions of the records and the path filter.
- Loading the records from `mock-request-data.json`: the records are a parameter.
- `Date.parse` and `new Date` on a record's timestamp string, and the time zone: the timestamp integer and the local calendar date are fields of the record. A timestamp that does not parse, and the NaN comparator it would cause, are not modelled.
- `new Date` on the target date string: only the ISO date-only form "YYYY-MM-DD" is parsed. JavaScript reads that form as UTC midnight while `formatDate` reads the local date, so in time zones west of UTC the day shifts back by one. The model takes the date as written. Other date formats the engine accepts are treated as Invalid Date.
- `Records.ParseDate`: it accepts day 31 in every month. What `new Date` does with an impossible date such as "2024-02-31" depends on the JavaScript engine: some roll it over into the next month, others give an Invalid Date. The model does neither.
- The locale rules of `localeCompare`, and Unicode case mapping in `toLowerCase`: replaced by code-point order and ASCII lower-casing. A Dafny `char` is a Unicode scalar value, so for characters outside the Basic Multilingual Plane this order can differ from the UTF-16 code-unit order of JavaScript strings.
- Floating-point rounding of the totals and averages: response times are exact reals.
- `toFixed(2)` when the averages are displayed.
- Object-key quirks of JavaScript dictionaries, such as inherited keys like `__proto__` or `constructor`: each map key is just the path string.
- `LineChart`, `BarChart` and `YAxis`, which are the d3 scales, brush, axes and rendering: LineChart.tsx, BarChart.tsx and YAxis.tsx are not part of this model.

## Findings

| source | as written | input that shows it | evidently intended | confidence | as-written member | corrected member |
|---|---|---|---|---|---|---|
| src/components/DataTable.tsx:218 | each bar's y is `getErrorCountByDate(data, date)` over all records, whatever their path | "/a" answered 200 and "/b" answered 500 on the same day, with path filter "/a": the "/a" bar is 1 | the error count of that day among the filtered path's records, as the chart's title "Error Count Over Time" for the path says | medium, not executed | `Charts.BarSeriesCountsOtherPath` | `Charts.BarSeriesForPathCounts` |
