# Advertising metrics aggregation, modelled in Dafny

`app.py` turns a spreadsheet of dated advertising records into two reports for a date range
chosen in the interface:

- `calculate_metrics_by_date` groups by placement (`광고 노출 지면`) and appends a total row `전체`;
- `calculate_metrics_by_keyword` groups by keyword (`키워드`) and sorts the groups by impressions,
  largest first.

Both functions do the same steps. They rewrite the caller's `날짜` column by turning each cell
to text and parsing it as `%Y%m%d`, with failures coerced to NaT. They drop the rows whose date is
NaT (and, for keywords, the rows without a keyword) and keep the rows inside the range, both ends
included. If nothing is left the result is empty (the warning). Otherwise they sum the five
counters per key: impressions `노출수`, clicks `클릭수`, orders `총 주문수(1일)`, revenue
`총 전환매출액(1일)` and spend `광고비`. From each row's own sums they derive click rate,
conversion rate, CPC, ROAS and cost per conversion.

The model is one pipeline parameterised by the grouping column:

| module | file | what it holds |
|---|---|---|
| `Wrappers` | wrappers.dfy | `Option`, `Result` |
| `Dates` | dates.dfy | calendar days, the two readers behind the `%Y%m%d` format (numpy's C reader and the strptime pattern), the range of days a pandas Timestamp can hold |
| `Frame` | frame.dfy | spreadsheet cells and records, `astype(str)` per cell, the date conversion as a function and as an in-place loop over an `array` |
| `Grouping` | grouping.dfy | Python `str` order, the sorted distinct keys `groupby` builds, group sums against a reference column sum |
| `Ratios` | ratios.dfy | quotients with IEEE `inf`/`nan` for a zero denominator, the five derived columns, Python `int` division |
| `Summary` | summary.dfy | report rows, the intended total row and the total row as written |
| `Ordering` | ordering.dfy | the sort by impressions, descending |
| `Metrics` | metrics.dfy | the filter, both reports, and the two functions as methods that rewrite the caller's table |
| `Scenarios` | scenarios.dfy | small worked sheets |

Design decisions:

- **Date parsing** follows pandas 2 for the `%Y%m%d` format, which has two readers.
  - numpy's C reader goes first. It takes exactly eight ASCII digits that name a real proleptic
    Gregorian day.
  - When the C reader refuses a text, pandas falls back to the strptime pattern: four year
    digits, the month group `1[0-2]|0[1-9]|[1-9]`, then the day group
    `3[0-1]|[1-2]\d|0[1-9]|[1-9]| [1-9]`. `re.match` tries the alternatives in order. It moves to
    the next month alternative only when no day alternative matches after the current one. The
    match must end at the end of the text.
  - So `2024105` is 5 October, `202415` is 5 January and `202410 5` is 5 October.
  - A one-digit January followed by a two-digit day below 30 that does not end in 0 is misread as
    October to December (`Dates.Misread`).
  - The C reader accepts nothing that the pattern reads differently (`Dates.IsoAgreesWithStrptime`).
  - The day must also lie between 1677-09-22 and 2262-04-11, the whole days a nanosecond
    Timestamp holds. Anything else is NaT.
- **Cell text.**
  - An integer cell renders in decimal.
  - A text cell renders as itself.
  - An empty cell renders as `nan`.
  - A parsed cell renders as `YYYY-MM-DD`.
  - NaT renders as `NaT`.
  So converting a converted column again loses every date. The interface avoids this by deep-copying the frame for each call.
- **Ordering.** Keys are ordered as Python orders `str`: by code point, and a proper prefix
  first. `groupby` sorts its keys this way.
- **No zero guard.** In the group rows a zero denominator gives `inf` or `nan`, never `0` and
  never an error. A guarded version would show 0; the code has no guard.
- **The total row can raise.** Line 27 stores text in `total_row`, so lines 28-31 divide Python
  `int`s. When the summed clicks, spend or orders are zero, `calculate_metrics_by_date` raises
  `ZeroDivisionError` instead of returning; the model's outcome is then `Raised`. The keyword
  function has no total row and never raises. `IntendedPlacementTable` is the corrected
  placement table, with the group rows' `inf`/`nan` rule in the total row too.
- **Unplaced rows.** In placement mode the emptiness test comes before `groupby` drops the rows
  without a placement. A range holding only such rows therefore passes the test, every total is
  zero, and app.py:28 raises.

## Model

| member | source | states |
|---|---|---|
| Dates.ParseYmd | app.py:10 | converting a text gives a real day inside the Timestamp range, or NaT |
| Dates.ParseYmdIff | app.py:10 | a text converts to a day exactly when it spells that day in a way the format reads back and the day is real and representable. A spelling is four year digits, a one- or two-digit month, then a two-digit, one-digit or space-and-digit day, except the misread January spellings |
| Dates.FormattedDayParses | app.py:10 | `YYYYMMDD` of a real representable day converts to that day |
| Dates.IsoAgreesWithStrptime | app.py:10 | whatever the C reader accepts, the strptime fallback reads as the same day |
| Dates.ParseYmdIsStrptime | app.py:10 | the conversion is the strptime pattern's reading, bounded to the Timestamp range |
| Dates.StrptimeSpells | app.py:10 | what the pattern reads is a real day, and the text is a spelling of it that is not misread |
| Dates.StrptimeReadsSpelling | app.py:10 | the pattern reads every spelling of a real day with a four-digit year, except the misread ones, as that day |
| Dates.IsoTextIsNotYmd | app.py:10 | a `YYYY-MM-DD` text converts to NaT |
| Dates.OutOfBoundsDayIsNaT | app.py:10 | a real day outside the Timestamp range is NaT although its text is well formed |
| Frame.CellText | app.py:10 | `astype(str)` of one cell: decimal for an integer, the text itself, `nan`, `YYYY-MM-DD` or `NaT`; what this means for conversion is stated by Frame.ParseCellIff and Frame.ConvertTwiceLosesDates |
| Frame.ParseCell | app.py:10 | converting a cell gives a Timestamp of a real representable day, or NaT |
| Frame.ParseCellIff | app.py:10 | converting a cell gives the Timestamp of a day exactly when the cell's text spells that day in a way the format reads back and the day is real and representable |
| Frame.ConvertDateColumn | app.py:10 | the table with every date cell converted; its contract is stated by Frame.ConvertDateColumnInPlace and Frame.ConvertTwiceLosesDates |
| Frame.IntegerDateCellParses | app.py:10 | an integer cell such as 20241005 converts to its day |
| Scenarios.SevenDigitCell | app.py:10 | the integer 2024105 converts to 5 October 2024 |
| Scenarios.SixDigitCell | app.py:10 | the integer 202415 converts to 5 January 2024 |
| Scenarios.SpacedDayCell | app.py:10 | the text `202410 5` converts to 5 October 2024 |
| Frame.ConvertTwiceLosesDates | app.py:10 | converting a converted table again turns every date into NaT and keeps the row count |
| Frame.ConvertDateColumnInPlace | app.py:10 | the caller's table after the assignment: every date converted, every other column and the row count unchanged |
| Grouping.InsertKey | app.py:17 | adding a key to ascending distinct keys keeps them ascending and distinct, and adds exactly that key |
| Grouping.KeySet | app.py:17 | the group keys are exactly the keys some row has; missing keys are no key |
| Grouping.SortedKeys | app.py:17 | the group index is strictly ascending and holds exactly the distinct keys |
| Grouping.GroupSum | app.py:17 | groups come out in ascending key order, one per distinct non-missing key, each holding the reference sums over its rows |
| Grouping.GroupSumTotal | app.py:26 | the column sums of the groups equal the sums over every row that has a key |
| Grouping.GroupSumSkipsUnkeyed | app.py:17 | a row without a key changes no group |
| Ratios.QuotientMeaning | app.py:18 | series division is the exact quotient for a nonzero denominator, `inf` for a positive numerator over zero, `nan` for zero over zero |
| Ratios.PercentOfQuotient | app.py:18 | multiplying by 100 scales the quotient and leaves `inf` and `nan` as they are |
| Ratios.RatiosOf | app.py:18-22 | the five derived columns of one row from its own sums; their meaning is stated by Ratios.RatiosOfMeaning |
| Ratios.RatiosOfMeaning | app.py:18-22 | each derived column is its numerator over its denominator, scaled by 100 where the code does, from the row's own sums |
| Ratios.NoZeroGuard | app.py:19-20 | zero clicks make conversion rate and CPC `inf` or `nan`, never a number |
| Ratios.PyDivide | app.py:28 | Python `int` division raises exactly on a zero divisor and otherwise is the exact quotient |
| Summary.WithRatios | app.py:18-22 | one report row per group, in group order, with the group's key, its sums and the ratios of those sums |
| Summary.TotalRow | app.py:26-31 | the intended total row; its contents are stated by Metrics.IntendedTotalRow |
| Summary.TotalRowAsWritten | app.py:26-31 | the total row as the code computes it; when it raises is stated by Summary.TotalRowAsWrittenRaisesIff |
| Summary.BuildTotalRow | app.py:26-33 | computing the total row field by field, stopping at the first division by zero, gives the total row as written. It raises exactly when summed clicks, spend or orders are zero, and otherwise gives the intended total row |
| Summary.TotalRowAsWrittenRaisesIff | app.py:26-31 | the total row as written raises exactly when summed clicks, spend or orders are zero, and otherwise equals the intended total row |
| Summary.NoOrdersCrashesTotalRow | app.py:31 | a range with no orders: the code raises while the intended total row shows `inf` |
| Ordering.InsertByImpressions | app.py:57 | inserting into rows ordered by impressions keeps them ordered and adds exactly that row |
| Ordering.SortByImpressions | app.py:57 | the sorted rows are a permutation of the input in non-increasing order of impressions |
| Metrics.Kept | app.py:11-12 | a row is kept when its date parsed, lies between the bounds inclusive and, for keywords, the row has a keyword |
| Metrics.Window | app.py:11-12 | the kept rows in table order; its contents are stated by Metrics.WindowMembers |
| Metrics.WindowMembers | app.py:11-12 | the filtered rows are exactly the rows with a parsed date between the bounds (and, for keywords, a keyword) |
| Metrics.BoundaryDaysKept | app.py:12 | a row dated exactly on the first or the last day is kept |
| Metrics.PlacementTable | app.py:13-35 | the placement report over the filtered rows as written; it is empty exactly when no row is kept |
| Metrics.IntendedPlacementTable | app.py:13-35 | the placement report as intended; it is empty exactly when no row is kept, never raises, and ends with the `전체` row |
| Metrics.KeywordTable | app.py:44-57 | the keyword report over the filtered rows; it is empty exactly when no row is kept and never raises |
| Metrics.MetricsBy | app.py:11-57 | either report over the rows the filter keeps; it is empty exactly when no row is kept, and the keyword report never raises |
| Metrics.NoDataIff | app.py:13-15 | the result is empty exactly when no row is kept; it is empty whenever the start is after the end |
| Metrics.WindowColumnSum | app.py:12-17 | summing a group over the filtered rows is summing the kept rows of that group over the whole table |
| Metrics.ExcludedRowIgnored | app.py:11-12 | a row with NaT, a date outside the range or (for keywords) no keyword changes neither report |
| Metrics.UnplacedRowInNoGroup | app.py:13-28 | a kept row without a placement changes no group; a range holding only such rows raises `ZeroDivisionError` |
| Metrics.UnplacedRowAlone | app.py:17-28 | with only unplaced rows the code raises, while the intended table holds a zero total row with every ratio `nan` |
| Metrics.PlacementAgreement | app.py:26-33 | over a non-empty window the placement table raises `ZeroDivisionError` exactly when the placed rows sum to zero clicks, spend or orders, and otherwise equals the intended table |
| Metrics.PlacementOutcome | app.py:9-35 | the placement report is empty when no row is kept, raises on zero summed clicks, spend or orders, and is the intended table otherwise |
| Metrics.PlacementGroupsOfWindow | app.py:17-22 | in the intended table, every row but the last is a group; names strictly ascend and are exactly the window's placements, each with its sums and their ratios |
| Metrics.IntendedTotalRow | app.py:26-33 | the intended total row, for every non-empty window, is `전체` with the sums over all placed rows and ratios recomputed from them |
| Metrics.PlacementGroupRows | app.py:17-22 | when some row is kept and the total row does not raise: every row but the last is a group; names strictly ascend and are exactly the kept rows' placements; each holds its rows' sums and ratios from them |
| Metrics.PlacementTotalRow | app.py:26-33 | when some row is kept and the total row does not raise: the last row is `전체`, its counters the column sums of the groups and of all placed kept rows, its ratios recomputed from those sums |
| Metrics.KeywordRows | app.py:49-57 | the keyword table is a permutation of the keyword groups in non-increasing impressions, with no total row; its names are exactly the kept rows' keywords, each with its sums and ratios |
| Metrics.ReconvertedTableHasNoData | app.py:10 | calling either function again on a table it has already converted gives the empty result |
| Metrics.CalculateMetricsByDate | app.py:9-35 | rewrites the caller's date column and returns the placement report of the converted table, `Raised` where the total row raises |
| Metrics.CalculateMetricsByKeyword | app.py:39-57 | rewrites the caller's date column and returns the keyword report of the converted table |
| Scenarios.OneRowPlacementReport | app.py:9-35 | one row dated 20241005 in 2024-10-01..10: one group and an equal total row, with rates 10 %, 10 %, CPC 100, ROAS 500 %, 1000 per order |
| Scenarios.NoOrdersRaises | app.py:28-31 | a one-row sheet with no orders raises `ZeroDivisionError`, while the intended table's total row shows `inf` per order |
| Scenarios.OutOfRangeGivesNoData | app.py:13-15 | the same sheet asked for November gives the empty result |
| Scenarios.KeywordsByImpressions | app.py:49-57 | a keyword that sorts first but has fewer impressions is listed second |

## Left out

- The Streamlit interface (title, uploader, date pickers, button, `st.write`, app.py:61-91) is not modelled. The `st.warning` call (app.py:14, app.py:45) appears only as the `NoData` outcome.
- An uncaught `ZeroDivisionError` propagates out of `calculate_metrics_by_date` into the interface. The model returns it as the `Raised` outcome, and what the interface then shows is not modelled.
- `pd.read_excel` (app.py:68) and the `copy.deepcopy` calls (app.py:70-71) are I/O and plumbing and are not modelled. The deep copy's purpose is stated by `Metrics.ReconvertedTableHasNoData`.
- Rounding to two places, float text and the `%`/`원` suffixes (app.py:18-22, app.py:27-31) are not modelled. Ratios are exact `real` quotients, with `inf`/`nan` kept as distinct values.
- The column rename at app.py:23 only changes labels. The model names counters by field.
- `astype(int)` at app.py:26 is the identity, because counters are `nat`. Truncation of fractional counters is not modelled.
- int64 overflow of counter sums is not modelled. Integers are unbounded.
- Date cells are integers, text, empty, Timestamp or NaT. A float column, such as an integer column that pandas promoted because one cell is empty, renders as `20241005.0`. That value would be NaT and is not modelled.
- Parsing as other pandas versions do it for `%Y%m%d` is not modelled. Those versions may treat some texts differently.
- Dates.ParseYmdIff: the `\d` of the strptime pattern also matches Unicode decimal digits other than ASCII (in a year such as `٢٠٢٤`), and Python's `int` reads them. The model takes ASCII digits only, so such a text is NaT in the model while the source converts it.
- Frame.ParseCellIff: the texts `now` and `today` convert to the current date and time, a clock read. The model has no clock and gives NaT for them.
- Metrics.KeywordRows: the order among keywords with equal impressions is not stated. The source's sort does not promise one, so only the non-increasing order and the permutation are proved.
- The conversion of `start_date`/`end_date` through `pd.to_datetime` (app.py:79-80) is not modelled. Bounds are calendar days.

## Findings

| source | as written | input that shows it | evidently intended | confidence | as-written member | corrected member |
|---|---|---|---|---|---|---|
| app.py:28-31 | Line 27 stores text in `total_row`, which makes it an object Series. Lines 28-31 therefore divide Python `int`s and raise `ZeroDivisionError` when summed clicks, spend or orders are zero. | a range whose rows have 100 impressions, 10 clicks, 0 orders, 0 revenue, 1000 spend | the total row gets the same `inf`/`nan` the group rows get at app.py:19-22 | medium, not executed | Metrics.PlacementTable (through Summary.TotalRowAsWritten), shown by Metrics.PlacementAgreement, Summary.NoOrdersCrashesTotalRow and Scenarios.NoOrdersRaises | Metrics.IntendedPlacementTable (through Summary.TotalRow), proved in Metrics.IntendedTotalRow, Metrics.PlacementGroupsOfWindow and Ratios.RatiosOfMeaning |
