# Trading journal: R:R progression chart and trade calendar

This project models the two computations of the trading journal's
dashboard components and proves what they promise.

- **The R:R progression chart** (`src/components/RRProgressionChart.js`).
  `filterTradesByTimeframe` keeps the trades whose `open_date` falls in
  the selected window: `all`, `week`, `month`, `year`, `lastyear` or
  `custom`. `processTradeData` then turns those trades into chart points.
  It sorts a copy of the trades by `open_date` and adds up
  `parseFloat(rr) || 0` as it goes. It labels the earliest trade of each
  calendar month with the month's name, and adds the two-digit year for
  January and for the first month of the series. An effect recomputes
  the points and the visibility of the custom date picker whenever the
  selector, the custom range or the `trades` prop changes.
- **The trade calendar** (`src/components/CalendarView.js`). A `reduce`
  indexes the trades by the day they opened on. The last trade of a day
  wins, and trades without `open_date` are skipped. `calendarGrid` lays
  out the viewed month: one blank cell per weekday before the 1st, then
  one cell per day. Each day is shaded green, red or grey by the sign of
  its recorded R:R and shows that R:R when the day has an entry.

Modules:
- `Wrappers`: `Option`.
- `Dates`: civil dates with months 0..11 as `getMonth` numbers them, instants as a date plus milliseconds of the day, their order, day stepping, the weekday with Sunday as 0, and the days of a month.
- `Trades`: the trade record. An R:R is a number or a value `parseFloat` reads as NaN, and its running total is `SumRR`.
- `Text`: decimal rendering of numbers and `slice(-2)`.
- `TimeframeFilter`: `filterTradesByTimeframe`.
- `CumulativeSeries`: `processTradeData`, together with a specification `Series` of the points it returns.
- `RRChart`: the chart component's state as a class whose methods are the state updates and the effect.
- `CalendarView`: the day index and the month grid.

The current time, which the source reads with `new Date()`, is a parameter `now`.
The custom range inputs start as empty strings; the model writes those as `None`.

The `lastyear` window in the source ends at 00:00 on December 31 (see Findings).
The filter uses that window as written, and the model states exactly which
trades it keeps and the one it misses. Beside it, the corrected window, which
ends at 23:59:59.999 on December 31 the way the `custom` window ends its last
day, is proved to keep exactly the trades of the previous calendar year.

An `open_date` instant is a `CalendarInstant`: its day is one the calendar has,
as the day of a JavaScript `Date` always is.

## Model

| member | source | states |
|---|---|---|
| Dates.DaysInMonth | src/components/CalendarView.js:20 | a month has 28 to 31 days, and fewer than 30 exactly for February |
| Dates.AtOrBeforeIsTotalOrder | src/components/RRProgressionChart.js:18-20 | the order of `open_date` instants the sort compares by is reflexive, total, antisymmetric and transitive |
| Dates.NextDay | src/components/CalendarView.js:21 | the day after a valid date is a valid, strictly later date |
| Dates.PrevDay | src/components/RRProgressionChart.js:87 | the day before a valid date is valid, and the day after it is the date itself |
| Dates.SubtractDays | src/components/RRProgressionChart.js:86-87 | stepping back `n` days gives a valid date that is not later, and is earlier when `n > 0` |
| Dates.AddDaysUndoesSubtractDays | src/components/RRProgressionChart.js:86-87 | stepping forward `n` days undoes stepping back `n` days |
| Dates.Weekday | src/components/CalendarView.js:26 | `getDay()` of a date is a weekday number 0 to 6 |
| Dates.EpochIsThursday | src/components/CalendarView.js:26 | the weekday formula puts 1 January 1970 on a Thursday (4) |
| Dates.WeekdayOfNextDay | src/components/CalendarView.js:26 | consecutive days fall on consecutive weekdays, across month and year ends |
| Dates.DaysOfMonth | src/components/CalendarView.js:19-21 | `eachDayOfInterval` from the start to the end of a month: one valid date per day of the month, from the 1st to the last, each the day after the previous one |
| Trades.RROrZero | src/components/RRProgressionChart.js:43 | `parseFloat(rr) \|\| 0` is the R:R itself when it is a number and 0 when it is NaN |
| Trades.SumRRAppend | src/components/RRProgressionChart.js:41-43 | the running total over two consecutive stretches of trades is the sum of their totals |
| Trades.SumRRPermutation | src/components/RRProgressionChart.js:41-43 | the running total after the last trade does not depend on the order the trades come in |
| Text.NatToString | src/components/RRProgressionChart.js:67 | the decimal text of a number is non-empty, all digits, without a leading zero, and ends in the number's last digit |
| Text.NatToStringRoundTrip | src/components/RRProgressionChart.js:67 | reading the decimal text back gives the number |
| Text.LastTwo | src/components/RRProgressionChart.js:59 | `slice(-2)` keeps at most two characters, and they are the end of the string |
| Text.YearSuffixDigits | src/components/RRProgressionChart.js:59 | the two-character suffix of a year of two or more digits is its tens digit followed by its units digit |
| TimeframeFilter.WeekAgo | src/components/RRProgressionChart.js:86-87 | `weekAgo` is a valid date at the same clock time, seven days before now |
| TimeframeFilter.Admits | src/components/RRProgressionChart.js:88-90 | a window is tested with `>=` against its start and `<=` against its end, so a range whose end precedes its start admits no trade |
| TimeframeFilter.LastYearWindowAsWritten | src/components/RRProgressionChart.js:109-117 | the window built from `new Date(year - 1, 0, 1)` and `new Date(year - 1, 11, 31)` admits exactly the trades of last year, and on its December 31 only those opened at 00:00 |
| TimeframeFilter.LastYearAsWrittenMissesDecember31 | src/components/RRProgressionChart.js:111-115 | a trade at noon on December 31 of last year is outside the window as the source builds it |
| TimeframeFilter.LastYearWindowIsPreviousYear | src/components/RRProgressionChart.js:109-117 | the corrected `lastyear` window admits a trade exactly when it opened in the previous calendar year |
| TimeframeFilter.CorrectedLastYearFilter | src/components/RRProgressionChart.js:109-117 | filtering by the corrected window keeps exactly the trades opened in the previous calendar year |
| TimeframeFilter.WindowFor | src/components/RRProgressionChart.js:83-139 | the selector's window has no bound exactly for `all`, an unknown selector and `custom` with a bound missing; the `week`, `month`, `year` and `lastyear` windows start no later than now, and `lastyear` also ends no later than now |
| TimeframeFilter.Keep | src/components/RRProgressionChart.js:88-90 | `filter` keeps no more trades than it is given, and keeps a trade exactly when it is in the input and in the window |
| TimeframeFilter.KeptIndices | src/components/RRProgressionChart.js:88-90 | the positions `filter` keeps are increasing, in range, in the window, and include every admitted position |
| TimeframeFilter.KeepIsOrderedSubsequence | src/components/RRProgressionChart.js:79-142 | the filtered list is the input's trades at those positions, in their original order |
| TimeframeFilter.KeepUnboundedIsIdentity | src/components/RRProgressionChart.js:136-138 | a window without bounds keeps the list as it is |
| TimeframeFilter.FilterTradesByTimeframe | src/components/RRProgressionChart.js:79-142 | the result is the input filtered by the window of the selector as the source builds it |
| TimeframeFilter.UnfilteredSelectors | src/components/RRProgressionChart.js:119-138 | `all`, an unknown selector and `custom` with a bound missing return `trades` unchanged |
| TimeframeFilter.WeekSelector | src/components/RRProgressionChart.js:84-91 | `week` keeps exactly the trades opened no earlier than the same clock time seven days ago |
| TimeframeFilter.MonthSelector | src/components/RRProgressionChart.js:93-99 | `month` keeps exactly the trades opened in the current month or later |
| TimeframeFilter.YearSelector | src/components/RRProgressionChart.js:101-107 | `year` keeps exactly the trades opened in the current year or later |
| TimeframeFilter.LastYearSelector | src/components/RRProgressionChart.js:109-117 | `lastyear` keeps exactly the trades opened from 00:00 on January 1 of last year up to 00:00 on its December 31: the trades of last year, except those opened later than 00:00 on December 31 |
| TimeframeFilter.CustomSelector | src/components/RRProgressionChart.js:119-130 | `custom` with both bounds keeps exactly the trades opened on a day from the start date to the end date, both days included |
| CumulativeSeries.InsertByOpenTime | src/components/RRProgressionChart.js:18-20 | one insertion step adds the trade and loses none |
| CumulativeSeries.InsertKeepsSorted | src/components/RRProgressionChart.js:18-20 | inserting into a list sorted by `open_date` keeps it sorted |
| CumulativeSeries.SortByOpenTime | src/components/RRProgressionChart.js:18-20 | the sorted copy is a permutation of the trades, ascending by `open_date` |
| CumulativeSeries.InsertPutsTiesAfter | src/components/RRProgressionChart.js:18-20 | an inserted trade goes before the trades opened at the same instant |
| CumulativeSeries.SortIsStable | src/components/RRProgressionChart.js:18-20 | the sort keeps the input order of trades opened at the same instant |
| CumulativeSeries.OpenTimes | src/components/RRProgressionChart.js:23 | `allDates` has one instant per sorted trade and is ascending |
| CumulativeSeries.FirstByMonth | src/components/RRProgressionChart.js:24-35 | every date's year-month is a key of `monthsMap` |
| CumulativeSeries.FirstByMonthValue | src/components/RRProgressionChart.js:26-35 | each value of `monthsMap` is one of the dates, of the key's month |
| CumulativeSeries.FirstByMonthIsMinimal | src/components/RRProgressionChart.js:26-35 | over ascending dates, `monthsMap` holds a date no later than any date of its month |
| CumulativeSeries.FirstByMonthIsEarliest | src/components/RRProgressionChart.js:45-49 | `isMonthStart` holds exactly for the dates no later than every date of their month |
| CumulativeSeries.MonthMarkers | src/components/RRProgressionChart.js:38 | the first month marker is the first date |
| CumulativeSeries.FindIndex | src/components/RRProgressionChart.js:58 | `findIndex` is -1 exactly when the date is no marker, and is otherwise the position of its first occurrence |
| CumulativeSeries.DisplayDateText | src/components/RRProgressionChart.js:67 | `displayDate` is the three-letter month name, a space, and the decimal text of the day of the month |
| CumulativeSeries.MonthWithYearText | src/components/RRProgressionChart.js:59 | the year label is the month name, a space and an apostrophe, then the tens and units digits of the year |
| CumulativeSeries.LabelFromMarkers | src/components/RRProgressionChart.js:45-63 | the label computed from `monthsMap` and `monthMarkers` is the specified label of the point |
| CumulativeSeries.CollectMonths | src/components/RRProgressionChart.js:23-38 | the `forEach` loop builds `monthsMap` and `monthMarkers` as specified |
| CumulativeSeries.PointFor | src/components/RRProgressionChart.js:42-73 | the `map` callback, given the running total so far, returns the specified point of its trade |
| CumulativeSeries.ChartPoints | src/components/RRProgressionChart.js:41-73 | the `map` loop with its `cumulativeRR` accumulator returns one specified point per sorted trade |
| CumulativeSeries.ProcessTradeData | src/components/RRProgressionChart.js:12-76 | `processTradeData` returns the specified series, which is empty for an empty list |
| CumulativeSeries.SeriesIsSortedCopy | src/components/RRProgressionChart.js:18-23 | one point per trade, ascending by date, carrying exactly the input's dates and R:R values |
| CumulativeSeries.PointRunningTotal | src/components/RRProgressionChart.js:41-43 | each point's total is the previous point's total plus its own R:R |
| CumulativeSeries.PointTotalsRun | src/components/RRProgressionChart.js:41-43 | along any list the first total is the first R:R, each total adds its R:R to the previous one, and the last is the sum of all |
| CumulativeSeries.CumulativeIsRunningTotal | src/components/RRProgressionChart.js:41-71 | the first total is the first R:R, each later total adds the point's R:R, and the last total is the sum over all trades |
| CumulativeSeries.LabelMarksFirstTradeOfMonth | src/components/RRProgressionChart.js:45-57 | a point is labelled exactly when no trade of its calendar month opened earlier |
| CumulativeSeries.LabelNamesYear | src/components/RRProgressionChart.js:52-63 | a label carries the year suffix when the month is January or the point is the earliest trade overall, and is the bare month name otherwise |
| CumulativeSeries.SeriesIgnoresInputOrder | src/components/RRProgressionChart.js:18-20 | two inputs with the same trades at every instant, in the same order, give the same series |
| CumulativeSeries.ThreeTradeExample | src/components/RRProgressionChart.js:12-76 | trades of Feb 1, Jan 5 and Jan 20 2024 with R:R 2, 1 and -0.5 give totals 1, 0.5 and 2.5 and labels "Jan '24", "" and "Feb" |
| RRChart.RRProgressionChart.constructor | src/components/RRProgressionChart.js:5-9 | the component starts on `all`, with an empty range, no points and the picker hidden |
| RRChart.RRProgressionChart.Refresh | src/components/RRProgressionChart.js:145-150 | the effect shows the series of the filtered trades and shows the picker exactly for `custom`, leaving its inputs alone |
| RRChart.RRProgressionChart.HandleTimeframeChange | src/components/RRProgressionChart.js:153-155 | a new selector is stored and the effect shows its series |
| RRChart.RRProgressionChart.SetStartDate | src/components/RRProgressionChart.js:252 | a new start date is stored and the effect shows the series for it |
| RRChart.RRProgressionChart.SetEndDate | src/components/RRProgressionChart.js:265 | a new end date is stored and the effect shows the series for it |
| RRChart.RRProgressionChart.ReceiveTrades | src/components/RRProgressionChart.js:4 | a new `trades` prop is stored and the effect shows its series |
| RRChart.ShownSeriesCoversWindow | src/components/RRProgressionChart.js:145-147 | the chart shows one point per trade of the window, in time order, carrying the window's R:R values, and ends on their sum |
| RRChart.AllShowsEveryTrade | src/components/RRProgressionChart.js:136-138 | with `all` the chart shows the series of every trade |
| CalendarView.LastIndexOn | src/components/CalendarView.js:9-17 | the position found is a trade of that day with no later trade of that day, or -1 when no trade opened on it |
| CalendarView.BuildTradeIndex | src/components/CalendarView.js:9-17 | the `reduce` loop builds the day index as specified |
| CalendarView.TradeIndexHoldsLastTradeOfDay | src/components/CalendarView.js:9-17 | a day has an entry exactly when some trade opened on it, and the entry is the raw `rr` of the last such trade |
| CalendarView.TradeIndexKeysAreTradeDays | src/components/CalendarView.js:10-14 | the keys of the index are exactly the days of trades that have an `open_date` |
| CalendarView.ShadeFor | src/components/CalendarView.js:43-51 | a day is green exactly when it has an entry with a positive R:R, and red exactly when it has one with a negative R:R |
| CalendarView.DayCellFollowsLastTrade | src/components/CalendarView.js:35-65 | a day is green exactly when its last trade's R:R is positive and red exactly when it is negative; it shows a profit exactly when a trade opened on it, and that profit is the last trade's `rr` |
| CalendarView.CalendarGrid | src/components/CalendarView.js:24-71 | the two loops push the specified cells |
| CalendarView.WeekdayOfDayInMonth | src/components/CalendarView.js:26-34 | day `k + 1` of a month falls `k` weekdays after the 1st |
| CalendarView.GridPutsDaysUnderTheirWeekday | src/components/CalendarView.js:19-34 | the grid has `getDay()` of the 1st blanks and then the month's days in order, and every day sits in the column of its own weekday |

## Left out

- `toFixed(2)`: `cumulativeRR` is the exact sum of the R:R values. The chart rounds it to two decimals after adding, and that rounding is not modelled.
- The `parseFloat` grammar and JavaScript's coercion of a string `rr` in the calendar's `profit > 0`: an R:R is already a number or NaN. The chart and the calendar read the same value, although `parseFloat` and `>` parse differently.
- Floating-point arithmetic: R:R values and their sums are exact reals.
- Time zones and daylight saving time: dates are civil dates in one zone. The UTC-versus-local reading of `yyyy-MM-dd` strings and the zone effects of `setHours` are not modelled.
- An `open_date` that is undefined or does not parse: `new Date` would give an Invalid Date, on which `toISOString` throws. Dates are either a valid instant or the backend's `null`. In the chart, `null` is the epoch (`new Date(null)`); in the calendar it is skipped.
- A missing `trades` prop: the list is always present. `processTradeData`'s `!tradesToProcess` guard therefore reduces to the empty-list case.
- `format(date, 'yyyy-MM-dd')`: the calendar index is keyed by the civil date itself, which is the same key as its formatted text.
- The ISO text of `date`, the separate `fullDate` field, and the tooltip's `toLocaleDateString`: a point carries its instant once.
- Month navigation in the calendar (`setMonth(±1)`, with its day overflow): the viewed month is a parameter of `CalendarGrid`.
- The JSX, the CSS classes as text, recharts and the weekday header row: the shade of a day is the colour class the source picks.
- React's scheduling of state updates and effects, and `useCallback` memoisation: each state update in `RRChart` runs the effect at once.
- The sort works on a copy, so the caller's list is not reordered. In the model every list is an immutable value, so this holds by construction and is not stated separately.

## Findings

| source | as written | input that shows it | evidently intended | confidence | as-written member | corrected member |
|---|---|---|---|---|---|---|
| src/components/RRProgressionChart.js:111-115 | `lastyear` ends at `new Date(year - 1, 11, 31)`, which is 00:00 on December 31 | a trade opened at 12:00 on December 31 of last year is dropped from `lastyear` | the whole of last year, December 31 included, as `custom` includes its end day up to 23:59:59.999 | not executed | TimeframeFilter.LastYearAsWrittenMissesDecember31 | TimeframeFilter.CorrectedLastYearFilter |
