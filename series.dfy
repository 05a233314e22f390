/**
 * `processTradeData` of the R:R progression chart: the trades sorted by
 * `open_date`, each turned into a chart point carrying its own R:R, the
 * running total so far, and an axis label on the first trade of each month.
 */
module CumulativeSeries {
  import opened Wrappers
  import opened Dates
  import opened Trades
  import opened Text

  // ---------------------------------------------------------------------------
  // Sorting a copy of the trades by `open_date`

  predicate SortedByOpenTime(s: seq<Trade>) {
    forall i, j :: 0 <= i < j < |s| ==> AtOrBefore(OpenTime(s[i]), OpenTime(s[j]))
  }

  /** Puts `x` before the first trade of `s` that is not earlier than it. */
  function InsertByOpenTime(x: Trade, s: seq<Trade>): (r: seq<Trade>)
    ensures |r| == |s| + 1
    ensures multiset(r) == multiset(s) + multiset{x}
  {
    if s == [] || AtOrBefore(OpenTime(x), OpenTime(s[0])) then
      [x] + s
    else
      assert s == [s[0]] + s[1..];
      [s[0]] + InsertByOpenTime(x, s[1..])
  }

  /** Inserting a later trade behind the head leaves the head no later than anything after it. */
  lemma HeadPrecedesInsertion(x: Trade, s: seq<Trade>)
    requires SortedByOpenTime(s) && s != [] && !AtOrBefore(OpenTime(x), OpenTime(s[0]))
    ensures forall k :: 0 <= k < |InsertByOpenTime(x, s[1..])| ==>
      AtOrBefore(OpenTime(s[0]), OpenTime(InsertByOpenTime(x, s[1..])[k]))
  {
    var rest := InsertByOpenTime(x, s[1..]);
    forall k | 0 <= k < |rest|
      ensures AtOrBefore(OpenTime(s[0]), OpenTime(rest[k]))
    {
      assert rest[k] in multiset(s[1..]) + multiset{x} by {
        assert rest[k] in multiset(rest);
      }
      if rest[k] != x {
        assert rest[k] in s[1..];
        var p :| 0 <= p < |s[1..]| && s[1..][p] == rest[k];
        assert s[p + 1] == rest[k];
      } else {
        AtOrBeforeIsTotalOrder(OpenTime(x), OpenTime(s[0]), OpenTime(x));
      }
    }
  }

  lemma {:induction false} InsertKeepsSorted(x: Trade, s: seq<Trade>)
    requires SortedByOpenTime(s)
    ensures SortedByOpenTime(InsertByOpenTime(x, s))
  {
    if s != [] && !AtOrBefore(OpenTime(x), OpenTime(s[0])) {
      var rest := InsertByOpenTime(x, s[1..]);
      assert SortedByOpenTime(s[1..]);
      InsertKeepsSorted(x, s[1..]);
      HeadPrecedesInsertion(x, s);
      var r := [s[0]] + rest;
      forall i, j | 0 <= i < j < |r|
        ensures AtOrBefore(OpenTime(r[i]), OpenTime(r[j]))
      {
        if i > 0 {
          assert r[i] == rest[i - 1] && r[j] == rest[j - 1];
        } else {
          assert r[j] == rest[j - 1];
        }
      }
    }
  }

  /**
   * `[...trades].sort((a, b) => new Date(a.open_date) - new Date(b.open_date))`:
   * a stable sort of a copy, oldest first.
   */
  function SortByOpenTime(s: seq<Trade>): (r: seq<Trade>)
    ensures |r| == |s|
    ensures multiset(r) == multiset(s)
    ensures SortedByOpenTime(r)
  {
    if s == [] then []
    else
      assert s == [s[0]] + s[1..];
      InsertKeepsSorted(s[0], SortByOpenTime(s[1..]));
      InsertByOpenTime(s[0], SortByOpenTime(s[1..]))
  }

  /** The trades of `s` opened at exactly `at`, in the order `s` has them. */
  function TradesAt(s: seq<Trade>, at: Instant): seq<Trade> {
    if s == [] then []
    else (if OpenTime(s[0]) == at then [s[0]] else []) + TradesAt(s[1..], at)
  }

  lemma {:induction false} InsertPutsTiesAfter(x: Trade, s: seq<Trade>, at: Instant)
    ensures TradesAt(InsertByOpenTime(x, s), at)
            == (if OpenTime(x) == at then [x] else []) + TradesAt(s, at)
  {
    if s == [] || AtOrBefore(OpenTime(x), OpenTime(s[0])) {
      assert ([x] + s)[1..] == s;
    } else {
      var rest := InsertByOpenTime(x, s[1..]);
      assert ([s[0]] + rest)[1..] == rest;
      InsertPutsTiesAfter(x, s[1..], at);
    }
  }

  /** The sort is stable: trades opened at the same instant keep their input order. */
  lemma {:induction false} SortIsStable(s: seq<Trade>, at: Instant)
    ensures TradesAt(SortByOpenTime(s), at) == TradesAt(s, at)
  {
    if s != [] {
      SortIsStable(s[1..], at);
      InsertPutsTiesAfter(s[0], SortByOpenTime(s[1..]), at);
    }
  }

  // ---------------------------------------------------------------------------
  // Month markers

  /** The `${getFullYear()}-${getMonth()}` key of a month. */
  datatype MonthKey = MonthKey(year: int, month: Month)

  function MonthOf(i: Instant): MonthKey {
    MonthKey(i.date.year, i.date.month)
  }

  predicate SortedInstants(dates: seq<Instant>) {
    forall i, j :: 0 <= i < j < |dates| ==> AtOrBefore(dates[i], dates[j])
  }

  /** `sortedTrades.map(trade => new Date(trade.open_date))`. */
  function OpenTimes(s: seq<Trade>): (dates: seq<Instant>)
    ensures |dates| == |s|
    ensures forall i :: 0 <= i < |s| ==> dates[i] == OpenTime(s[i])
    ensures SortedByOpenTime(s) ==> SortedInstants(dates)
  {
    seq(|s|, i requires 0 <= i < |s| => OpenTime(s[i]))
  }

  /** `monthsMap` once `forEach` has visited `dates`: the first date seen for each month. */
  function FirstByMonth(dates: seq<Instant>): (m: map<MonthKey, Instant>)
    ensures forall i :: 0 <= i < |dates| ==> MonthOf(dates[i]) in m
  {
    if dates == [] then map[]
    else
      var n := |dates| - 1;
      var m := FirstByMonth(dates[..n]);
      assert forall i :: 0 <= i < n ==> dates[..n][i] == dates[i];
      assert dates == dates[..n] + [dates[n]];
      if MonthOf(dates[n]) in m then m else m[MonthOf(dates[n]) := dates[n]]
  }

  /** `Array.from(monthsMap.values())`: the first date of each month, in insertion order. */
  function MonthMarkers(dates: seq<Instant>): (markers: seq<Instant>)
    ensures dates != [] ==> markers != [] && markers[0] == dates[0]
  {
    if dates == [] then []
    else
      var n := |dates| - 1;
      MonthMarkers(dates[..n]) + if MonthOf(dates[n]) in FirstByMonth(dates[..n]) then [] else [dates[n]]
  }

  /** The date recorded for a month is one of the dates, and of that month. */
  lemma {:induction false} FirstByMonthValue(dates: seq<Instant>, k: MonthKey)
    requires k in FirstByMonth(dates)
    ensures FirstByMonth(dates)[k] in dates && MonthOf(FirstByMonth(dates)[k]) == k
  {
    var n := |dates| - 1;
    if k in FirstByMonth(dates[..n]) {
      FirstByMonthValue(dates[..n], k);
      assert dates[..n] <= dates;
    }
  }

  /** Appending a date leaves the months already recorded as they were. */
  lemma FirstByMonthStep(dates: seq<Instant>, k: MonthKey)
    requires dates != [] && k in FirstByMonth(dates[..|dates| - 1])
    ensures FirstByMonth(dates)[k] == FirstByMonth(dates[..|dates| - 1])[k]
  {
  }

  /** Appending a date of a new month records that date for it. */
  lemma FirstByMonthNew(dates: seq<Instant>)
    requires dates != [] && MonthOf(dates[|dates| - 1]) !in FirstByMonth(dates[..|dates| - 1])
    ensures FirstByMonth(dates)[MonthOf(dates[|dates| - 1])] == dates[|dates| - 1]
  {
  }

  /** Over sorted dates the first date recorded for a month is no later than any date of that month. */
  lemma {:induction false} FirstByMonthIsMinimal(dates: seq<Instant>, j: int)
    requires SortedInstants(dates) && 0 <= j < |dates|
    ensures AtOrBefore(FirstByMonth(dates)[MonthOf(dates[j])], dates[j])
  {
    var n := |dates| - 1;
    var prefix := dates[..n];
    var k := MonthOf(dates[j]);
    if j < n {
      assert SortedInstants(prefix) && prefix[j] == dates[j];
      FirstByMonthIsMinimal(prefix, j);
      FirstByMonthStep(dates, k);
    } else if k in FirstByMonth(prefix) {
      var first := FirstByMonth(prefix)[k];
      FirstByMonthValue(prefix, k);
      var p :| 0 <= p < n && prefix[p] == first;
      FirstByMonthStep(dates, k);
      assert AtOrBefore(dates[p], dates[n]);
    } else {
      FirstByMonthNew(dates);
      AtOrBeforeIsTotalOrder(dates[n], dates[n], dates[n]);
    }
  }

  /** The first trade of a month in input order: no trade of that month opened earlier. */
  predicate IsEarliestOfMonth(dates: seq<Instant>, i: int)
    requires 0 <= i < |dates|
  {
    forall j :: 0 <= j < |dates| && MonthOf(dates[j]) == MonthOf(dates[i]) ==> AtOrBefore(dates[i], dates[j])
  }

  /** `monthsMap.get(monthKey).date.getTime() === date.getTime()` holds exactly for the earliest trades of a month. */
  lemma FirstByMonthIsEarliest(dates: seq<Instant>, i: int)
    requires SortedInstants(dates) && 0 <= i < |dates|
    ensures FirstByMonth(dates)[MonthOf(dates[i])] == dates[i] <==> IsEarliestOfMonth(dates, i)
  {
    var m := FirstByMonth(dates);
    var k := MonthOf(dates[i]);
    FirstByMonthIsMinimal(dates, i);
    if m[k] == dates[i] {
      forall j | 0 <= j < |dates| && MonthOf(dates[j]) == k
        ensures AtOrBefore(dates[i], dates[j])
      {
        FirstByMonthIsMinimal(dates, j);
      }
    } else {
      FirstByMonthValue(dates, k);
      var p :| 0 <= p < |dates| && dates[p] == m[k];
      AtOrBeforeIsTotalOrder(dates[i], dates[p], dates[p]);
    }
  }

  /** `findIndex(m => m.date.getTime() === t.getTime())`: the first position holding `t`, or -1. */
  function FindIndex(markers: seq<Instant>, t: Instant): (r: int)
    ensures -1 <= r < |markers|
    ensures r == -1 <==> t !in markers
    ensures 0 <= r ==> markers[r] == t && t !in markers[..r]
  {
    if markers == [] then -1
    else if markers[0] == t then 0
    else
      var r := FindIndex(markers[1..], t);
      assert markers == [markers[0]] + markers[1..];
      if r == -1 then -1
      else
        assert markers[..r + 1] == [markers[0]] + markers[1..][..r];
        r + 1
  }

  // ---------------------------------------------------------------------------
  // Chart points

  const MonthNames: seq<string> := ["Jan", "Feb", "Mar", "Apr", "May", "Jun", "Jul", "Aug", "Sep", "Oct", "Nov", "Dec"]

  /** Every month name has three letters. */
  lemma MonthNameLength(m: Month)
    ensures |MonthNames[m]| == 3
  {
    assert forall k :: 0 <= k < 12 ==> |MonthNames[k]| == 3;
  }

  /** The point of the line chart; `date` stands for both `date` and `fullDate` of the source. */
  datatype ChartPoint = ChartPoint(date: Instant, displayDate: string, displayLabel: string,
                                   cumulativeRR: real, tradeRR: real)

  /** `${monthName} ${date.getDate()}`. */
  function DisplayDate(at: Instant): string {
    MonthNames[at.date.month] + " " + NatToString(at.date.day)
  }

  /** `${monthName} '${year.slice(-2)}`. */
  function MonthWithYear(at: Instant): string {
    MonthNames[at.date.month] + " '" + LastTwo(IntToString(at.date.year))
  }

  /** The tooltip date is the three-letter month name, a space, and the day of the month in decimal. */
  lemma DisplayDateText(at: Instant)
    ensures var text := DisplayDate(at);
            |text| >= 5 && text[..3] == MonthNames[at.date.month] && text[3] == ' '
            && AllDigits(text[4..]) && DecimalValue(text[4..]) == at.date.day
  {
    var digits := NatToString(at.date.day);
    MonthNameLength(at.date.month);
    NatToStringRoundTrip(at.date.day);
    assert DisplayDate(at)[4..] == digits;
  }

  /** A label with the year is the month name, a space and an apostrophe, then the year's last two digits. */
  lemma MonthWithYearText(at: Instant)
    ensures var text := MonthWithYear(at);
            |text| >= 6 && text[..3] == MonthNames[at.date.month] && text[3..5] == " '"
            && (at.date.year >= 10 ==> text[5..] == [DigitChar(at.date.year / 10 % 10), DigitChar(at.date.year % 10)])
  {
    var suffix := LastTwo(IntToString(at.date.year));
    MonthNameLength(at.date.month);
    if at.date.year >= 10 {
      YearSuffixDigits(at.date.year);
    }
    assert MonthWithYear(at)[5..] == suffix;
  }

  /** The axis label of the point for the `i`-th of the sorted dates. */
  function LabelAt(dates: seq<Instant>, i: int): string
    requires 0 <= i < |dates|
  {
    if !IsEarliestOfMonth(dates, i) then ""
    else if dates[i].date.month == 0 || dates[i] == dates[0] then MonthWithYear(dates[i])
    else MonthNames[dates[i].date.month]
  }

  /** The chart point of the `i`-th trade of the sorted list `s`. */
  function PointAt(s: seq<Trade>, i: int): ChartPoint
    requires 0 <= i < |s|
  {
    var dates := OpenTimes(s);
    ChartPoint(dates[i], DisplayDate(dates[i]), LabelAt(dates, i), SumRR(s[..i + 1]), RROrZero(s[i].rr))
  }

  /** The series `processTradeData(trades)` returns, point by point. */
  function Series(trades: seq<Trade>): seq<ChartPoint> {
    var s := SortByOpenTime(trades);
    seq(|s|, i requires 0 <= i < |s| => PointAt(s, i))
  }

  /** The label the source computes from `monthsMap` and `monthMarkers` is `LabelAt`. */
  lemma LabelFromMarkers(dates: seq<Instant>, i: int)
    requires SortedInstants(dates) && 0 <= i < |dates|
    ensures var date := dates[i];
            var name := MonthNames[date.date.month];
            LabelAt(dates, i) ==
              if FirstByMonth(dates)[MonthOf(date)] != date then ""
              else if date.date.month == 0 || FindIndex(MonthMarkers(dates), date) == 0 then MonthWithYear(date)
              else name
  {
    FirstByMonthIsEarliest(dates, i);
    var markers := MonthMarkers(dates);
    assert markers[0] == dates[0];
    assert FindIndex(markers, dates[i]) == 0 <==> dates[i] == dates[0];
  }

  /** The `allDates.forEach` pass: records the first date of each month and the order months appear in. */
  method CollectMonths(allDates: seq<Instant>) returns (monthsMap: map<MonthKey, Instant>, monthMarkers: seq<Instant>)
    ensures monthsMap == FirstByMonth(allDates)
    ensures monthMarkers == MonthMarkers(allDates)
  {
    monthsMap, monthMarkers := map[], [];
    var i := 0;
    while i < |allDates|
      invariant 0 <= i <= |allDates|
      invariant monthsMap == FirstByMonth(allDates[..i])
      invariant monthMarkers == MonthMarkers(allDates[..i])
    {
      var date := allDates[i];
      assert allDates[..i + 1][..i] == allDates[..i];
      if MonthOf(date) !in monthsMap {
        monthsMap := monthsMap[MonthOf(date) := date];
        monthMarkers := monthMarkers + [date];
      }
      i := i + 1;
    }
    assert allDates[..|allDates|] == allDates;
  }

  /**
   * The body of the `map` callback for the `i`-th sorted trade, once
   * `cumulativeRR` has been advanced past it: the month-start test, the
   * label, and the point.
   */
  method PointFor(sortedTrades: seq<Trade>, monthsMap: map<MonthKey, Instant>, monthMarkers: seq<Instant>,
                  i: int, cumulativeRR: real) returns (point: ChartPoint)
    requires SortedByOpenTime(sortedTrades) && 0 <= i < |sortedTrades|
    requires monthsMap == FirstByMonth(OpenTimes(sortedTrades))
    requires monthMarkers == MonthMarkers(OpenTimes(sortedTrades))
    requires cumulativeRR == SumRR(sortedTrades[..i + 1])
    ensures point == PointAt(sortedTrades, i)
  {
    var trade := sortedTrades[i];
    var date := OpenTime(trade);
    var isMonthStart := monthsMap[MonthOf(date)] == date;
    var monthName := MonthNames[date.date.month];
    var displayLabel := "";
    if isMonthStart {
      if date.date.month == 0 || FindIndex(monthMarkers, date) == 0 {
        displayLabel := monthName + " '" + LastTwo(IntToString(date.date.year));
      } else {
        displayLabel := monthName;
      }
    }
    LabelFromMarkers(OpenTimes(sortedTrades), i);
    point := ChartPoint(date, monthName + " " + NatToString(date.date.day),
                        displayLabel, cumulativeRR, RROrZero(trade.rr));
  }

  /** Appending the next trade's point extends a prefix of the series by one. */
  lemma AppendPoint(s: seq<Trade>, chartData: seq<ChartPoint>, point: ChartPoint)
    requires |chartData| < |s|
    requires forall k :: 0 <= k < |chartData| ==> chartData[k] == PointAt(s, k)
    requires point == PointAt(s, |chartData|)
    ensures forall k :: 0 <= k < |chartData| + 1 ==> (chartData + [point])[k] == PointAt(s, k)
  {
    forall k | 0 <= k < |chartData| + 1
      ensures (chartData + [point])[k] == PointAt(s, k)
    {
      if k < |chartData| {
        assert (chartData + [point])[k] == chartData[k];
      }
    }
  }

  /** The `sortedTrades.map` pass: one point per trade with the running total and the month label. */
  method ChartPoints(sortedTrades: seq<Trade>, monthsMap: map<MonthKey, Instant>, monthMarkers: seq<Instant>)
    returns (chartData: seq<ChartPoint>)
    requires SortedByOpenTime(sortedTrades)
    requires monthsMap == FirstByMonth(OpenTimes(sortedTrades))
    requires monthMarkers == MonthMarkers(OpenTimes(sortedTrades))
    ensures |chartData| == |sortedTrades|
    ensures forall k :: 0 <= k < |sortedTrades| ==> chartData[k] == PointAt(sortedTrades, k)
  {
    var n := |sortedTrades|;
    var cumulativeRR: real := 0.0;
    chartData := [];
    var i := 0;
    while i < n
      invariant 0 <= i <= n
      invariant cumulativeRR == SumRR(sortedTrades[..i])
      invariant |chartData| == i
      invariant forall k :: 0 <= k < i ==> chartData[k] == PointAt(sortedTrades, k)
    {
      SumRRPrefixStep(sortedTrades, i);
      cumulativeRR := cumulativeRR + RROrZero(sortedTrades[i].rr);
      var point := PointFor(sortedTrades, monthsMap, monthMarkers, i, cumulativeRR);
      AppendPoint(sortedTrades, chartData, point);
      chartData := chartData + [point];
      i := i + 1;
    }
  }

  /**
   * `processTradeData`: an empty list gives an empty series; otherwise a
   * sorted copy, the month pass, then the point pass.
   */
  method ProcessTradeData(tradesToProcess: seq<Trade>) returns (chartData: seq<ChartPoint>)
    ensures chartData == Series(tradesToProcess)
  {
    if |tradesToProcess| == 0 {
      return [];
    }
    var sortedTrades := SortByOpenTime(tradesToProcess);
    var monthsMap, monthMarkers := CollectMonths(OpenTimes(sortedTrades));
    chartData := ChartPoints(sortedTrades, monthsMap, monthMarkers);
  }

  // ---------------------------------------------------------------------------
  // What the series promises

  /** What a chart point says about its trade: when it opened and its R:R. */
  function Sample(t: Trade): (Instant, real) {
    (OpenTime(t), RROrZero(t.rr))
  }

  function Samples(s: seq<Trade>): (r: seq<(Instant, real)>)
    ensures |r| == |s| && forall i :: 0 <= i < |s| ==> r[i] == Sample(s[i])
  {
    seq(|s|, i requires 0 <= i < |s| => Sample(s[i]))
  }

  function PointSamples(p: seq<ChartPoint>): (r: seq<(Instant, real)>)
    ensures |r| == |p| && forall i :: 0 <= i < |p| ==> r[i] == (p[i].date, p[i].tradeRR)
  {
    seq(|p|, i requires 0 <= i < |p| => (p[i].date, p[i].tradeRR))
  }

  lemma {:induction false} SamplesOfPermutation(a: seq<Trade>, b: seq<Trade>)
    requires multiset(a) == multiset(b)
    ensures multiset(Samples(a)) == multiset(Samples(b))
    decreases |a|
  {
    if a == [] {
      assert |b| == |multiset(b)| == 0;
    } else {
      var x := a[|a| - 1];
      assert x in multiset(b) by {
        assert x in multiset(a);
      }
      var k :| 0 <= k < |b| && b[k] == x;
      MultisetWithout(a, b, k);
      var a', b' := a[..|a| - 1], b[..k] + b[k + 1..];
      SamplesOfPermutation(a', b');
      assert Samples(a) == Samples(a') + [Sample(x)];
      assert Samples(b) == Samples(b)[..k] + [Sample(x)] + Samples(b)[k + 1..];
      assert Samples(b') == Samples(b)[..k] + Samples(b)[k + 1..];
    }
  }

  /** One point per trade, oldest first: the points carry exactly the trades' dates and R:R values. */
  lemma SeriesIsSortedCopy(trades: seq<Trade>)
    ensures |Series(trades)| == |trades|
    ensures forall i, j :: 0 <= i < j < |Series(trades)| ==> AtOrBefore(Series(trades)[i].date, Series(trades)[j].date)
    ensures multiset(PointSamples(Series(trades))) == multiset(Samples(trades))
  {
    var s := SortByOpenTime(trades);
    SamplesOfPermutation(s, trades);
    assert PointSamples(Series(trades)) == Samples(s);
  }

  lemma PointRunningTotal(s: seq<Trade>, i: int)
    requires 0 <= i < |s|
    ensures PointAt(s, i).cumulativeRR == (if i == 0 then 0.0 else PointAt(s, i - 1).cumulativeRR) + PointAt(s, i).tradeRR
  {
    var prefix := s[..i + 1];
    assert prefix[..i] == s[..i] && prefix[|prefix| - 1] == s[i];
    assert SumRR(prefix) == SumRR(s[..i]) + RROrZero(s[i].rr);
    if i == 0 {
      assert s[..0] == [];
    }
  }

  /** Along any list of trades the points' totals run from the first R:R to the sum of all. */
  lemma PointTotalsRun(s: seq<Trade>)
    ensures s != [] ==> PointAt(s, 0).cumulativeRR == PointAt(s, 0).tradeRR
    ensures forall i :: 0 < i < |s| ==> PointAt(s, i).cumulativeRR == PointAt(s, i - 1).cumulativeRR + PointAt(s, i).tradeRR
    ensures s != [] ==> PointAt(s, |s| - 1).cumulativeRR == SumRR(s)
  {
    if s != [] {
      PointRunningTotal(s, 0);
      forall i | 0 < i < |s|
        ensures PointAt(s, i).cumulativeRR == PointAt(s, i - 1).cumulativeRR + PointAt(s, i).tradeRR
      {
        PointRunningTotal(s, i);
      }
      assert s[..|s|] == s;
    }
  }

  /** `cumulativeRR` is the running total of `tradeRR`, and the last point holds the total of all trades. */
  lemma CumulativeIsRunningTotal(trades: seq<Trade>)
    ensures var p := Series(trades);
            (p != [] ==> p[0].cumulativeRR == p[0].tradeRR)
            && (forall i :: 0 < i < |p| ==> p[i].cumulativeRR == p[i - 1].cumulativeRR + p[i].tradeRR)
            && (p != [] ==> p[|p| - 1].cumulativeRR == SumRR(trades))
  {
    var s := SortByOpenTime(trades);
    var p := Series(trades);
    assert forall i :: 0 <= i < |p| ==> p[i] == PointAt(s, i);
    PointTotalsRun(s);
    SumRRPermutation(s, trades);
  }

  /** The sorted copy holds the same trades. */
  lemma SortKeepsMembers(trades: seq<Trade>)
    ensures forall t :: t in trades <==> t in SortByOpenTime(trades)
  {
    var s := SortByOpenTime(trades);
    assert forall t :: t in trades <==> t in multiset(trades);
    assert forall t :: t in s <==> t in multiset(s);
  }

  /** A point is labelled exactly when no trade of its month opened before it. */
  lemma LabelMarksFirstTradeOfMonth(trades: seq<Trade>, i: int)
    requires 0 <= i < |trades|
    ensures var p := Series(trades);
            p[i].displayLabel != "" <==>
              forall t :: t in trades && MonthOf(OpenTime(t)) == MonthOf(p[i].date) ==> AtOrBefore(p[i].date, OpenTime(t))
  {
    var s := SortByOpenTime(trades);
    var dates := OpenTimes(s);
    var p := Series(trades);
    assert p[i].date == dates[i] && p[i].displayLabel == LabelAt(dates, i);
    SortKeepsMembers(trades);
    if IsEarliestOfMonth(dates, i) {
      MonthNameLength(dates[i].date.month);
      forall t | t in trades && MonthOf(OpenTime(t)) == MonthOf(dates[i])
        ensures AtOrBefore(dates[i], OpenTime(t))
      {
        var j :| 0 <= j < |s| && s[j] == t;
        assert dates[j] == OpenTime(t);
      }
    } else {
      var j :| 0 <= j < |dates| && MonthOf(dates[j]) == MonthOf(dates[i]) && !AtOrBefore(dates[i], dates[j]);
      assert s[j] in trades;
    }
  }

  /**
   * A labelled point names the year (`"Jan '24"`) exactly when it is in January
   * or it is the earliest trade of all; otherwise it names the month alone.
   */
  lemma LabelNamesYear(trades: seq<Trade>, i: int)
    requires 0 <= i < |trades|
    ensures var p := Series(trades);
            var first := p[i].date.date.month == 0 || forall t :: t in trades ==> AtOrBefore(p[i].date, OpenTime(t));
            p[i].displayLabel != "" ==>
              p[i].displayLabel == if first then MonthWithYear(p[i].date) else MonthNames[p[i].date.date.month]
  {
    var s := SortByOpenTime(trades);
    var dates := OpenTimes(s);
    var p := Series(trades);
    assert p[i].date == dates[i] && p[i].displayLabel == LabelAt(dates, i);
    SortKeepsMembers(trades);
    var earliest := forall t :: t in trades ==> AtOrBefore(dates[i], OpenTime(t));
    if dates[i] == dates[0] {
      forall t | t in trades
        ensures AtOrBefore(dates[i], OpenTime(t))
      {
        var j :| 0 <= j < |s| && s[j] == t;
        assert dates[j] == OpenTime(t);
        AtOrBeforeIsTotalOrder(dates[0], dates[j], dates[j]);
      }
    } else if earliest {
      assert s[0] in trades;
      AtOrBeforeIsTotalOrder(dates[0], dates[i], dates[i]);
    }
  }

  /** Removing the first trade from a list removes it from its own instant's ties only. */
  lemma TradesAtTail(s: seq<Trade>, at: Instant)
    requires s != []
    ensures TradesAt(s, at) == (if OpenTime(s[0]) == at then [s[0]] else []) + TradesAt(s[1..], at)
  {
  }

  lemma {:induction false} TradesAtNonEmpty(s: seq<Trade>, j: int)
    requires 0 <= j < |s|
    ensures TradesAt(s, OpenTime(s[j])) != []
  {
    if j > 0 {
      TradesAtNonEmpty(s[1..], j - 1);
    }
  }

  lemma {:induction false} TradesAtHasOnlyThatInstant(s: seq<Trade>, at: Instant)
    requires TradesAt(s, at) != []
    ensures exists j :: 0 <= j < |s| && OpenTime(s[j]) == at
  {
    if OpenTime(s[0]) != at {
      TradesAtHasOnlyThatInstant(s[1..], at);
      var j :| 0 <= j < |s[1..]| && OpenTime(s[1..][j]) == at;
      assert OpenTime(s[j + 1]) == at;
    }
  }

  /** Two lists sorted by opening time that agree on the order of every group of ties are equal. */
  lemma {:induction false} SortedDeterminedByTies(a: seq<Trade>, b: seq<Trade>)
    requires SortedByOpenTime(a) && SortedByOpenTime(b)
    requires forall at :: TradesAt(a, at) == TradesAt(b, at)
    ensures a == b
    decreases |a|
  {
    if a == [] {
      if b != [] {
        TradesAtNonEmpty(b, 0);
        assert false;
      }
    } else if b == [] {
      TradesAtNonEmpty(a, 0);
      assert false;
    } else {
      var ka, kb := OpenTime(a[0]), OpenTime(b[0]);
      TradesAtNonEmpty(a, 0);
      TradesAtNonEmpty(b, 0);
      TradesAtHasOnlyThatInstant(b, ka);
      TradesAtHasOnlyThatInstant(a, kb);
      var jb :| 0 <= jb < |b| && OpenTime(b[jb]) == ka;
      var ja :| 0 <= ja < |a| && OpenTime(a[ja]) == kb;
      assert AtOrBefore(kb, ka) by {
        if jb > 0 {
          assert AtOrBefore(OpenTime(b[0]), OpenTime(b[jb]));
        }
      }
      assert AtOrBefore(ka, kb) by {
        if ja > 0 {
          assert AtOrBefore(OpenTime(a[0]), OpenTime(a[ja]));
        }
      }
      AtOrBeforeIsTotalOrder(ka, kb, kb);
      assert TradesAt(a, ka)[0] == a[0];
      assert TradesAt(b, ka)[0] == b[0];
      assert a[0] == b[0];
      forall at
        ensures TradesAt(a[1..], at) == TradesAt(b[1..], at)
      {
        TradesAtTail(a, at);
        TradesAtTail(b, at);
        var h := if OpenTime(a[0]) == at then [a[0]] else [];
        assert TradesAt(a[1..], at) == TradesAt(a, at)[|h|..];
        assert TradesAt(b[1..], at) == TradesAt(b, at)[|h|..];
      }
      assert SortedByOpenTime(a[1..]) && SortedByOpenTime(b[1..]);
      SortedDeterminedByTies(a[1..], b[1..]);
      assert a == [a[0]] + a[1..] && b == [b[0]] + b[1..];
    }
  }

  /**
   * The series does not depend on the input order, except for the order of
   * trades opened at the same instant, which the stable sort keeps.
   */
  lemma SeriesIgnoresInputOrder(a: seq<Trade>, b: seq<Trade>)
    requires forall at :: TradesAt(a, at) == TradesAt(b, at)
    ensures Series(a) == Series(b)
  {
    forall at
      ensures TradesAt(SortByOpenTime(a), at) == TradesAt(SortByOpenTime(b), at)
    {
      SortIsStable(a, at);
      SortIsStable(b, at);
    }
    SortedDeterminedByTies(SortByOpenTime(a), SortByOpenTime(b));
  }

  /** The two-digit suffix of the year 2024, used in the example below. */
  lemma YearSuffix2024(y: int)
    requires y == 2024
    ensures LastTwo(IntToString(y)) == "24"
  {
    YearSuffixDigits(y);
    assert y == 10 * 202 + 4;
    assert y / 10 == 202 && y % 10 == 4;
    assert 202 % 10 == 2;
    assert DigitChar(2) == '2' && DigitChar(4) == '4';
  }

  lemma JanuaryLabel(at: Instant)
    requires at.date.year == 2024 && at.date.month == 0
    ensures MonthWithYear(at) == "Jan '24"
  {
    YearSuffix2024(at.date.year);
    assert MonthNames[0] == "Jan";
  }

  lemma FifthOfJanuary(at: Instant)
    requires at.date.month == 0 && at.date.day == 5
    ensures DisplayDate(at) == "Jan 5"
  {
    assert NatToString(5) == [DigitChar(5)];
    assert DigitChar(5) == '5';
    assert MonthNames[0] == "Jan";
  }

  lemma FebruaryAfterJanuary(dates: seq<Instant>)
    requires |dates| == 3 && dates[0].date.month == 0 && dates[1].date.month == 0
    requires dates[2].date.month == 1
    ensures LabelAt(dates, 2) == "Feb"
  {
    assert IsEarliestOfMonth(dates, 2) by {
      forall j | 0 <= j < |dates| && MonthOf(dates[j]) == MonthOf(dates[2])
        ensures AtOrBefore(dates[2], dates[j])
      {
        assert j == 2;
      }
    }
    assert dates[2] != dates[0];
    assert MonthNames[1] == "Feb";
  }

  /** Running totals of three trades with R:R values 1, -0.5 and 2. */
  lemma ExampleTotals(s: seq<Trade>)
    requires |s| == 3 && s[0].rr == Number(1.0) && s[1].rr == Number(-0.5) && s[2].rr == Number(2.0)
    ensures SumRR(s[..1]) == 1.0 && SumRR(s[..2]) == 0.5 && SumRR(s[..3]) == 2.5
  {
    assert s[..1][..0] == [];
    assert s[..2][..1] == s[..1];
    assert s[..3][..2] == s[..2];
  }

  /** Labels of trades opened on Jan 5 and Jan 20 and Feb 1 of 2024, in that order. */
  lemma ExampleLabels(dates: seq<Instant>)
    requires |dates| == 3
    requires dates[0] == Instant(Date(2024, 0, 5), 0) && dates[1] == Instant(Date(2024, 0, 20), 0)
    requires dates[2] == Instant(Date(2024, 1, 1), 0)
    ensures LabelAt(dates, 0) == "Jan '24" && LabelAt(dates, 1) == "" && LabelAt(dates, 2) == "Feb"
    ensures DisplayDate(dates[0]) == "Jan 5"
  {
    assert IsEarliestOfMonth(dates, 0) by {
      forall j | 0 <= j < |dates| ensures AtOrBefore(dates[0], dates[j]) {
        assert j == 0 || j == 1 || j == 2;
      }
    }
    JanuaryLabel(dates[0]);
    assert !AtOrBefore(dates[1], dates[0]);
    FebruaryAfterJanuary(dates);
    FifthOfJanuary(dates[0]);
  }

  /** Three trades of the examples below: two in January 2024 and one on the first of February. */
  const Jan5 := Trade(1, Some(Instant(Date(2024, 0, 5), 0)), Number(1.0))
  const Jan20 := Trade(2, Some(Instant(Date(2024, 0, 20), 0)), Number(-0.5))
  const Feb1 := Trade(3, Some(Instant(Date(2024, 1, 1), 0)), Number(2.0))

  lemma SortPair(a: Trade, b: Trade)
    requires AtOrBefore(OpenTime(a), OpenTime(b))
    ensures SortByOpenTime([a, b]) == [a, b]
  {
    assert [a, b][1..] == [b];
    assert SortByOpenTime([b]) == [b] by {
      assert [b][1..] == [];
    }
  }

  lemma InsertAfterPair(x: Trade, a: Trade, b: Trade)
    requires !AtOrBefore(OpenTime(x), OpenTime(a)) && !AtOrBefore(OpenTime(x), OpenTime(b))
    ensures InsertByOpenTime(x, [a, b]) == [a, b, x]
  {
    assert [a, b][1..] == [b];
    assert InsertByOpenTime(x, [b]) == [b, x] by {
      assert [b][1..] == [];
    }
    assert InsertByOpenTime(x, [a, b]) == [a] + InsertByOpenTime(x, [b]);
  }

  /** Sorting puts the February trade, given first, after the January ones. */
  lemma ExampleSorted()
    ensures SortByOpenTime([Feb1, Jan5, Jan20]) == [Jan5, Jan20, Feb1]
  {
    var input := [Feb1, Jan5, Jan20];
    assert input[1..] == [Jan5, Jan20];
    SortPair(Jan5, Jan20);
    InsertAfterPair(Feb1, Jan5, Jan20);
  }

  /**
   * Trades of Jan 5, Jan 20 and Feb 1 2024 with R:R 1, -0.5 and 2, given out
   * of order: the running totals are 1, 0.5 and 2.5, and the axis reads
   * "Jan '24", nothing, "Feb".
   */
  lemma ThreeTradeExample()
    ensures var p := Series([Feb1, Jan5, Jan20]);
            |p| == 3
            && p[0].cumulativeRR == 1.0 && p[1].cumulativeRR == 0.5 && p[2].cumulativeRR == 2.5
            && p[0].displayLabel == "Jan '24" && p[1].displayLabel == "" && p[2].displayLabel == "Feb"
            && p[0].displayDate == "Jan 5"
  {
    var s := [Jan5, Jan20, Feb1];
    ExampleSorted();
    ExampleTotals(s);
    ExampleLabels(OpenTimes(s));
    var p := Series([Feb1, Jan5, Jan20]);
    assert |p| == 3 && p[0] == PointAt(s, 0) && p[1] == PointAt(s, 1) && p[2] == PointAt(s, 2);
  }
}
