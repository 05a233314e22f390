/**
 * The state of the R:R progression chart component: the `trades` prop, the
 * selector and custom range the user picked, and the two pieces of state the
 * effect derives from them, the plotted series and the visibility of the
 * custom date picker.
 */
module RRChart {
  import opened Wrappers
  import opened Dates
  import opened Trades
  import opened TimeframeFilter
  import opened CumulativeSeries

  class RRProgressionChart {
    /** The `trades` prop. */
    var trades: seq<Trade>
    /** The selector; `"all"` until the user changes it. */
    var timeframe: string
    /** The custom range bounds; `None` stands for the empty string the inputs start with. */
    var startDate: Option<Date>
    var endDate: Option<Date>
    /** The points handed to the line chart. */
    var filteredData: seq<ChartPoint>
    var showCustomDatePicker: bool

    /** What the effect establishes: the series of the selected window, and the picker shown exactly for `custom`. */
    predicate Shows(now: Instant)
      reads this
      requires ValidDate(now.date)
    {
      filteredData == Series(FilterTradesByTimeframe(trades, timeframe, now, startDate, endDate))
      && showCustomDatePicker == (timeframe == "custom")
    }

    /** The initial state, before the first effect has run. */
    constructor(trades: seq<Trade>)
      ensures this.trades == trades
      ensures timeframe == "all" && startDate == None && endDate == None
      ensures filteredData == [] && !showCustomDatePicker
    {
      this.trades := trades;
      timeframe := "all";
      startDate := None;
      endDate := None;
      filteredData := [];
      showCustomDatePicker := false;
    }

    /** The effect: filter, process, and show the picker only for `custom`; the inputs are left alone. */
    method Refresh(now: Instant)
      requires ValidDate(now.date)
      modifies this
      ensures Shows(now)
      ensures trades == old(trades) && timeframe == old(timeframe)
      ensures startDate == old(startDate) && endDate == old(endDate)
    {
      var filtered := FilterTradesByTimeframe(trades, timeframe, now, startDate, endDate);
      filteredData := ProcessTradeData(filtered);
      showCustomDatePicker := timeframe == "custom";
    }

    /** `handleTimeframeChange`: the new selector, followed by the effect it triggers. */
    method HandleTimeframeChange(value: string, now: Instant)
      requires ValidDate(now.date)
      modifies this
      ensures timeframe == value && Shows(now)
      ensures trades == old(trades) && startDate == old(startDate) && endDate == old(endDate)
    {
      timeframe := value;
      Refresh(now);
    }

    /** The start-date input changing, followed by the effect. */
    method SetStartDate(value: Option<Date>, now: Instant)
      requires ValidDate(now.date)
      modifies this
      ensures startDate == value && Shows(now)
      ensures trades == old(trades) && timeframe == old(timeframe) && endDate == old(endDate)
    {
      startDate := value;
      Refresh(now);
    }

    /** The end-date input changing, followed by the effect. */
    method SetEndDate(value: Option<Date>, now: Instant)
      requires ValidDate(now.date)
      modifies this
      ensures endDate == value && Shows(now)
      ensures trades == old(trades) && timeframe == old(timeframe) && startDate == old(startDate)
    {
      endDate := value;
      Refresh(now);
    }

    /** A new `trades` prop from the parent, followed by the effect. */
    method ReceiveTrades(value: seq<Trade>, now: Instant)
      requires ValidDate(now.date)
      modifies this
      ensures trades == value && Shows(now)
      ensures timeframe == old(timeframe) && startDate == old(startDate) && endDate == old(endDate)
    {
      trades := value;
      Refresh(now);
    }
  }

  /**
   * What the effect shows: one point per trade of the selected window, the
   * points in time order carrying the window's trades, and the last point's
   * total equal to the sum of the window's R:R values.
   */
  lemma ShownSeriesCoversWindow(trades: seq<Trade>, timeframe: string, now: Instant,
                                startDate: Option<Date>, endDate: Option<Date>)
    requires ValidDate(now.date)
    ensures var kept := Keep(trades, WindowFor(timeframe, now, startDate, endDate));
            var p := Series(FilterTradesByTimeframe(trades, timeframe, now, startDate, endDate));
            |p| == |kept|
            && (forall i, j :: 0 <= i < j < |p| ==> AtOrBefore(p[i].date, p[j].date))
            && multiset(PointSamples(p)) == multiset(Samples(kept))
            && (p != [] ==> p[|p| - 1].cumulativeRR == SumRR(kept))
  {
    var kept := FilterTradesByTimeframe(trades, timeframe, now, startDate, endDate);
    SeriesIsSortedCopy(kept);
    CumulativeIsRunningTotal(kept);
  }

  /** With `all` selected the chart shows the whole of `trades`, whatever the custom range holds. */
  lemma AllShowsEveryTrade(trades: seq<Trade>, now: Instant, startDate: Option<Date>, endDate: Option<Date>)
    requires ValidDate(now.date)
    ensures Series(FilterTradesByTimeframe(trades, "all", now, startDate, endDate)) == Series(trades)
  {
    UnfilteredSelectors(trades, "all", now, startDate, endDate);
  }
}
