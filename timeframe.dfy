/**
 * `filterTradesByTimeframe` of the R:R progression chart: the selector
 * string chooses a time window, and the trades whose `open_date` falls in it
 * are kept in their original order.
 */
module TimeframeFilter {
  import opened Wrappers
  import opened Dates
  import opened Trades

  /** A window over `new Date(trade.open_date)`, both bounds inclusive. */
  datatype Window = Unbounded | From(lo: Instant) | Between(lo: Instant, hi: Instant)

  /** Whether `t` opened inside `w`; a range whose end precedes its start admits nothing. */
  predicate Admits(w: Window, t: Trade)
    ensures w.Between? && !AtOrBefore(w.lo, w.hi) ==> !Admits(w, t)
  {
    match w
    case Unbounded => true
    case From(lo) => AtOrBefore(lo, OpenTime(t))
    case Between(lo, hi) => AtOrBefore(lo, OpenTime(t)) && AtOrBefore(OpenTime(t), hi)
  }

  /** `weekAgo.setDate(weekAgo.getDate() - 7)`: the same clock time seven days earlier. */
  function WeekAgo(now: Instant): (r: Instant)
    requires ValidDate(now.date)
    ensures ValidDate(r.date) && r.ms == now.ms
    ensures AddDays(r.date, 7) == now.date
  {
    AddDaysUndoesSubtractDays(now.date, 7);
    Instant(SubtractDays(now.date, 7), now.ms)
  }

  /**
   * The `lastyear` window as the source builds it: `new Date(year - 1, 11, 31)`
   * is 00:00 on Dec 31, so of that day only the first instant is admitted.
   */
  function LastYearWindowAsWritten(now: Instant): (w: Window)
    ensures forall t :: Admits(w, t) <==>
      OpenTime(t).date.year == now.date.year - 1
      && (OpenTime(t).date == Date(now.date.year - 1, 11, 31) ==> OpenTime(t).ms == 0)
  {
    Between(Instant(Date(now.date.year - 1, 0, 1), 0), Instant(Date(now.date.year - 1, 11, 31), 0))
  }

  /** The `lastyear` window ending at Dec 31 23:59:59.999, as the `custom` window ends its last day. */
  function LastYearWindow(now: Instant): Window {
    Between(Instant(Date(now.date.year - 1, 0, 1), 0), Instant(Date(now.date.year - 1, 11, 31), EndOfDay))
  }

  /** A trade at noon on Dec 31 of last year is not in the source's `lastyear` window. */
  lemma LastYearAsWrittenMissesDecember31(now: Instant)
    ensures var t := Trade(0, Some(Instant(Date(now.date.year - 1, 11, 31), 43200000)), Number(1.0));
            OpenTime(t).date.year == now.date.year - 1 && !Admits(LastYearWindowAsWritten(now), t)
  {
  }

  /** The corrected window holds exactly the trades opened in the previous calendar year. */
  lemma LastYearWindowIsPreviousYear(now: Instant, t: Trade)
    ensures Admits(LastYearWindow(now), t) <==> OpenTime(t).date.year == now.date.year - 1
  {
  }

  /** The `switch (timeframe)` of the source: which window each selector stands for. */
  function WindowFor(timeframe: string, now: Instant, startDate: Option<Date>, endDate: Option<Date>): (w: Window)
    requires ValidDate(now.date)
    ensures w.Unbounded? <==>
      timeframe !in {"week", "month", "year", "lastyear", "custom"}
      || (timeframe == "custom" && (startDate.None? || endDate.None?))
    ensures timeframe in {"week", "month", "year", "lastyear"} ==> AtOrBefore(w.lo, now)
    ensures timeframe == "lastyear" ==> w.Between? && AtOrBefore(w.hi, now)
  {
    if timeframe == "week" then From(WeekAgo(now))
    else if timeframe == "month" then From(Instant(Date(now.date.year, now.date.month, 1), 0))
    else if timeframe == "year" then From(Instant(Date(now.date.year, 0, 1), 0))
    else if timeframe == "lastyear" then LastYearWindowAsWritten(now)
    else if timeframe == "custom" then
      if startDate.Some? && endDate.Some? then
        Between(Instant(startDate.value, 0), Instant(endDate.value, EndOfDay))
      else
        Unbounded
    else Unbounded
  }

  /** `trades.filter(trade => Admits(w, trade))`. */
  function Keep(trades: seq<Trade>, w: Window): (kept: seq<Trade>)
    ensures |kept| <= |trades|
    ensures forall t :: t in kept <==> t in trades && Admits(w, t)
  {
    if trades == [] then []
    else
      var last := trades[|trades| - 1];
      Keep(trades[..|trades| - 1], w) + if Admits(w, last) then [last] else []
  }

  /** The positions `Keep` takes its trades from. */
  function KeptIndices(trades: seq<Trade>, w: Window): (idx: seq<int>)
    ensures forall k :: 0 <= k < |idx| ==> 0 <= idx[k] < |trades| && Admits(w, trades[idx[k]])
    ensures forall k, l :: 0 <= k < l < |idx| ==> idx[k] < idx[l]
    ensures forall i :: 0 <= i < |trades| && Admits(w, trades[i]) ==> i in idx
  {
    if trades == [] then []
    else
      var n := |trades| - 1;
      var prefix := KeptIndices(trades[..n], w);
      var tail := if Admits(w, trades[n]) then [n] else [];
      assert forall i :: 0 <= i < n ==> trades[..n][i] == trades[i];
      AppendLaterIndex(prefix, tail, n);
      prefix + tail
  }

  /** Appending a position past all the kept ones keeps the positions increasing and loses none. */
  lemma AppendLaterIndex(prefix: seq<int>, tail: seq<int>, n: int)
    requires forall k :: 0 <= k < |prefix| ==> prefix[k] < n
    requires forall k, l :: 0 <= k < l < |prefix| ==> prefix[k] < prefix[l]
    requires tail == [] || tail == [n]
    ensures forall k :: 0 <= k < |prefix + tail| ==> (k < |prefix| && (prefix + tail)[k] == prefix[k]) || (prefix + tail)[k] == n
    ensures forall k, l :: 0 <= k < l < |prefix + tail| ==> (prefix + tail)[k] < (prefix + tail)[l]
    ensures forall i :: i in prefix || i in tail ==> i in prefix + tail
  {
  }

  /** Extending a list picked from `trades[..n]` by the trade at `n` and its position keeps the two in step. */
  lemma PickLast(trades: seq<Trade>, picked: seq<Trade>, positions: seq<int>, admitted: bool)
    requires trades != [] && |picked| == |positions|
    requires forall k :: 0 <= k < |positions| ==> 0 <= positions[k] < |trades| - 1
    requires forall k :: 0 <= k < |picked| ==> picked[k] == trades[..|trades| - 1][positions[k]]
    ensures var n := |trades| - 1;
            var kept := picked + if admitted then [trades[n]] else [];
            var idx := positions + if admitted then [n] else [];
            |kept| == |idx| && forall k :: 0 <= k < |kept| ==> kept[k] == trades[idx[k]]
  {
  }

  /** Filtering keeps every admitted trade and only those, in their original order. */
  lemma {:induction false} KeepIsOrderedSubsequence(trades: seq<Trade>, w: Window)
    ensures |Keep(trades, w)| == |KeptIndices(trades, w)|
    ensures forall k :: 0 <= k < |Keep(trades, w)| ==> Keep(trades, w)[k] == trades[KeptIndices(trades, w)[k]]
  {
    if trades != [] {
      var n := |trades| - 1;
      var init := trades[..n];
      KeepIsOrderedSubsequence(init, w);
      assert Keep(trades, w) == Keep(init, w) + if Admits(w, trades[n]) then [trades[n]] else [];
      assert KeptIndices(trades, w) == KeptIndices(init, w) + if Admits(w, trades[n]) then [n] else [];
      PickLast(trades, Keep(init, w), KeptIndices(init, w), Admits(w, trades[n]));
    }
  }

  lemma {:induction false} KeepUnboundedIsIdentity(trades: seq<Trade>)
    ensures Keep(trades, Unbounded) == trades
  {
    if trades != [] {
      var n := |trades| - 1;
      KeepUnboundedIsIdentity(trades[..n]);
      assert trades == trades[..n] + [trades[n]];
    }
  }

  /** `filterTradesByTimeframe()`: the trades in the selected window; `all` and unknown selectors return `trades` itself. */
  function FilterTradesByTimeframe(trades: seq<Trade>, timeframe: string, now: Instant,
                                   startDate: Option<Date>, endDate: Option<Date>): (filtered: seq<Trade>)
    requires ValidDate(now.date)
    ensures filtered == Keep(trades, WindowFor(timeframe, now, startDate, endDate))
  {
    var w := WindowFor(timeframe, now, startDate, endDate);
    if w.Unbounded? then (KeepUnboundedIsIdentity(trades); trades) else Keep(trades, w)
  }

  /** `all`, any selector the switch does not name, and `custom` with a bound missing leave the list as it is. */
  lemma UnfilteredSelectors(trades: seq<Trade>, timeframe: string, now: Instant,
                            startDate: Option<Date>, endDate: Option<Date>)
    requires ValidDate(now.date)
    requires timeframe !in {"week", "month", "year", "lastyear", "custom"}
             || (timeframe == "custom" && (startDate.None? || endDate.None?))
    ensures FilterTradesByTimeframe(trades, timeframe, now, startDate, endDate) == trades
  {
    KeepUnboundedIsIdentity(trades);
  }

  /** `week`: trades opened no earlier than the same clock time seven days ago. */
  lemma WeekSelector(trades: seq<Trade>, now: Instant, startDate: Option<Date>, endDate: Option<Date>)
    requires ValidDate(now.date)
    ensures forall t :: t in FilterTradesByTimeframe(trades, "week", now, startDate, endDate) <==>
      t in trades && AtOrBefore(WeekAgo(now), OpenTime(t))
  {
  }

  /** `month`: trades opened in the current calendar month or later. */
  lemma MonthSelector(trades: seq<Trade>, now: Instant, startDate: Option<Date>, endDate: Option<Date>)
    requires ValidDate(now.date)
    ensures forall t :: t in FilterTradesByTimeframe(trades, "month", now, startDate, endDate) <==>
      t in trades && (OpenTime(t).date.year > now.date.year
                      || (OpenTime(t).date.year == now.date.year && OpenTime(t).date.month >= now.date.month))
  {
  }

  /** `year`: trades opened in the current calendar year or later. */
  lemma YearSelector(trades: seq<Trade>, now: Instant, startDate: Option<Date>, endDate: Option<Date>)
    requires ValidDate(now.date)
    ensures forall t :: t in FilterTradesByTimeframe(trades, "year", now, startDate, endDate) <==>
      t in trades && OpenTime(t).date.year >= now.date.year
  {
  }

  /** `lastyear`: trades opened in the previous calendar year, up to 00:00 on its Dec 31. */
  lemma LastYearSelector(trades: seq<Trade>, now: Instant, startDate: Option<Date>, endDate: Option<Date>)
    requires ValidDate(now.date)
    ensures forall t :: t in FilterTradesByTimeframe(trades, "lastyear", now, startDate, endDate) <==>
      t in trades && OpenTime(t).date.year == now.date.year - 1
      && (OpenTime(t).date == Date(now.date.year - 1, 11, 31) ==> OpenTime(t).ms == 0)
  {
  }

  /** With the corrected window, `lastyear` would keep exactly the trades opened in the previous calendar year. */
  lemma CorrectedLastYearFilter(trades: seq<Trade>, now: Instant)
    ensures forall t :: t in Keep(trades, LastYearWindow(now)) <==>
      t in trades && OpenTime(t).date.year == now.date.year - 1
  {
    forall t | t in trades {
      LastYearWindowIsPreviousYear(now, t);
    }
  }

  /** `custom` with both bounds: trades opened on a day from `startDate` to `endDate`, both days included. */
  lemma CustomSelector(trades: seq<Trade>, now: Instant, startDate: Date, endDate: Date)
    requires ValidDate(now.date)
    ensures forall t :: t in FilterTradesByTimeframe(trades, "custom", now, Some(startDate), Some(endDate)) <==>
      t in trades && DayAtOrBefore(startDate, OpenTime(t).date) && DayAtOrBefore(OpenTime(t).date, endDate)
  {
  }
}
