/**
 * The monthly calendar: the trades indexed by the day they opened on, and
 * the grid of the viewed month, blank cells first so that every day falls
 * in the column of its weekday (Sunday first), each day shaded by the R:R
 * of the trade recorded for it.
 */
module CalendarView {
  import opened Wrappers
  import opened Dates
  import opened Trades

  /** The entry stored for a day: the raw `rr` of the trade, as `profit`. */
  datatype DayEntry = DayEntry(profit: RR)

  // ---------------------------------------------------------------------------
  // The day index
  // ---------------------------------------------------------------------------

  /** The index after folding `trades` from the left: a later trade of the same day overwrites an earlier one. */
  function TradeIndex(trades: seq<Trade>): map<Date, DayEntry> {
    if trades == [] then map[]
    else
      var acc := TradeIndex(trades[..|trades| - 1]);
      var last := trades[|trades| - 1];
      match DayOf(last)
      case Some(d) => acc[d := DayEntry(last.rr)]
      case None => acc
  }

  /** The position of the last trade of `trades` opened on day `d`, or -1 when none was. */
  function LastIndexOn(trades: seq<Trade>, d: Date): (r: int)
    ensures -1 <= r < |trades|
    ensures r >= 0 ==> DayOf(trades[r]) == Some(d)
    ensures forall k :: r < k < |trades| ==> DayOf(trades[k]) != Some(d)
  {
    if trades == [] then -1
    else if DayOf(trades[|trades| - 1]) == Some(d) then |trades| - 1
    else LastIndexOn(trades[..|trades| - 1], d)
  }

  /** `trades.reduce(...)` into `tradeData`, one trade at a time. */
  method BuildTradeIndex(trades: seq<Trade>) returns (tradeData: map<Date, DayEntry>)
    ensures tradeData == TradeIndex(trades)
  {
    tradeData := map[];
    var i := 0;
    while i < |trades|
      invariant 0 <= i <= |trades|
      invariant tradeData == TradeIndex(trades[..i])
    {
      assert trades[..i + 1][..i] == trades[..i];
      var trade := trades[i];
      if trade.openDate.Some? {
        tradeData := tradeData[trade.openDate.value.date := DayEntry(trade.rr)];
      }
      i := i + 1;
    }
    assert trades[..i] == trades;
  }

  /**
   * A day is in the index exactly when some trade opened on it, and its
   * entry holds the `rr` of the last such trade in list order.
   */
  lemma {:induction false} TradeIndexHoldsLastTradeOfDay(trades: seq<Trade>, d: Date)
    ensures d in TradeIndex(trades) <==> LastIndexOn(trades, d) >= 0
    ensures d in TradeIndex(trades) ==> TradeIndex(trades)[d].profit == trades[LastIndexOn(trades, d)].rr
  {
    if trades != [] {
      var init := trades[..|trades| - 1];
      TradeIndexHoldsLastTradeOfDay(init, d);
      if DayOf(trades[|trades| - 1]) != Some(d) {
        var r := LastIndexOn(init, d);
        assert LastIndexOn(trades, d) == r;
        if r >= 0 {
          assert trades[r] == init[r];
        }
      }
    }
  }

  /** Every key of the index is the day of some trade. */
  lemma TradeIndexKeysAreTradeDays(trades: seq<Trade>, d: Date)
    ensures d in TradeIndex(trades) <==> exists j :: 0 <= j < |trades| && DayOf(trades[j]) == Some(d)
  {
    TradeIndexHoldsLastTradeOfDay(trades, d);
    var r := LastIndexOn(trades, d);
    if r < 0 {
      assert forall j :: 0 <= j < |trades| ==> DayOf(trades[j]) != Some(d);
    }
  }

  // ---------------------------------------------------------------------------
  // Cells
  // ---------------------------------------------------------------------------

  /** The colour classes of a day: green, red, or the grey of a day without a gain or a loss. */
  datatype Shade = Green | Red | Neutral

  /** A leading empty cell, or a day with its shade and the profit printed under it. */
  datatype Cell = Blank(index: nat) | DayCell(date: Date, shade: Shade, shownProfit: Option<RR>)

  /** The classes the grid picks for a day with or without an entry (`profit > 0`, `profit < 0`, otherwise grey). */
  function ShadeFor(entry: Option<DayEntry>): (shade: Shade)
    ensures shade == Green <==> entry.Some? && entry.value.profit.Number? && entry.value.profit.value > 0.0
    ensures shade == Red <==> entry.Some? && entry.value.profit.Number? && entry.value.profit.value < 0.0
  {
    match entry
    case Some(DayEntry(Number(v))) => if v > 0.0 then Green else if v < 0.0 then Red else Neutral
    case _ => Neutral
  }

  function Lookup(tradeData: map<Date, DayEntry>, d: Date): Option<DayEntry> {
    if d in tradeData then Some(tradeData[d]) else None
  }

  /** The cell of day `d`. */
  function CellFor(d: Date, tradeData: map<Date, DayEntry>): Cell {
    var entry := Lookup(tradeData, d);
    DayCell(d, ShadeFor(entry), if entry.Some? then Some(entry.value.profit) else None)
  }

  /**
   * A day of the calendar built from `trades` is green exactly when the last
   * trade opened on it has a positive R:R, red exactly when that R:R is
   * negative, and shows a profit exactly when some trade opened on it.
   */
  lemma DayCellFollowsLastTrade(trades: seq<Trade>, d: Date)
    ensures var c := CellFor(d, TradeIndex(trades));
            var r := LastIndexOn(trades, d);
            (c.shade == Green <==> r >= 0 && trades[r].rr.Number? && trades[r].rr.value > 0.0)
            && (c.shade == Red <==> r >= 0 && trades[r].rr.Number? && trades[r].rr.value < 0.0)
            && (c.shownProfit.Some? <==> r >= 0)
            && (r >= 0 ==> c.shownProfit == Some(trades[r].rr))
  {
    TradeIndexHoldsLastTradeOfDay(trades, d);
  }

  // ---------------------------------------------------------------------------
  // The grid
  // ---------------------------------------------------------------------------

  /** `calendarGrid()` for the month of `viewed`: `startDay` blanks, then one cell per day of the month. */
  function Grid(viewed: Date, tradeData: map<Date, DayEntry>): seq<Cell> {
    var startDay := Weekday(StartOfMonth(viewed));
    var days := DaysOfMonth(viewed);
    seq(startDay, i requires 0 <= i < startDay => Blank(i))
      + seq(|days|, k requires 0 <= k < |days| => CellFor(days[k], tradeData))
  }

  /** The grid built cell by cell, as the two loops of `calendarGrid` push them. */
  method CalendarGrid(viewed: Date, tradeData: map<Date, DayEntry>) returns (grid: seq<Cell>)
    ensures grid == Grid(viewed, tradeData)
  {
    grid := [];
    var startDay := Weekday(StartOfMonth(viewed));
    for i := 0 to startDay
      invariant grid == seq(i, j requires 0 <= j < i => Blank(j))
    {
      grid := grid + [Blank(i)];
    }
    var days := DaysOfMonth(viewed);
    for k := 0 to |days|
      invariant |grid| == startDay + k
      invariant forall j :: 0 <= j < startDay ==> grid[j] == Blank(j)
      invariant forall j :: 0 <= j < k ==> grid[startDay + j] == CellFor(days[j], tradeData)
    {
      var date := days[k];
      var entry := Lookup(tradeData, date);
      var shownProfit := if entry.Some? then Some(entry.value.profit) else None;
      grid := grid + [DayCell(date, ShadeFor(entry), shownProfit)];
    }
  }

  /** One weekday after `k - 1` weekdays past `w` is `k` weekdays past `w`. */
  lemma NextWeekdayAfter(w: int, k: int, a: int)
    requires a == (w + k - 1) % 7
    ensures (a + 1) % 7 == (w + k) % 7
  {
    ModSeven(w + k - 1, 0);
  }

  /** Day `k + 1` of a month falls `k` weekdays after the first. */
  lemma {:induction false} WeekdayOfDayInMonth(d: Date, k: nat)
    requires k < DaysInMonth(d.year, d.month)
    ensures Weekday(Date(d.year, d.month, k + 1)) == (Weekday(StartOfMonth(d)) + k) % 7
  {
    if k > 0 {
      var prev := Date(d.year, d.month, k);
      WeekdayOfDayInMonth(d, k - 1);
      WeekdayOfNextDay(prev);
      assert NextDay(prev) == Date(d.year, d.month, k + 1);
      NextWeekdayAfter(Weekday(StartOfMonth(d)), k, Weekday(prev));
    }
  }

  /**
   * The layout of the grid in rows of seven: the cells before the first of
   * the month are blank, the rest are the days of the month in order, and
   * every day sits in the column of its own weekday.
   */
  lemma GridPutsDaysUnderTheirWeekday(viewed: Date, tradeData: map<Date, DayEntry>)
    ensures var g := Grid(viewed, tradeData);
            var startDay := Weekday(StartOfMonth(viewed));
            |g| == startDay + DaysInMonth(viewed.year, viewed.month)
            && (forall i :: 0 <= i < startDay ==> g[i].Blank?)
            && (forall i :: startDay <= i < |g| ==>
                  g[i].DayCell? && g[i].date == Date(viewed.year, viewed.month, i - startDay + 1)
                  && Weekday(g[i].date) == i % 7)
  {
    var g := Grid(viewed, tradeData);
    var startDay := Weekday(StartOfMonth(viewed));
    var days := DaysOfMonth(viewed);
    forall i | startDay <= i < |g|
      ensures g[i].DayCell? && g[i].date == Date(viewed.year, viewed.month, i - startDay + 1)
      ensures Weekday(g[i].date) == i % 7
    {
      assert g[i] == CellFor(days[i - startDay], tradeData);
      WeekdayOfDayInMonth(viewed, i - startDay);
    }
  }
}
