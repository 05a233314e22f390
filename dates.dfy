/**
 * Civil dates and instants as the JavaScript `Date` accessors (`getFullYear`,
 * `getMonth`, `getDate`, `getDay`) report them in one fixed time zone.
 * An instant is the calendar day plus the milliseconds since that day's
 * midnight; ordering instants this way is the order of their `getTime()`.
 */
module Dates {

  /** `getMonth()`: 0 is January, 11 is December. */
  type Month = m: int | 0 <= m < 12

  /** `getDate()`: the day of the month. */
  type DayOfMonth = d: int | 1 <= d <= 31 witness 1

  /** Milliseconds since local midnight. */
  type MsOfDay = ms: int | 0 <= ms < 86400000

  datatype Date = Date(year: int, month: Month, day: DayOfMonth)

  datatype Instant = Instant(date: Date, ms: MsOfDay)

  /** `new Date(0)`, which is also what `new Date(null)` yields. */
  const Epoch: Instant := Instant(Date(1970, 0, 1), 0)

  /** 23:59:59.999, the time `setHours(23, 59, 59, 999)` sets. */
  const EndOfDay: MsOfDay := 86399999

  predicate IsLeapYear(y: int) {
    (y % 4 == 0 && y % 100 != 0) || y % 400 == 0
  }

  function DaysInMonth(y: int, m: Month): (n: int)
    ensures 28 <= n <= 31
    ensures m == 1 <==> n < 30
  {
    if m == 1 then (if IsLeapYear(y) then 29 else 28)
    else if m == 3 || m == 5 || m == 8 || m == 10 then 30
    else 31
  }

  /** A date the proleptic Gregorian calendar has. */
  predicate ValidDate(d: Date) {
    d.day <= DaysInMonth(d.year, d.month)
  }

  /** An instant whose day the calendar has: what a `Date` object always denotes. */
  type CalendarInstant = i: Instant | ValidDate(i.date) witness Instant(Date(1970, 0, 1), 0)

  /** Calendar-day order: `a` is the same day as `b` or an earlier one. */
  predicate DayAtOrBefore(a: Date, b: Date) {
    if a.year != b.year then a.year < b.year
    else if a.month != b.month then a.month < b.month
    else a.day <= b.day
  }

  /** Chronological order of instants: what `a <= b` decides on two `Date` objects. */
  predicate AtOrBefore(a: Instant, b: Instant) {
    if a.date != b.date then DayAtOrBefore(a.date, b.date) else a.ms <= b.ms
  }

  lemma AtOrBeforeIsTotalOrder(a: Instant, b: Instant, c: Instant)
    ensures AtOrBefore(a, a)
    ensures AtOrBefore(a, b) || AtOrBefore(b, a)
    ensures AtOrBefore(a, b) && AtOrBefore(b, a) ==> a == b
    ensures AtOrBefore(a, b) && AtOrBefore(b, c) ==> AtOrBefore(a, c)
  {
  }

  /** The day after `d`, rolling over into the next month and year. */
  function NextDay(d: Date): (r: Date)
    requires ValidDate(d)
    ensures ValidDate(r)
    ensures DayAtOrBefore(d, r) && r != d
  {
    if d.day < DaysInMonth(d.year, d.month) then Date(d.year, d.month, d.day + 1)
    else if d.month < 11 then Date(d.year, d.month + 1, 1)
    else Date(d.year + 1, 0, 1)
  }

  /** The day before `d`: what `setDate(getDate() - 1)` moves to. */
  function PrevDay(d: Date): (r: Date)
    requires ValidDate(d)
    ensures ValidDate(r)
    ensures NextDay(r) == d
  {
    if d.day > 1 then Date(d.year, d.month, d.day - 1)
    else if d.month > 0 then Date(d.year, d.month - 1, DaysInMonth(d.year, d.month - 1))
    else Date(d.year - 1, 11, 31)
  }

  lemma PrevDayOfNextDay(d: Date)
    requires ValidDate(d)
    ensures PrevDay(NextDay(d)) == d
  {
  }

  /** `n` days before `d`: `setDate(getDate() - n)`, which normalises into earlier months. */
  function SubtractDays(d: Date, n: nat): (r: Date)
    requires ValidDate(d)
    ensures ValidDate(r)
    ensures DayAtOrBefore(r, d)
    ensures n > 0 ==> r != d
  {
    if n == 0 then d else PrevDay(SubtractDays(d, n - 1))
  }

  /** `n` days after `d`, one `NextDay` step at a time. */
  function AddDays(d: Date, n: nat): (r: Date)
    requires ValidDate(d)
    ensures ValidDate(r)
    decreases n
  {
    if n == 0 then d else AddDays(NextDay(d), n - 1)
  }

  lemma {:induction false} AddDaysUndoesSubtractDays(d: Date, n: nat)
    requires ValidDate(d)
    ensures AddDays(SubtractDays(d, n), n) == d
  {
    if n > 0 {
      var e := SubtractDays(d, n - 1);
      assert SubtractDays(d, n) == PrevDay(e);
      assert NextDay(PrevDay(e)) == e;
      AddDaysUndoesSubtractDays(d, n - 1);
    }
  }

  /** Day-of-week offsets of Sakamoto's method, indexed by `getMonth()`. */
  const MonthOffsets: seq<int> := [0, 3, 2, 5, 0, 3, 5, 1, 4, 6, 2, 4]

  /** The year-dependent part of Sakamoto's day-of-week sum. */
  function YearPart(y: int): int {
    y + y / 4 - y / 100 + y / 400
  }

  /** Sakamoto's sum for `d`; its remainder modulo 7 is the weekday. */
  function WeekdaySum(d: Date): int {
    var y := if d.month < 2 then d.year - 1 else d.year;
    YearPart(y) + MonthOffsets[d.month] + d.day
  }

  /** `getDay()`: 0 is Sunday, 6 is Saturday. */
  function Weekday(d: Date): (w: int)
    ensures 0 <= w < 7
  {
    WeekdaySum(d) % 7
  }

  lemma EpochIsThursday()
    ensures Weekday(Epoch.date) == 4
  {
  }

  lemma StepOverFour(y: int)
    ensures y / 4 - (y - 1) / 4 == if y % 4 == 0 then 1 else 0
  {
  }

  lemma StepOverHundred(y: int)
    ensures y / 100 - (y - 1) / 100 == if y % 100 == 0 then 1 else 0
  {
  }

  lemma StepOverFourHundred(y: int)
    ensures y / 400 - (y - 1) / 400 == if y % 400 == 0 then 1 else 0
  {
  }

  lemma HundredsAreFours(y: int)
    requires y % 100 == 0
    ensures y % 4 == 0
  {
    var q := y / 100;
    assert y == 100 * q;
    assert y / 4 == 25 * q;
  }

  lemma FourHundredsAreHundreds(y: int)
    requires y % 400 == 0
    ensures y % 100 == 0
  {
    var q := y / 400;
    assert y == 400 * q;
    assert y / 100 == 4 * q;
  }

  /** Leap years add one extra day to the year-dependent part of the sum. */
  lemma YearShift(y: int)
    ensures YearPart(y) - YearPart(y - 1) == if IsLeapYear(y) then 2 else 1
  {
    StepOverFour(y);
    StepOverHundred(y);
    StepOverFourHundred(y);
    if y % 100 == 0 {
      HundredsAreFours(y);
    }
    if y % 400 == 0 {
      FourHundredsAreHundreds(y);
      HundredsAreFours(y);
    }
  }

  lemma ModSeven(x: int, k: int)
    ensures (x + 1 - 7 * k) % 7 == (x % 7 + 1) % 7
  {
  }

  /** A day whose sum is one more than another's, up to whole weeks, falls on the next weekday. */
  lemma NextWeekdayFromSum(a: Date, b: Date, k: int)
    requires WeekdaySum(b) == WeekdaySum(a) + 1 - 7 * k
    ensures Weekday(b) == (Weekday(a) + 1) % 7
  {
    ModSeven(WeekdaySum(a), k);
  }

  /** Consecutive days fall on consecutive weekdays, across month and year ends too. */
  lemma WeekdayOfNextDay(d: Date)
    requires ValidDate(d)
    ensures Weekday(NextDay(d)) == (Weekday(d) + 1) % 7
  {
    var x, n := WeekdaySum(d), NextDay(d);
    var dim := DaysInMonth(d.year, d.month);
    if d.day < dim {
      assert WeekdaySum(n) == x + 1;
      NextWeekdayFromSum(d, n, 0);
    } else if d.month == 1 {
      YearShift(d.year);
      assert WeekdaySum(n) == x + 1 - 7 * 4;
      NextWeekdayFromSum(d, n, 4);
    } else if d.month == 11 {
      assert WeekdaySum(n) == x + 1 - 7 * 5;
      NextWeekdayFromSum(d, n, 5);
    } else if d.month == 3 || d.month == 6 || d.month == 9 {
      assert WeekdaySum(n) == x + 1 - 7 * 5;
      NextWeekdayFromSum(d, n, 5);
    } else {
      assert WeekdaySum(n) == x + 1 - 7 * 4;
      NextWeekdayFromSum(d, n, 4);
    }
  }

  function StartOfMonth(d: Date): Date {
    Date(d.year, d.month, 1)
  }

  function EndOfMonth(d: Date): Date {
    Date(d.year, d.month, DaysInMonth(d.year, d.month))
  }

  /** `eachDayOfInterval({ start: startOfMonth(d), end: endOfMonth(d) })`. */
  function DaysOfMonth(d: Date): (days: seq<Date>)
    ensures |days| == DaysInMonth(d.year, d.month)
    ensures days[0] == StartOfMonth(d) && days[|days| - 1] == EndOfMonth(d)
    ensures forall k :: 0 <= k < |days| ==> ValidDate(days[k]) && days[k].year == d.year && days[k].month == d.month
    ensures forall k :: 0 <= k < |days| - 1 ==> days[k + 1] == NextDay(days[k])
  {
    var n := DaysInMonth(d.year, d.month);
    seq(n, k requires 0 <= k < n => Date(d.year, d.month, k + 1))
  }
}
