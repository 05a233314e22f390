/**
 * The trade record as the charts read it: only the fields the statistics
 * use (an identifier, `open_date` and `rr`) are kept.
 */
module Trades {
  import opened Wrappers
  import opened Dates

  /** A stored risk/reward: a number, or a value `parseFloat` reads as NaN. */
  datatype RR = Number(value: real) | NotANumber

  /** `openDate` is `None` when the backend returns `null` for `open_date`. */
  datatype Trade = Trade(id: int, openDate: Option<CalendarInstant>, rr: RR)

  /** `parseFloat(trade.rr) || 0`: NaN, and every other falsy result, becomes 0. */
  function RROrZero(rr: RR): (r: real)
    ensures rr.Number? ==> r == rr.value
    ensures rr.NotANumber? ==> r == 0.0
  {
    match rr
    case Number(v) => v
    case NotANumber => 0.0
  }

  /** `new Date(trade.open_date)`: a `null` date is the epoch. */
  function OpenTime(t: Trade): CalendarInstant {
    t.openDate.GetOr(Epoch)
  }

  /** The calendar day of `open_date`, when `open_date` is present at all. */
  function DayOf(t: Trade): Option<Date> {
    match t.openDate
    case Some(i) => Some(i.date)
    case None => None
  }

  /** The running total `cumulativeRR += parseFloat(trade.rr) || 0` after the last trade of `s`. */
  function SumRR(s: seq<Trade>): real {
    if s == [] then 0.0 else SumRR(s[..|s| - 1]) + RROrZero(s[|s| - 1].rr)
  }

  /** One more trade adds its value to the running total. */
  lemma SumRRPrefixStep(s: seq<Trade>, i: int)
    requires 0 <= i < |s|
    ensures SumRR(s[..i + 1]) == SumRR(s[..i]) + RROrZero(s[i].rr)
  {
    assert s[..i + 1][..i] == s[..i];
  }

  lemma {:induction false} SumRRAppend(a: seq<Trade>, b: seq<Trade>)
    ensures SumRR(a + b) == SumRR(a) + SumRR(b)
    decreases |b|
  {
    if b != [] {
      var b' := b[..|b| - 1];
      assert (a + b)[..|a + b| - 1] == a + b';
      SumRRAppend(a, b');
    } else {
      assert a + b == a;
    }
  }

  /** The total of a single trade is its own value. */
  lemma SumRRSingle(x: Trade)
    ensures SumRR([x]) == RROrZero(x.rr)
  {
    assert [x][..0] == [];
  }

  /** Taking one trade out of a list takes its value out of the total. */
  lemma SumRRWithout(b: seq<Trade>, k: int)
    requires 0 <= k < |b|
    ensures SumRR(b) == SumRR(b[..k] + b[k + 1..]) + RROrZero(b[k].rr)
  {
    var before, one, after := b[..k], [b[k]], b[k + 1..];
    assert before + one == b[..k + 1];
    assert b[..k + 1] + after == b;
    SumRRAppend(before + one, after);
    SumRRAppend(before, one);
    SumRRAppend(before, after);
    SumRRSingle(b[k]);
  }

  lemma MultisetWithout(a: seq<Trade>, b: seq<Trade>, k: int)
    requires multiset(a) == multiset(b) && a != [] && 0 <= k < |b| && b[k] == a[|a| - 1]
    ensures multiset(a[..|a| - 1]) == multiset(b[..k] + b[k + 1..])
  {
    var x := b[k];
    assert a == a[..|a| - 1] + [x];
    assert b == b[..k] + [x] + b[k + 1..];
    assert multiset(a) == multiset(a[..|a| - 1]) + multiset{x};
    assert multiset(b) == multiset(b[..k]) + multiset{x} + multiset(b[k + 1..]);
    assert multiset(b[..k] + b[k + 1..]) == multiset(b[..k]) + multiset(b[k + 1..]);
    assert multiset(a[..|a| - 1]) == multiset(a) - multiset{x};
    assert multiset(b[..k] + b[k + 1..]) == multiset(b) - multiset{x};
  }

  /** The total does not depend on the order the trades are summed in. */
  lemma {:induction false} SumRRPermutation(a: seq<Trade>, b: seq<Trade>)
    requires multiset(a) == multiset(b)
    ensures SumRR(a) == SumRR(b)
    decreases |a|
  {
    if a == [] {
      assert |b| == |multiset(b)| == 0;
    } else {
      var x := a[|a| - 1];
      assert x in multiset(b) by {
        assert x in multiset(a);
      }
      var k :| 0 <= k < |b| && b[k] == x;
      MultisetWithout(a, b, k);
      SumRRPermutation(a[..|a| - 1], b[..k] + b[k + 1..]);
      SumRRWithout(b, k);
    }
  }
}
