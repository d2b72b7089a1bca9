/** The trading-day partition of the timeline: days roll at 18:00 China Standard Time and weekend
    dates belong to the following Monday. Timestamps are nanoseconds since the Unix epoch, days are
    civil dates counted from 1970-01-01 (a Thursday). */
module TradingDays {
  type Day = int

  const NANOS_PER_HOUR := 3_600_000_000_000
  const NANOS_PER_DAY := 24 * NANOS_PER_HOUR
  const CST_OFFSET := 8 * NANOS_PER_HOUR
  const CUTOFF := 18 * NANOS_PER_HOUR

  /** Monday is 0, Sunday is 6. */
  function Weekday(d: Day): (w: int)
    ensures 0 <= w < 7
  {
    (d + 3) % 7
  }

  predicate IsWeekend(d: Day) {
    Weekday(d) >= 5
  }

  /** The first date at or after `d` that is not a weekend date. */
  function NormalizeWeekend(d: Day): (r: Day)
    ensures d <= r <= d + 2 && !IsWeekend(r)
    ensures forall k :: d <= k < r ==> IsWeekend(k)
  {
    if IsWeekend(d) then d + 7 - Weekday(d) else d
  }

  /** The last date before `d` that is not a weekend date. */
  function PreviousBusinessDay(d: Day): (r: Day)
    ensures d - 3 <= r < d && !IsWeekend(r)
    ensures forall k :: r < k < d ==> IsWeekend(k)
  {
    if IsWeekend(d - 1) then d + 3 - Weekday(d - 1) else d - 1
  }

  /** Skips weekend dates one at a time. */
  method SkipWeekend(d: Day) returns (r: Day)
    ensures r == NormalizeWeekend(d)
  {
    r := d;
    while IsWeekend(r)
      invariant d <= r && NormalizeWeekend(r) == NormalizeWeekend(d)
      decreases NormalizeWeekend(d) - r
    {
      r := r + 1;
    }
  }

  /** Steps back one date, then past any weekend dates. */
  method StepBackToBusinessDay(d: Day) returns (r: Day)
    ensures r == PreviousBusinessDay(d)
  {
    r := d - 1;
    while IsWeekend(r)
      invariant PreviousBusinessDay(d) <= r < d
      invariant forall k :: r < k < d ==> IsWeekend(k)
      decreases r - PreviousBusinessDay(d)
    {
      r := r - 1;
    }
  }

  /** 18:00 local time on date `d`. */
  function Boundary(d: Day): int {
    d * NANOS_PER_DAY + CUTOFF - CST_OFFSET
  }

  /** The date whose evening boundary is the next one after `ts`. */
  function CutoffDate(ts: int): (d: Day)
    ensures Boundary(d - 1) <= ts < Boundary(d)
  {
    var local := ts + CST_OFFSET;
    var date := local / NANOS_PER_DAY;
    if local % NANOS_PER_DAY >= CUTOFF then date + 1 else date
  }

  function TradingDayOf(ts: int): (d: Day)
    ensures !IsWeekend(d)
  {
    NormalizeWeekend(CutoffDate(ts))
  }

  function TradingDayRange(d: Day): (r: (int, int))
    ensures r.0 < r.1
  {
    var day := NormalizeWeekend(d);
    (Boundary(PreviousBusinessDay(day)), Boundary(day))
  }

  lemma BoundaryOrder(a: Day, b: Day)
    ensures a <= b <==> Boundary(a) <= Boundary(b)
  {
  }

  /** Ranges and the timestamp classifier describe the same partition: `ts` is classified to the
      (normalized) day `d` exactly when it lies in the half-open range of `d`. */
  lemma PartitionTheorem(ts: int, d: Day)
    ensures TradingDayOf(ts) == NormalizeWeekend(d)
       <==> TradingDayRange(d).0 <= ts < TradingDayRange(d).1
  {
    var c := CutoffDate(ts);
    var day := NormalizeWeekend(d);
    var prev := PreviousBusinessDay(day);
    BeforeBoundary(ts, prev);
    BeforeBoundary(ts, day);
    assert NormalizeWeekend(c) == day <==> prev < c <= day;
  }

  lemma BeforeBoundary(ts: int, d: Day)
    ensures ts < Boundary(d) <==> CutoffDate(ts) <= d
  {
    var c := CutoffDate(ts);
    BoundaryOrder(c, d);
    BoundaryOrder(d, c - 1);
  }

  lemma NormalizeMonotone(a: Day, b: Day)
    requires a <= b
    ensures NormalizeWeekend(a) <= NormalizeWeekend(b)
  {
    var n := NormalizeWeekend(b);
    assert !IsWeekend(n);
  }

  lemma CutoffMonotone(s: int, t: int)
    requires s <= t
    ensures CutoffDate(s) <= CutoffDate(t)
  {
    BeforeBoundary(s, CutoffDate(t));
  }

  /** A later timestamp never belongs to an earlier trading day. */
  lemma TradingDayMonotone(s: int, t: int)
    requires s <= t
    ensures TradingDayOf(s) <= TradingDayOf(t)
  {
    CutoffMonotone(s, t);
    NormalizeMonotone(CutoffDate(s), CutoffDate(t));
  }

  /** The range of a day starts where the range of the previous business day ends. */
  lemma RangesAreContiguous(d: Day)
    ensures TradingDayRange(PreviousBusinessDay(NormalizeWeekend(d))).1 == TradingDayRange(d).0
  {
  }

  /** A date counts as finished at `cursor` exactly when its trading day precedes the cursor's day. */
  lemma FinishedBefore(d: Day, cursor: int)
    ensures TradingDayRange(d).1 <= cursor <==> NormalizeWeekend(d) < TradingDayOf(cursor)
  {
    var day := NormalizeWeekend(d);
    BeforeBoundary(cursor, day);
    assert CutoffDate(cursor) <= day <==> NormalizeWeekend(CutoffDate(cursor)) <= day;
  }

  /** 1970-01-01 was a Thursday. In 2026 the trading day of Friday, July 17 began on the Thursday at 18:00 China
      time, and that of Saturday, July 18 is the one of Monday, July 20, which ended on that day at 18:00. */
  lemma ClockIsSet()
    ensures Weekday(0) == 3
    ensures TradingDayRange(20651).0 == 1_784_196_000 * 1_000_000_000
    ensures NormalizeWeekend(20652) == 20654
    ensures TradingDayRange(20652).1 == 1_784_541_600 * 1_000_000_000
  {
  }
}
