/** Counting the trading days of a list of time ranges. The simple definition builds the set of days;
    the program sorts and merges day spans and adds their lengths. */
module DayCounting {
  import opened Wrappers
  import opened Lists
  import opened Ranges
  import opened TradingDays

  /** The exchange calendar, when one has been loaded: a list of trading days. */
  type Calendar = Option<seq<Day>>

  predicate Within(a: Day, d: Day, b: Day) {
    a <= d <= b
  }

  /** All days from `a` to `b`, both included. */
  ghost function Interval(a: Day, b: Day): set<Day> {
    set d | a <= d <= b && Within(a, d, b)
  }

  lemma {:induction false} IntervalSize(a: Day, b: Day)
    requires a <= b + 1
    ensures |Interval(a, b)| == b - a + 1
    decreases b - a + 1
  {
    if a <= b {
      IntervalSize(a, b - 1);
      assert Interval(a, b) == Interval(a, b - 1) + {b};
    }
  }

  /** Days of the partition from the first to the last day that a non-empty range touches. */
  ghost function TouchedDays(r: Range): set<Day> {
    if r.0 < r.1 then Interval(SpanOf(r).0, SpanOf(r).1) else {}
  }

  ghost function PartitionDays(rs: set<Range>): set<Day> {
    set r, d | r in rs && d in TouchedDays(r) :: d
  }

  /** The days of a set of ranges that the calendar, if any, lists. */
  ghost function Days(rs: set<Range>, calendar: Calendar): set<Day> {
    match calendar
    case None => PartitionDays(rs)
    case Some(days) => set d | d in PartitionDays(rs) && d in days
  }

  /** Calendar entries that fall on one of `keep`, with repetitions. */
  ghost function Hits(days: seq<Day>, keep: set<Day>): (r: seq<Day>)
    ensures forall d :: d in r <==> d in days && d in keep
  {
    if days == [] then []
    else
      var rest := Hits(days[1..], keep);
      assert forall d :: d in days <==> d == days[0] || d in days[1..];
      if days[0] in keep then [days[0]] + rest else rest
  }

  /** The number the program reports: partition days, or calendar entries that fall on them. */
  ghost function DayCount(rs: set<Range>, calendar: Calendar): nat {
    match calendar
    case None => |PartitionDays(rs)|
    case Some(days) => |Hits(days, PartitionDays(rs))|
  }

  /** Builds the day set range by range and day by day. */
  method DaysForRanges(ranges: seq<Range>, calendar: Calendar) returns (days: set<Day>)
    ensures days == Days(Elements(ranges), calendar)
  {
    hide TradingDayOf;
    days := {};
    for i := 0 to |ranges|
      invariant days == Days(Elements(ranges[..i]), calendar)
    {
      PartitionDaysAppend(ranges[..i], ranges[i]);
      assert ranges[..i] + [ranges[i]] == ranges[..i + 1];
      days := AddDaysOfRange(days, ranges[i], calendar);
    }
    assert ranges[..|ranges|] == ranges;
  }

  method AddDaysOfRange(before: set<Day>, r: Range, calendar: Calendar) returns (days: set<Day>)
    ensures days == before + set d | d in TouchedDays(r) && (calendar.None? || d in calendar.value)
  {
    hide TradingDayOf;
    days := before;
    if r.0 >= r.1 {
      return;
    }
    var first, last := TradingDayOf(r.0), TradingDayOf(r.1 - 1);
    TradingDayMonotone(r.0, r.1 - 1);
    var day := first;
    while day <= last
      invariant first <= day <= last + 1
      invariant days == before + set d | d in Interval(first, day - 1) && (calendar.None? || d in calendar.value)
    {
      if calendar.None? || day in calendar.value {
        days := days + {day};
      }
      day := day + 1;
    }
  }

  lemma PartitionDaysAppend(ranges: seq<Range>, r: Range)
    ensures PartitionDays(Elements(ranges + [r])) == PartitionDays(Elements(ranges)) + TouchedDays(r)
  {
    assert Elements(ranges + [r]) == Elements(ranges) + {r};
  }

  /** First and last trading day of a non-empty range. */
  function SpanOf(r: Range): (s: Range)
    requires r.0 < r.1
    ensures s.0 <= s.1
  {
    TradingDayMonotone(r.0, r.1 - 1);
    (TradingDayOf(r.0), TradingDayOf(r.1 - 1))
  }

  /** Inclusive day spans of the non-empty ranges, in list order. */
  function DaySpans(ranges: seq<Range>): (spans: seq<Range>)
    ensures forall i :: 0 <= i < |spans| ==> spans[i].0 <= spans[i].1
  {
    if ranges == [] then []
    else
      var init, r := DaySpans(ranges[..|ranges| - 1]), ranges[|ranges| - 1];
      if r.0 >= r.1 then init else init + [SpanOf(r)]
  }

  /** Days inside some inclusive span. */
  ghost function Covered(spans: seq<Range>): set<Day> {
    set s, d | s in spans && d in Interval(s.0, s.1) :: d
  }

  lemma CoveredAppend(spans: seq<Range>, s: Range)
    ensures Covered(spans + [s]) == Covered(spans) + Interval(s.0, s.1)
  {
    assert forall x :: x in spans + [s] <==> x in spans || x == s;
  }

  lemma {:induction false} DaySpansCover(ranges: seq<Range>)
    ensures Covered(DaySpans(ranges)) == PartitionDays(Elements(ranges))
  {
    hide TradingDayOf;
    if ranges != [] {
      var init, r := ranges[..|ranges| - 1], ranges[|ranges| - 1];
      DaySpansCover(init);
      PartitionDaysAppend(init, r);
      assert ranges == init + [r];
      if r.0 < r.1 {
        CoveredAppend(DaySpans(init), SpanOf(r));
      }
    }
  }

  /** Non-empty spans in order, with at least one uncovered day between neighbours. */
  ghost predicate Separated(spans: seq<Range>) {
    && (forall i :: 0 <= i < |spans| ==> spans[i].0 <= spans[i].1)
    && (forall i, j :: 0 <= i < j < |spans| ==> spans[i].1 + 1 < spans[j].0)
  }

  /** One merge step: extends the last span when `s` overlaps or touches it, else appends `s`. */
  method MergeSpan(merged: seq<Range>, s: Range) returns (r: seq<Range>)
    requires Separated(merged) && s.0 <= s.1
    requires merged != [] ==> merged[|merged| - 1].0 <= s.0
    ensures Separated(r) && r != [] && r[|r| - 1].0 <= s.0
    ensures Covered(r) == Covered(merged) + Interval(s.0, s.1)
  {
    if merged != [] && s.0 <= merged[|merged| - 1].1 + 1 {
      var init, last := merged[..|merged| - 1], merged[|merged| - 1];
      var grown := (last.0, if last.1 >= s.1 then last.1 else s.1);
      CoveredAppend(init, last);
      CoveredAppend(init, grown);
      assert merged == init + [last];
      assert Interval(grown.0, grown.1) == Interval(last.0, last.1) + Interval(s.0, s.1);
      r := init + [grown];
    } else {
      CoveredAppend(merged, s);
      r := merged + [s];
    }
  }

  /** Sorts the spans, then merges each one into the last merged span when they overlap or touch. */
  method NormalizedTradingDayRanges(ranges: seq<Range>) returns (merged: seq<Range>)
    ensures Separated(merged)
    ensures Covered(merged) == PartitionDays(Elements(ranges))
  {
    hide TradingDayOf;
    var spans := DaySpans(ranges);
    DaySpansCover(ranges);
    var days := Sort(spans);
    assert forall i :: 0 <= i < |days| ==> days[i] in spans;
    merged := [];
    for i := 0 to |days|
      invariant Separated(merged)
      invariant merged != [] ==> i > 0 && merged[|merged| - 1].0 <= days[i - 1].0
      invariant Covered(merged) == Covered(days[..i])
    {
      CoveredAppend(days[..i], days[i]);
      assert days[..i] + [days[i]] == days[..i + 1];
      merged := MergeSpan(merged, days[i]);
    }
    assert days[..|days|] == days;
    assert Covered(days) == Covered(spans);
  }

  ghost function TotalLength(spans: seq<Range>): int {
    if spans == [] then 0
    else
      var last := spans[|spans| - 1];
      TotalLength(spans[..|spans| - 1]) + (last.1 - last.0 + 1)
  }

  lemma AppendLength(init: seq<Range>, last: Range)
    ensures TotalLength(init + [last]) == TotalLength(init) + (last.1 - last.0 + 1)
  {
    assert (init + [last])[..|init|] == init;
  }

  lemma LastSpanIsDisjoint(init: seq<Range>, last: Range)
    requires Separated(init + [last])
    ensures Separated(init) && last.0 <= last.1
    ensures Covered(init) !! Interval(last.0, last.1)
  {
    var all := init + [last];
    assert forall i :: 0 <= i < |init| ==> all[i] == init[i];
    assert all[|init|] == last;
  }

  /** Adding up span lengths counts days because separated spans share none. */
  lemma {:induction false} TotalLengthCountsDays(spans: seq<Range>)
    requires Separated(spans)
    ensures TotalLength(spans) == |Covered(spans)|
  {
    if spans != [] {
      var init, last := spans[..|spans| - 1], spans[|spans| - 1];
      assert spans == init + [last];
      LastSpanIsDisjoint(init, last);
      TotalLengthCountsDays(init);
      CoveredAppend(init, last);
      IntervalSize(last.0, last.1);
      AppendLength(init, last);
    }
  }

  /** The program's day count, by sorting and merging, equals the count over explicit day sets. */
  method DayCountForRanges(ranges: seq<Range>, calendar: Calendar) returns (count: nat)
    ensures count == DayCount(Elements(ranges), calendar)
  {
    var merged := NormalizedTradingDayRanges(ranges);
    ghost var days := PartitionDays(Elements(ranges));
    count := 0;
    if calendar.Some? {
      for i := 0 to |calendar.value|
        invariant count == |Hits(calendar.value[..i], days)|
      {
        var day := calendar.value[i];
        HitsAppend(calendar.value[..i], day, days);
        assert calendar.value[..i] + [day] == calendar.value[..i + 1];
        assert day in Covered(merged) <==> exists s :: s in merged && day in Interval(s.0, s.1);
        if exists s :: s in merged && s.0 <= day <= s.1 {
          count := count + 1;
        }
      }
      assert calendar.value[..|calendar.value|] == calendar.value;
      return;
    }
    for i := 0 to |merged|
      invariant count == TotalLength(merged[..i])
    {
      AppendLength(merged[..i], merged[i]);
      assert merged[..i] + [merged[i]] == merged[..i + 1];
      count := count + (merged[i].1 - merged[i].0 + 1);
    }
    assert merged[..|merged|] == merged;
    TotalLengthCountsDays(merged);
  }

  lemma {:induction false} HitsAppend(days: seq<Day>, d: Day, keep: set<Day>)
    ensures Hits(days + [d], keep) == Hits(days, keep) + if d in keep then [d] else []
  {
    if days != [] {
      HitsAppend(days[1..], d, keep);
      assert (days + [d])[1..] == days[1..] + [d];
    }
  }

  /** The count is the size of the day set: always without a calendar, and with a calendar exactly
      when the calendar does not list a counted day twice. */
  lemma DayCountIsDaySetSize(rs: set<Range>, calendar: Calendar)
    ensures DayCount(rs, calendar) >= |Days(rs, calendar)|
    ensures DayCount(rs, calendar) == |Days(rs, calendar)|
       <==> calendar.None? || Distinct(Hits(calendar.value, PartitionDays(rs)))
  {
    if calendar.Some? {
      var hits := Hits(calendar.value, PartitionDays(rs));
      ElementsSize(hits);
      assert Elements(hits) == Days(rs, calendar);
    }
  }

  /** A calendar of distinct days counts exactly the day set. */
  lemma {:induction false} HitsDistinct(days: seq<Day>, keep: set<Day>)
    requires Distinct(days)
    ensures Distinct(Hits(days, keep))
  {
    if days != [] {
      assert forall i, j :: 0 <= i < j < |days[1..]| ==> days[1..][i] == days[i + 1] && days[1..][j] == days[j + 1];
      HitsDistinct(days[1..], keep);
      if days[0] in keep {
        assert days[0] !in days[1..];
      }
    }
  }

  lemma DistinctCalendarCountsDaySet(rs: set<Range>, days: seq<Day>)
    requires Distinct(days)
    ensures DayCount(rs, Some(days)) == |Days(rs, Some(days))|
  {
    HitsDistinct(days, PartitionDays(rs));
    DayCountIsDaySetSize(rs, Some(days));
  }

  lemma {:induction false} HitsMonotone(days: seq<Day>, small: set<Day>, large: set<Day>)
    requires small <= large
    ensures |Hits(days, small)| <= |Hits(days, large)|
  {
    if days != [] {
      HitsMonotone(days[1..], small, large);
    }
  }

  /** Covering more days never lowers the count, whatever the calendar. */
  lemma DayCountMonotone(small: set<Range>, large: set<Range>, calendar: Calendar)
    requires PartitionDays(small) <= PartitionDays(large)
    ensures DayCount(small, calendar) <= DayCount(large, calendar)
  {
    match calendar
    case None => SubsetSize(PartitionDays(small), PartitionDays(large));
    case Some(days) => HitsMonotone(days, PartitionDays(small), PartitionDays(large));
  }

  /** The part of a requested range that lies before the trading day the cursor is still inside. */
  function CompletedHistoryRange(requested: Range, cursor: int): (r: Option<Range>)
    ensures r.Some? ==> r.value.0 == requested.0 < r.value.1 <= requested.1
  {
    var dayStart := TradingDayRange(TradingDayOf(cursor)).0;
    var end := if dayStart <= requested.1 then dayStart else requested.1;
    if end > requested.0 then Some((requested.0, end)) else None
  }

  ghost function CompletedRanges(requested: Range, cursor: int): set<Range> {
    match CompletedHistoryRange(requested, cursor)
    case None => {}
    case Some(r) => {r}
  }

  /** The days of a set whose whole trading-day range lies at or before the cursor. */
  function CompletedDays(days: set<Day>, cursor: int): set<Day> {
    set d | d in days && TradingDayRange(d).1 <= cursor
  }

  /** Cutting the range at the cursor and filtering its days by the cursor agree, weekends included,
      so the day the cursor is still inside is never credited. */
  lemma CompletedRangeMatchesCompletedDays(requested: Range, cursor: int, calendar: Calendar)
    ensures Days(CompletedRanges(requested, cursor), calendar) == CompletedDays(Days({requested}, calendar), cursor)
  {
    forall d ensures d in PartitionDays(CompletedRanges(requested, cursor))
                <==> d in PartitionDays({requested}) && TradingDayRange(d).1 <= cursor {
      CompletedDayIff(requested, cursor, d);
    }
  }

  lemma SingletonDays(r: Range, d: Day)
    ensures d in PartitionDays({r}) <==> r.0 < r.1 && SpanOf(r).0 <= d <= SpanOf(r).1
  {
    assert PartitionDays({r}) == TouchedDays(r);
  }

  lemma CompletedDayIff(requested: Range, cursor: int, d: Day)
    ensures d in PartitionDays(CompletedRanges(requested, cursor))
       <==> d in PartitionDays({requested}) && TradingDayRange(d).1 <= cursor
  {
    var today := TradingDayOf(cursor);
    FinishedBefore(d, cursor);
    NormalizedBelow(d, today);
    SingletonDays(requested, d);
    if requested.0 < requested.1 {
      CompletedSpan(requested, cursor);
      match CompletedHistoryRange(requested, cursor)
      case None =>
      case Some(r) => SingletonDays(r, d);
    }
  }

  /** The completed part spans from the first requested day to the last day before the cursor's day. */
  lemma CompletedSpan(requested: Range, cursor: int)
    requires requested.0 < requested.1
    ensures var prev := PreviousBusinessDay(TradingDayOf(cursor));
            match CompletedHistoryRange(requested, cursor)
            case None => prev < SpanOf(requested).0
            case Some(r) =>
              SpanOf(r) == (SpanOf(requested).0, if prev <= SpanOf(requested).1 then prev else SpanOf(requested).1)
  {
    hide TradingDayOf;
    var today := TradingDayOf(cursor);
    LastInstantBefore(today);
    StartsOnOrAfter(requested.0, today);
    StartsOnOrAfter(requested.1 - 1, today);
    NormalizedBelow(TradingDayOf(requested.1 - 1), today);
    var dayStart := TradingDayRange(today).0;
    if dayStart <= requested.1 {
      TradingDayMonotone(dayStart - 1, requested.1 - 1);
    }
  }

  lemma StartsOnOrAfter(ts: int, day: Day)
    requires !IsWeekend(day)
    ensures ts >= TradingDayRange(day).0 <==> TradingDayOf(ts) >= day
  {
    var c := CutoffDate(ts);
    var prev := PreviousBusinessDay(day);
    BeforeBoundary(ts, prev);
    NormalizedBelow(c, day);
  }

  /** The last instant before a business day's range belongs to the previous business day. */
  /** A business day is touched by a range exactly when some instant of the range belongs to it. */
  lemma BusinessDayIsTouchedIff(r: Range, day: Day)
    requires !IsWeekend(day)
    ensures day in TouchedDays(r) <==> exists t :: r.0 <= t < r.1 && TradingDayOf(t) == day
  {
    hide TradingDayOf, TradingDayRange, IsWeekend;
    if r.0 < r.1 {
      forall t | r.0 <= t < r.1 ensures SpanOf(r).0 <= TradingDayOf(t) <= SpanOf(r).1 {
        TradingDayMonotone(r.0, t);
        TradingDayMonotone(t, r.1 - 1);
      }
      StartsOnOrAfter(r.0, day);
      StartsOnOrAfter(r.1 - 1, day);
      var start := TradingDayRange(day).0;
      BusinessDayStarts(day);
      assert day in TouchedDays(r) ==> TradingDayOf(if start <= r.0 then r.0 else start) == day;
    }
  }

  lemma BusinessDayStarts(day: Day)
    requires !IsWeekend(day)
    ensures TradingDayOf(TradingDayRange(day).0) == day
  {
    PartitionTheorem(TradingDayRange(day).0, day);
  }

  /** A weekend date is touched exactly when it lies between the first and the last trading day of the range. */
  lemma WeekendIsTouchedIff(r: Range, day: Day)
    requires IsWeekend(day)
    ensures day in TouchedDays(r) <==> r.0 < r.1 && TradingDayOf(r.0) < day < TradingDayOf(r.1 - 1)
  {
  }

  lemma LastInstantBefore(day: Day)
    requires !IsWeekend(day)
    ensures TradingDayOf(TradingDayRange(day).0 - 1) == PreviousBusinessDay(day)
  {
    var prev := PreviousBusinessDay(day);
    BeforeBoundary(Boundary(prev) - 1, prev);
    BeforeBoundary(Boundary(prev) - 1, prev - 1);
  }

  lemma NormalizedBelow(d: Day, day: Day)
    requires !IsWeekend(day)
    ensures NormalizeWeekend(d) < day <==> d <= PreviousBusinessDay(day)
  {
    var prev := PreviousBusinessDay(day);
    if d <= prev {
      NormalizeMonotone(d, prev);
    } else {
      NormalizeMonotone(prev + 1, d);
      assert NormalizeWeekend(prev + 1) == day;
    }
  }
}
