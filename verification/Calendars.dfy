/** Calendar snapshots: which dates they cover and which trading days they yield. */
module Calendars {
  import opened Wrappers
  import opened CalendarStore
  import opened Ranges
  import opened TradingDays
  import opened DayCounting

  datatype CalendarDay = CalendarDay(date: Day, trading: bool)

  /** Dates are strictly ordered and there is at least one; otherwise the snapshot is refused. */
  predicate ValidDays(days: seq<CalendarDay>) {
    days != [] && forall i, j :: 0 <= i < j < |days| ==> days[i].date < days[j].date
  }

  ghost predicate HasDay(days: seq<CalendarDay>, d: Day) {
    exists i :: 0 <= i < |days| && days[i].date == d
  }

  ghost predicate ListsAll(days: seq<CalendarDay>, start: Day, end: Day) {
    start <= end && forall d :: start <= d <= end ==> HasDay(days, d)
  }

  /** Two pointers, one over the expected dates and one over the listed days. */
  method Covers(days: seq<CalendarDay>, start: Day, end: Day) returns (r: Result<bool, ()>)
    ensures r.Ok? <==> ValidDays(days)
    ensures r.Ok? ==> (r.value <==> ListsAll(days, start, end))
  {
    if !ValidDays(days) {
      return Err(());
    }
    if start > end {
      return Ok(false);
    }
    var expected, current := start, 0;
    while expected <= end
      invariant start <= expected <= end + 1 && 0 <= current <= |days|
      invariant forall d :: start <= d < expected ==> HasDay(days, d)
      invariant forall i :: 0 <= i < current ==> days[i].date < expected
      decreases end + 1 - expected
    {
      while current < |days| && days[current].date < expected
        invariant 0 <= current <= |days|
        invariant forall i :: 0 <= i < current ==> days[i].date < expected
      {
        current := current + 1;
      }
      if current == |days| || days[current].date != expected {
        assert !HasDay(days, expected);
        return Ok(false);
      }
      expected := expected + 1;
    }
    return Ok(true);
  }

  ghost predicate Ascends(days: seq<Day>) {
    forall i, j :: 0 <= i < j < |days| ==> days[i] < days[j]
  }

  /** The trading days a covering snapshot lists in a range of dates, in order. */
  method TradingDaysBetween(days: seq<CalendarDay>, start: Day, end: Day) returns (r: Result<seq<Day>, ()>)
    ensures r.Ok? <==> ValidDays(days) && ListsAll(days, start, end)
    ensures r.Ok? ==> Ascends(r.value)
    ensures r.Ok? ==> forall d :: d in r.value <==>
      start <= d <= end && exists i :: 0 <= i < |days| && days[i] == CalendarDay(d, true)
  {
    var covered := Covers(days, start, end);
    if covered != Ok(true) {
      return Err(());
    }
    var kept: seq<Day> := [];
    for i := 0 to |days|
      invariant Ascends(kept)
      invariant kept != [] ==> i > 0 && kept[|kept| - 1] <= days[i - 1].date
      invariant forall d :: d in kept <==>
        start <= d <= end && exists j :: 0 <= j < i && days[j] == CalendarDay(d, true)
    {
      if start <= days[i].date <= end && days[i].trading {
        assert days[i] == CalendarDay(days[i].date, true);
        kept := kept + [days[i].date];
      }
    }
    return Ok(kept);
  }

  // ---- the holiday list ----

  /** The checks of a holiday snapshot, made one after the other. */
  method Validate(env: Env, s: Snapshot) returns (valid: bool)
    ensures valid <==> Valid(env, s)
  {
    if s.schema != SCHEMA || IsBlank(s.sourceUrl) || !env.isTimestamp(s.fetchedAt) || s.holidays == [] {
      return false;
    }
    for i := 1 to |s.holidays|
      invariant forall j, k :: 0 <= j < k < i ==> s.holidays[j] < s.holidays[k]
    {
      if s.holidays[i - 1] >= s.holidays[i] {
        return false;
      }
    }
    return s.firstYear == env.year(s.holidays[0]) && s.lastYear == env.year(s.holidays[|s.holidays| - 1])
           && s.contentHash == env.hash(s.holidays);
  }

  /** The snapshot's years take in the whole of a non-reversed interval. */
  predicate SupportsYears(env: Env, s: Snapshot, start: Day, end: Day) {
    start <= end && s.firstYear <= env.year(start) && env.year(end) <= s.lastYear
  }

  ghost predicate IsHoliday(holidays: seq<Day>, d: Day) {
    d in holidays
  }

  /** Weekdays that are not holidays, day by day over an inclusive interval: refused exactly when the
      snapshot is not valid or its years do not take in the interval. */
  method WeekdaysWithoutHolidays(env: Env, s: Snapshot, start: Day, end: Day) returns (r: Result<seq<Day>, ()>)
    ensures r.Ok? <==> Valid(env, s) && SupportsYears(env, s, start, end)
    ensures r.Ok? ==> Ascends(r.value)
    ensures r.Ok? ==>
      forall d :: d in r.value <==> start <= d <= end && !IsWeekend(d) && !IsHoliday(s.holidays, d)
  {
    hide IsWeekend, Valid;
    var valid := Validate(env, s);
    if !valid || !SupportsYears(env, s, start, end) {
      return Err(());
    }
    var days: seq<Day> := [];
    var day := start;
    while day <= end
      invariant Ascends(days)
      invariant start <= day <= end + 1
      invariant forall d :: d in days <==> start <= d < day && !IsWeekend(d) && !IsHoliday(s.holidays, d)
      decreases end + 1 - day
    {
      if !IsWeekend(day) && day !in s.holidays {
        assert forall i :: 0 <= i < |days| ==> days[i] in days;
        days := days + [day];
      }
      day := day + 1;
    }
    return Ok(days);
  }

  /** Calendars that ascend have distinct days, so with them the displayed day count is the size of the
      day set. */
  lemma AscendingCalendarCountsDaySet(rs: set<Range>, days: seq<Day>)
    requires Ascends(days)
    ensures DayCount(rs, Some(days)) == |Days(rs, Some(days))|
  {
    hide DayCount;
    DistinctCalendarCountsDaySet(rs, days);
  }
}
