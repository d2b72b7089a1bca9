/** Which instants a list of half-open cached ranges covers. */
module Coverage {
  import opened Ranges

  predicate Contains(r: Range, t: int) {
    r.0 <= t < r.1
  }

  ghost predicate CoveredAt(ranges: seq<Range>, t: int) {
    exists r :: r in ranges && Contains(r, t)
  }

  /** Every instant of the half-open request lies in some range. */
  ghost predicate CoversAll(ranges: seq<Range>, start: int, end: int) {
    forall t :: start <= t < end ==> CoveredAt(ranges, t)
  }

  /** Non-empty ranges that meet the request. */
  predicate Relevant(r: Range, requested: Range) {
    r.0 < r.1 && r.1 > requested.0 && r.0 < requested.1
  }

  function Keep(ranges: seq<Range>, requested: Range): (r: seq<Range>)
    ensures forall x :: x in r <==> x in ranges && Relevant(x, requested)
  {
    if ranges == [] then []
    else
      var rest := Keep(ranges[1..], requested);
      assert forall x :: x in ranges <==> x == ranges[0] || x in ranges[1..];
      if Relevant(ranges[0], requested) then [ranges[0]] + rest else rest
  }

  /** What the sweep answers: for a non-empty request whether every instant is covered, for an empty one
      whether any non-empty range meets it. */
  ghost predicate SweepCovers(ranges: seq<Range>, requested: Range) {
    if requested.0 < requested.1 then CoversAll(ranges, requested.0, requested.1)
    else exists r :: r in ranges && Relevant(r, requested)
  }

  /** Sort-and-sweep coverage of a request. */
  method RangesCover(requested: Range, ranges: seq<Range>) returns (covered: bool)
    ensures covered <==> SweepCovers(ranges, requested)
  {
    var kept := Keep(ranges, requested);
    var sorted := Sort(kept);
    var through := requested.0;
    for i := 0 to |sorted|
      invariant requested.0 <= through
      invariant if i > 0 then through < requested.1 else through == requested.0
      invariant forall t :: requested.0 <= t < through ==> CoveredAt(ranges, t)
      invariant forall j :: 0 <= j < i ==> sorted[j].1 <= through
    {
      var r := sorted[i];
      assert r in sorted && r in kept;
      if r.0 > through {
        UncoveredGap(ranges, sorted, requested, i, through);
        return false;
      }
      forall t | r.0 <= t < r.1 ensures CoveredAt(ranges, t) {
        assert Contains(r, t);
      }
      through := if through >= r.1 then through else r.1;
      if through >= requested.1 {
        return true;
      }
    }
    if requested.0 < requested.1 {
      UncoveredEnd(ranges, sorted, requested, through);
    }
    if requested.0 >= requested.1 {
      assert forall r :: r in ranges && Relevant(r, requested) ==> r in sorted;
      assert |sorted| == 0;
    }
    return false;
  }

  /** A sorted list whose next range starts after the swept part leaves the sweep point uncovered. */
  lemma UncoveredGap(ranges: seq<Range>, sorted: seq<Range>, requested: Range, i: nat, through: int)
    requires SortedByStart(sorted) && i < |sorted| && sorted[i].0 > through >= requested.0
    requires forall x :: x in sorted <==> x in ranges && Relevant(x, requested)
    requires forall j :: 0 <= j < i ==> sorted[j].1 <= through
    ensures requested.0 < requested.1 ==> !CoversAll(ranges, requested.0, requested.1)
    ensures requested.0 < requested.1
  {
    assert sorted[i] in sorted;
    forall r | r in ranges && Relevant(r, requested) ensures !Contains(r, through) {
      var j :| 0 <= j < |sorted| && sorted[j] == r;
    }
    assert forall r :: r in ranges && Contains(r, through) ==> Relevant(r, requested);
    assert !CoveredAt(ranges, through);
  }

  lemma UncoveredEnd(ranges: seq<Range>, sorted: seq<Range>, requested: Range, through: int)
    requires requested.0 <= through < requested.1
    requires forall x :: x in sorted <==> x in ranges && Relevant(x, requested)
    requires forall j :: 0 <= j < |sorted| ==> sorted[j].1 <= through
    ensures !CoversAll(ranges, requested.0, requested.1)
  {
    forall r | r in ranges && Relevant(r, requested) ensures !Contains(r, through) {
      var j :| 0 <= j < |sorted| && sorted[j] == r;
    }
    assert forall r :: r in ranges && Contains(r, through) ==> Relevant(r, requested);
    assert !CoveredAt(ranges, through);
  }

  /** The quick test: one range contains the whole request. */
  predicate SingleRangeCovers(ranges: seq<Range>, start: int, end: int) {
    exists r :: r in ranges && r.0 <= start && end <= r.1
  }

  /** No two different ranges overlap or touch. */
  ghost predicate Apart(ranges: seq<Range>) {
    forall a, b :: a in ranges && b in ranges && a != b ==> a.1 < b.0 || b.1 < a.0
  }

  /** The quick test never claims too much ... */
  lemma SingleRangeImpliesCover(ranges: seq<Range>, start: int, end: int)
    requires SingleRangeCovers(ranges, start, end)
    ensures CoversAll(ranges, start, end)
  {
    var r :| r in ranges && r.0 <= start && end <= r.1;
    forall t | start <= t < end ensures CoveredAt(ranges, t) {
      assert Contains(r, t);
    }
  }

  /** ... so it implies the sweep for every list exactly when the request is not empty. */
  lemma SingleRangeImpliesSweepIff(start: int, end: int)
    ensures (forall ranges :: SingleRangeCovers(ranges, start, end) ==> SweepCovers(ranges, (start, end)))
       <==> start < end
  {
    if start < end {
      forall ranges | SingleRangeCovers(ranges, start, end) ensures SweepCovers(ranges, (start, end)) {
        SingleRangeImpliesCover(ranges, start, end);
      }
    } else {
      var empty: Range := (start, start);
      assert empty in [empty];
      assert SingleRangeCovers([empty], start, end) && !SweepCovers([empty], (start, end));
    }
  }

  /** ... and on ranges that neither overlap nor touch it is exact. */
  lemma SingleRangeIsExactWhenApart(ranges: seq<Range>, start: int, end: int)
    requires start < end && Apart(ranges)
    ensures SingleRangeCovers(ranges, start, end) <==> CoversAll(ranges, start, end)
  {
    if CoversAll(ranges, start, end) {
      assert CoveredAt(ranges, start);
      var r :| r in ranges && Contains(r, start);
      assert forall next :: next in ranges ==> !Contains(next, r.1);
      assert r.1 < end ==> CoveredAt(ranges, r.1);
    } else if SingleRangeCovers(ranges, start, end) {
      SingleRangeImpliesCover(ranges, start, end);
    }
  }
}

/** The provisional high-water mark of a fill that includes the open trading day. */
module Provisional {
  import opened Wrappers
  import opened Extremes
  import opened Ranges
  import opened TradingDays
  import opened Coverage

  /** The open day: its start and the instant up to which data was asked for. */
  datatype OpenDay = OpenDay(dayStart: int, asOf: int)

  /** What the cache holds for one symbol after the fill. `checkpoint` is the answer of the checkpoint
      lookup for the symbol's open range: a failure, nothing, or the instant it is complete through. */
  datatype SymbolAfter = SymbolAfter(start: int, end: int, cached: seq<Range>, checkpoint: Result<Option<int>, string>)

  function OpenStart(s: SymbolAfter, day: OpenDay): int {
    Max(s.start, day.dayStart)
  }

  function OpenEnd(s: SymbolAfter, day: OpenDay): int {
    Min(s.end, day.asOf)
  }

  function ClosedEnd(s: SymbolAfter, day: OpenDay): int {
    Min(s.end, day.dayStart)
  }

  predicate HasOpenPart(s: SymbolAfter, day: OpenDay) {
    OpenStart(s, day) < OpenEnd(s, day)
  }

  predicate ClosedPartCached(s: SymbolAfter, day: OpenDay) {
    s.start < ClosedEnd(s, day) ==> SingleRangeCovers(s.cached, s.start, ClosedEnd(s, day))
  }

  predicate OpenPartCached(s: SymbolAfter, day: OpenDay) {
    SingleRangeCovers(s.cached, OpenStart(s, day), OpenEnd(s, day))
  }

  /** How far one symbol's open part is complete, if that is known. */
  function MarkOf(s: SymbolAfter, day: OpenDay): Option<int> {
    if OpenPartCached(s, day) then Some(OpenEnd(s, day))
    else if s.checkpoint.Ok? && s.checkpoint.value.Some? then Some(Min(s.checkpoint.value.value, OpenEnd(s, day)))
    else None
  }

  function MarkValue(s: SymbolAfter, day: OpenDay): int {
    match MarkOf(s, day)
    case None => 0
    case Some(t) => t
  }

  predicate LookupFails(s: SymbolAfter, day: OpenDay) {
    HasOpenPart(s, day) && !OpenPartCached(s, day) && s.checkpoint.Err?
  }

  /** A symbol that lets the computation go on. */
  predicate Passes(s: SymbolAfter, day: OpenDay) {
    ClosedPartCached(s, day) && (HasOpenPart(s, day) ==> MarkOf(s, day).Some?)
  }

  ghost predicate IsLeastMark(symbols: seq<SymbolAfter>, day: OpenDay, t: int) {
    && (forall i :: 0 <= i < |symbols| && HasOpenPart(symbols[i], day) ==> t <= MarkValue(symbols[i], day))
    && (exists i :: 0 <= i < |symbols| && HasOpenPart(symbols[i], day) && MarkValue(symbols[i], day) == t)
  }

  /** The shared mark is the least mark of the symbols that have an open part, provided every symbol's
      closed part is cached and every open part has a mark; there is none if no symbol has an open part.
      The first symbol that does not pass decides between "no mark" and a lookup failure. */
  method ProvisionalCompleteThrough(symbols: seq<SymbolAfter>, day: OpenDay) returns (r: Result<Option<int>, string>)
    ensures r.Ok? && r.value.Some? <==>
      (forall i :: 0 <= i < |symbols| ==> Passes(symbols[i], day))
      && exists i :: 0 <= i < |symbols| && HasOpenPart(symbols[i], day)
    ensures r.Ok? && r.value.Some? ==> IsLeastMark(symbols, day, r.value.value)
    ensures r.Err? <==> exists i ::
      && 0 <= i < |symbols| && ClosedPartCached(symbols[i], day) && LookupFails(symbols[i], day)
      && forall j :: 0 <= j < i ==> Passes(symbols[j], day)
  {
    var shared: Option<int> := None;
    for i := 0 to |symbols|
      invariant forall j :: 0 <= j < i ==> Passes(symbols[j], day)
      invariant shared.Some? <==> exists j :: 0 <= j < i && HasOpenPart(symbols[j], day)
      invariant shared.Some? ==>
        forall j :: 0 <= j < i && HasOpenPart(symbols[j], day) ==> shared.value <= MarkValue(symbols[j], day)
      invariant shared.Some? ==>
        exists j :: 0 <= j < i && HasOpenPart(symbols[j], day) && MarkValue(symbols[j], day) == shared.value
    {
      var s := symbols[i];
      var closedEnd := Min(s.end, day.dayStart);
      if s.start < closedEnd && !SingleRangeCovers(s.cached, s.start, closedEnd) {
        return Ok(None);
      }
      var openStart, openEnd := Max(s.start, day.dayStart), Min(s.end, day.asOf);
      if openStart >= openEnd {
        continue;
      }
      var mark;
      if SingleRangeCovers(s.cached, openStart, openEnd) {
        mark := openEnd;
      } else {
        match s.checkpoint
        case Err(e) => return Err(e);
        case Ok(None) => return Ok(None);
        case Ok(Some(through)) => mark := Min(through, openEnd);
      }
      assert MarkOf(s, day) == Some(mark) && MarkValue(s, day) == mark;
      shared := Some(if shared.Some? then Min(shared.value, mark) else mark);
    }
    return Ok(shared);
  }

  /** An instant is accounted for by final coverage or lies below the checkpoint of the open day. */
  ghost predicate Accounted(s: SymbolAfter, t: int) {
    CoveredAt(s.cached, t) || (s.checkpoint.Ok? && s.checkpoint.value.Some? && t < s.checkpoint.value.value)
  }

  /** What a shared mark promises: for every symbol each instant from its range start up to the mark, or
      to the end of its open part if that is earlier, is accounted for. */
  lemma MarkIsReached(symbols: seq<SymbolAfter>, day: OpenDay, mark: int, i: nat, t: int)
    requires forall j :: 0 <= j < |symbols| ==> Passes(symbols[j], day)
    requires IsLeastMark(symbols, day, mark)
    requires i < |symbols| && symbols[i].start <= t < Min(mark, OpenEnd(symbols[i], day))
    ensures Accounted(symbols[i], t)
  {
    var s := symbols[i];
    if t < ClosedEnd(s, day) {
      SingleRangeImpliesCover(s.cached, s.start, ClosedEnd(s, day));
    } else if OpenPartCached(s, day) {
      SingleRangeImpliesCover(s.cached, OpenStart(s, day), OpenEnd(s, day));
    }
  }

  predicate FillOperationComplete(reportComplete: bool, provisional: Option<OpenDay>, completeThrough: Option<int>) {
    match provisional
    case None => reportComplete
    case Some(day) => completeThrough.Some? && completeThrough.value >= day.asOf
  }

  /** A provisional fill counts as complete exactly when every symbol passes, some symbol has an open
      part, and every open part reaches `asOf` and is complete up to it. */
  lemma ProvisionalFillCompleteIff(symbols: seq<SymbolAfter>, day: OpenDay, r: Option<int>)
    requires r.Some? <==>
      (forall i :: 0 <= i < |symbols| ==> Passes(symbols[i], day))
      && exists i :: 0 <= i < |symbols| && HasOpenPart(symbols[i], day)
    requires r.Some? ==> IsLeastMark(symbols, day, r.value)
    ensures FillOperationComplete(false, Some(day), r) <==>
      && (forall i :: 0 <= i < |symbols| ==> Passes(symbols[i], day))
      && (exists i :: 0 <= i < |symbols| && HasOpenPart(symbols[i], day))
      && forall i :: 0 <= i < |symbols| && HasOpenPart(symbols[i], day) ==>
           symbols[i].end >= day.asOf && MarkValue(symbols[i], day) == day.asOf
  {
    if r.Some? {
      var k :| 0 <= k < |symbols| && HasOpenPart(symbols[k], day) && MarkValue(symbols[k], day) == r.value;
    }
  }

  /** A complete provisional fill leaves no instant up to `asOf` unaccounted for in any symbol. */
  lemma CompleteFillHasNoHole(symbols: seq<SymbolAfter>, day: OpenDay, mark: int, i: nat, t: int)
    requires forall j :: 0 <= j < |symbols| ==> Passes(symbols[j], day)
    requires IsLeastMark(symbols, day, mark) && FillOperationComplete(false, Some(day), Some(mark))
    requires i < |symbols| && symbols[i].start <= t < OpenEnd(symbols[i], day)
    ensures Accounted(symbols[i], t)
  {
    MarkIsReached(symbols, day, mark, i, t);
  }

  // ---- day statistics ----

  datatype DayStats = DayStats(planned: nat, covered: nat, missing: nat, received: nat)

  predicate InWindow(d: Day, start: int, end: int) {
    start <= TradingDayRange(d).0 && TradingDayRange(d).1 <= end
  }

  predicate DayCached(d: Day, cached: seq<Range>) {
    SingleRangeCovers(cached, TradingDayRange(d).0, TradingDayRange(d).1)
  }

  /** Positions of calendar days inside the window, and of those whose range is cached. */
  ghost function PlannedAt(days: seq<Day>, start: int, end: int): set<nat> {
    set i | 0 <= i < |days| && InWindow(days[i], start, end)
  }

  ghost function CachedAt(days: seq<Day>, start: int, end: int, cached: seq<Range>): set<nat> {
    set i | 0 <= i < |days| && InWindow(days[i], start, end) && DayCached(days[i], cached)
  }

  lemma OneMoreDay(days: seq<Day>, d: Day, start: int, end: int, cached: seq<Range>)
    ensures |PlannedAt(days + [d], start, end)|
       == |PlannedAt(days, start, end)| + if InWindow(d, start, end) then 1 else 0
    ensures |CachedAt(days + [d], start, end, cached)|
         == |CachedAt(days, start, end, cached)| + if InWindow(d, start, end) && DayCached(d, cached) then 1 else 0
  {
    hide InWindow, DayCached;
    assert PlannedAt(days + [d], start, end) ==
      PlannedAt(days, start, end) + if InWindow(d, start, end) then {|days|} else {};
    assert CachedAt(days + [d], start, end, cached) ==
      CachedAt(days, start, end, cached) + if InWindow(d, start, end) && DayCached(d, cached) then {|days|} else {};
  }

  method FillSymbolDayStats(days: seq<Day>, start: int, end: int, before: seq<Range>, after: seq<Range>)
      returns (stats: DayStats)
    ensures stats.planned == |PlannedAt(days, start, end)|
    ensures stats.covered == |CachedAt(days, start, end, after)|
    ensures stats.covered + stats.missing == stats.planned
    ensures stats.received == if |CachedAt(days, start, end, after)| >= |CachedAt(days, start, end, before)|
                              then |CachedAt(days, start, end, after)| - |CachedAt(days, start, end, before)| else 0
  {
    hide InWindow, DayCached, PlannedAt, CachedAt;
    NoDays(start, end, before);
    NoDays(start, end, after);
    var planned, was, now := 0, 0, 0;
    for i := 0 to |days|
      invariant planned == |PlannedAt(days[..i], start, end)|
      invariant was == |CachedAt(days[..i], start, end, before)|
      invariant now == |CachedAt(days[..i], start, end, after)| <= planned
    {
      OneMoreDay(days[..i], days[i], start, end, before);
      OneMoreDay(days[..i], days[i], start, end, after);
      assert days[..i] + [days[i]] == days[..i + 1];
      if !InWindow(days[i], start, end) {
        continue;
      }
      planned := planned + 1;
      if DayCached(days[i], before) {
        was := was + 1;
      }
      if DayCached(days[i], after) {
        now := now + 1;
      }
    }
    assert days[..|days|] == days;
    stats := DayStats(planned, now, planned - now, if now >= was then now - was else 0);
  }

  lemma NoDays(start: int, end: int, cached: seq<Range>)
    ensures PlannedAt([], start, end) == {} && CachedAt([], start, end, cached) == {}
  {
  }

  /** If the fill lost no coverage, the received days are exactly those that became cached. */
  lemma ReceivedDaysAreTheNewOnes(days: seq<Day>, start: int, end: int, before: seq<Range>, after: seq<Range>)
    requires forall x, y :: SingleRangeCovers(before, x, y) ==> SingleRangeCovers(after, x, y)
    ensures |CachedAt(days, start, end, after)| - |CachedAt(days, start, end, before)|
         == |CachedAt(days, start, end, after) - CachedAt(days, start, end, before)|
  {
    var a, b := CachedAt(days, start, end, after), CachedAt(days, start, end, before);
    assert b <= a;
    assert a == b + (a - b);
  }
}
