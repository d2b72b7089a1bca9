/** What is displayed of a run, told by its events alone: the five day counts of a symbol, and the marks of the
    ledger. */
module ProgressDisplay {
  import opened Wrappers
  import opened Ranges
  import opened TradingDays
  import opened DayCounting
  import opened ProgressSpec
  import opened ProgressRuns
  import opened ProgressHistory
  import opened ProgressScopes

  // ---- days ----

  /** How many of the days a calendar counts: all of them without one, else its entries that are among them. */
  ghost function CountIn(days: set<Day>, calendar: Calendar): nat {
    match calendar
    case None => |days|
    case Some(listed) => |Hits(listed, days)|
  }

  ghost predicate Collects(days: set<Day>, wanted: Day -> bool) {
    forall d :: d in days <==> wanted(d)
  }

  /** The number is the count of the days with this property. */
  ghost predicate IsCount(count: nat, wanted: Day -> bool, calendar: Calendar) {
    exists days :: Collects(days, wanted) && count == CountIn(days, calendar)
  }

  /** The days of a window that its report leaves safe: those before the part to be downloaded again, or all of
      a window with final coverage. */
  ghost function SafeDays(d: Durability): set<Day> {
    match d.redownload
    case Some(suffix) => TouchedDays((d.range.0, suffix.0))
    case None => if d.finalCoverage then TouchedDays(d.range) else {}
  }

  ghost predicate IsScopedDay(events: seq<Event>, s: Symbol, d: Day) {
    exists r :: HasScope(events, s, r) && d in TouchedDays(r)
  }

  ghost predicate IsSafeDay(events: seq<Event>, s: Symbol, d: Day) {
    exists i: nat, window :: Stands(events, i, s, window) && d in SafeDays(events[i].progress)
  }

  lemma FinishedDaysAre(events: seq<Event>, s: Symbol, d: Day)
    ensures d in PartitionDays(Lists.Elements(Entry(events, s).receivedRanges)) <==> IsFinishedDay(events, s, d)
  {
    hide TouchedDays, Run, HasFinished, Entry;
    forall r ensures r in Entry(events, s).receivedRanges <==> HasFinished(events, s, r) {
      ReceivedIsFinished(events, s, r);
    }
  }

  lemma ScopedDaysAre(events: seq<Event>, s: Symbol, d: Day)
    ensures d in PartitionDays(Lists.Elements(Entry(events, s).requestedRanges)) <==> IsScopedDay(events, s, d)
    ensures d in PartitionDays(Lists.Elements(Entry(events, s).missingRanges)) <==> IsScopedDay(events, s, d)
  {
    hide TouchedDays, Run, HasScope, Entry;
    forall r ensures r in Entry(events, s).requestedRanges <==> HasScope(events, s, r)
             ensures r in Entry(events, s).missingRanges <==> HasScope(events, s, r)
    {
      ScopesAreGiven(events, s, r);
    }
  }

  lemma SafeIsCheckpoint(d: Durability, day: Day)
    ensures day in SafeDays(d) <==> Checkpoint(d).Some? && day in TouchedDays(Checkpoint(d).value)
  {
  }

  lemma SafeDaysAre(events: seq<Event>, s: Symbol, d: Day)
    ensures d in PartitionDays(CheckpointSet(Entry(events, s)))
       <==> IsFinishedDay(events, s, d) || IsSafeDay(events, s, d)
  {
    hide TouchedDays, Run, HasFinished, Entry, SafeDays, Checkpoint, Stands, IsFinishedDay;
    var e := Entry(events, s);
    FinishedDaysAre(events, s, d);
    forall window ensures WindowHolds(events, e, s, window) {
      WindowsHoldReports(events, s, window);
    }
    CheckpointDaysSplit(e, d);
    StandsIsReport(events, s);
    if window :| window in e.durability && d in SafeDays(e.durability[window]) {
      assert WindowHolds(events, e, s, window);
      var i: nat :| Stands(events, i, s, window);
    }
    if i: nat, window :| Stands(events, i, s, window) && d in SafeDays(events[i].progress) {
      assert WindowHolds(events, e, s, window);
      assert d in SafeDays(e.durability[window]);
    }
  }

  lemma StandsIsReport(events: seq<Event>, s: Symbol)
    ensures forall i: nat, window :: Stands(events, i, s, window) ==> i < |events| && events[i].DurabilityReport?
  {
  }

  lemma CheckpointDaysSplit(e: SymbolProgress, d: Day)
    ensures d in PartitionDays(CheckpointSet(e)) <==>
      || d in PartitionDays(Lists.Elements(e.receivedRanges))
      || exists window :: window in e.durability && d in SafeDays(e.durability[window])
  {
    hide TouchedDays, Checkpoint, SafeDays;
    forall window | window in e.durability
      ensures d in SafeDays(e.durability[window]) <==>
        Checkpoint(e.durability[window]).Some? && d in TouchedDays(Checkpoint(e.durability[window]).value)
    {
      SafeIsCheckpoint(e.durability[window], d);
    }
    if window :| window in e.durability && d in SafeDays(e.durability[window]) {
      assert Checkpoint(e.durability[window]).value in CheckpointSet(e);
    }
    if d in PartitionDays(CheckpointSet(e)) {
      var r :| r in CheckpointSet(e) && d in TouchedDays(r);
      if r !in e.receivedRanges {
        var window :| window in e.durability && Checkpoint(e.durability[window]).Some?
                      && r == Checkpoint(e.durability[window]).value;
        assert d in SafeDays(e.durability[window]);
      }
    }
  }

  lemma CountedSet(rs: set<Range>, wanted: Day -> bool, calendar: Calendar)
    requires forall d :: d in PartitionDays(rs) <==> wanted(d)
    ensures IsCount(DayCount(rs, calendar), wanted, calendar)
  {
    assert Collects(PartitionDays(rs), wanted);
    assert DayCount(rs, calendar) == CountIn(PartitionDays(rs), calendar);
  }

  /** The five counts shown of a symbol in any run with a planning event: covered are the days of its finished
      ranges; received are those and the days its open streams have completed; planned and missing are the days of
      its scopes; checkpointed are the finished days and those its durability windows leave safe. */
  lemma CountsTellTheRun(events: seq<Event>, s: Symbol, k: nat)
    requires k < |events| && events[k].Planning? && Knows(events, s)
    ensures var c, calendar := Shown(Run(INITIAL, events).symbols[s]), Run(INITIAL, events).calendar;
            && IsCount(c.covered, d => IsFinishedDay(events, s, d), calendar)
            && IsCount(c.received, d => IsFinishedDay(events, s, d) || IsStreamedDay(events, s, d), calendar)
            && IsCount(c.planned, d => IsScopedDay(events, s, d), calendar)
            && IsCount(c.missing, d => IsScopedDay(events, s, d), calendar)
            && IsCount(c.checkpointed, d => IsFinishedDay(events, s, d) || IsSafeDay(events, s, d), calendar)
  {
    hide IsFinishedDay, IsStreamedDay, IsScopedDay, IsSafeDay, IsCount, PartitionDays, DayCount, Run, ReceivedSet,
      CheckpointSet;
    CountsStayCurrent(INITIAL, events, k);
    var e, calendar := Entry(events, s), Run(INITIAL, events).calendar;
    CheckpointCoversReceived(e, calendar);
    forall d
      ensures d in PartitionDays(Lists.Elements(e.receivedRanges)) <==> IsFinishedDay(events, s, d)
      ensures d in PartitionDays(ReceivedSet(e)) <==> IsFinishedDay(events, s, d) || IsStreamedDay(events, s, d)
      ensures d in PartitionDays(Lists.Elements(e.requestedRanges)) <==> IsScopedDay(events, s, d)
      ensures d in PartitionDays(Lists.Elements(e.missingRanges)) <==> IsScopedDay(events, s, d)
      ensures d in PartitionDays(CheckpointSet(e)) <==> IsFinishedDay(events, s, d) || IsSafeDay(events, s, d)
    {
      FinishedDaysAre(events, s, d);
      ReceivedDaysAre(events, s, d);
      ScopedDaysAre(events, s, d);
      SafeDaysAre(events, s, d);
    }
    CountedSet(Lists.Elements(e.receivedRanges), d => IsFinishedDay(events, s, d), calendar);
    CountedSet(ReceivedSet(e), d => IsFinishedDay(events, s, d) || IsStreamedDay(events, s, d), calendar);
    CountedSet(Lists.Elements(e.requestedRanges), d => IsScopedDay(events, s, d), calendar);
    CountedSet(Lists.Elements(e.missingRanges), d => IsScopedDay(events, s, d), calendar);
    CountedSet(CheckpointSet(e), d => IsFinishedDay(events, s, d) || IsSafeDay(events, s, d), calendar);
  }

  // ---- marks ----

  ghost predicate Occurs(events: seq<Event>, wanted: Event -> bool) {
    exists i :: 0 <= i < |events| && wanted(events[i])
  }

  lemma OccursStep(events: seq<Event>, ev: Event, wanted: Event -> bool)
    ensures Occurs(events + [ev], wanted) <==> Occurs(events, wanted) || wanted(ev)
  {
    if Occurs(events, wanted) {
      var i :| 0 <= i < |events| && wanted(events[i]);
      assert wanted((events + [ev])[i]);
    }
    if wanted(ev) { assert wanted((events + [ev])[|events|]); }
  }

  predicate BeginsFill(ev: Event) {
    !ev.SetScopes? && !ev.CalendarReady? && !ev.DurabilityReport?
  }

  predicate ConcernsBatch(ev: Event) {
    ev.BatchStarted? || ev.Telemetry? || ev.BatchFinished? || ev.BatchFailed?
  }

  predicate Fails(ev: Event) {
    ev.BatchFailed?
  }

  lemma MarksStep(st: State, ev: Event, batch: nat)
    ensures var after := Apply(st, ev);
            && (after.historyFill <==> st.historyFill || BeginsFill(ev))
            && (after.batchStarted <==> st.batchStarted || ConcernsBatch(ev))
            && (after.failed <==> st.failed || Fails(ev))
            && (batch in after.completedBatches <==> batch in st.completedBatches || FinishesBatch(ev, batch))
  {
    hide FreshCounts, FinishRows;
  }

  /** A run is a history fill, has begun a batch, has failed, or has completed a batch exactly when one of its
      events says so. */
  lemma {:induction false} MarksTellTheRun(events: seq<Event>, batch: nat)
    ensures var st := Run(INITIAL, events);
            && (st.historyFill <==> Occurs(events, BeginsFill))
            && (st.batchStarted <==> Occurs(events, ConcernsBatch))
            && (st.failed <==> Occurs(events, Fails))
            && (batch in st.completedBatches <==> Occurs(events, ev => FinishesBatch(ev, batch)))
  {
    hide Apply, Occurs;
    if events == [] {
      NothingOccurs(BeginsFill);
      NothingOccurs(ConcernsBatch);
      NothingOccurs(Fails);
      NothingOccurs(ev => FinishesBatch(ev, batch));
    } else {
      var init, last := events[..|events| - 1], events[|events| - 1];
      RunEnd(events);
      MarksTellTheRun(init, batch);
      MarksStep(Run(INITIAL, init), last, batch);
      OccursStep(init, last, BeginsFill);
      OccursStep(init, last, ConcernsBatch);
      OccursStep(init, last, Fails);
      OccursStep(init, last, ev => FinishesBatch(ev, batch));
    }
  }

  lemma NothingOccurs(wanted: Event -> bool)
    ensures !Occurs([], wanted)
  {
  }

  predicate AnnouncesTotal(ev: Event) {
    ev.Planning? || ev.BatchStarted?
  }

  /** The calendar is the last one reported, and the number of batches the last one announced. */
  lemma {:induction false} LatestReportsCount(events: seq<Event>, i: nat)
    requires i < |events|
    ensures events[i].CalendarReady? && (forall j :: i < j < |events| ==> !events[j].CalendarReady?) ==>
      Run(INITIAL, events).calendar == Some(events[i].days)
    ensures AnnouncesTotal(events[i]) && (forall j :: i < j < |events| ==> !AnnouncesTotal(events[j])) ==>
      Run(INITIAL, events).totalBatches == if events[i].Planning? then events[i].planned else events[i].total
  {
    hide Apply;
    var init, last := events[..|events| - 1], events[|events| - 1];
    ReportStep(Run(INITIAL, init), last);
    if i < |init| {
      LatestReportsCount(init, i);
      assert init[i] == events[i] && forall j :: 0 <= j < |init| ==> init[j] == events[j];
    }
  }

  lemma ReportStep(st: State, ev: Event)
    ensures Apply(st, ev).calendar == if ev.CalendarReady? then Some(ev.days) else st.calendar
    ensures Apply(st, ev).totalBatches ==
      if ev.Planning? then ev.planned else if ev.BatchStarted? then ev.total else st.totalBatches
  {
    hide FreshCounts, FinishRows;
  }
}
