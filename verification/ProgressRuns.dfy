/** Properties of whole history-fill runs. */
module ProgressRuns {
  import opened Wrappers
  import opened Ranges
  import opened TradingDays
  import opened DayCounting
  import opened Lists
  import opened Sums
  import opened ProgressSpec
  import opened ProgressState

  lemma RunStep(st: State, events: seq<Event>, ev: Event)
    ensures Run(st, events + [ev]) == Apply(Run(st, events), ev)
  {
    assert (events + [ev])[..|events|] == events;
  }

  // ---------------------------------------------------------------------------------------------
  // The cached counts are never stale
  // ---------------------------------------------------------------------------------------------

  ghost predicate IsCurrent(e: SymbolProgress, calendar: Calendar) {
    e.dayCounts == Some(FreshCounts(e, calendar))
  }

  ghost predicate CountsCurrent(st: State) {
    forall s :: s in st.symbols ==> IsCurrent(st.symbols[s], st.calendar)
  }

  lemma RowsDoNotAge(e: SymbolProgress, key: StreamKey, rows: nat, calendar: Calendar)
    requires IsCurrent(e, calendar)
    ensures IsCurrent(WithRows(e, key, rows), calendar)
  {
    hide DayCount;
  }

  lemma RecountedIsCurrent(e: SymbolProgress, calendar: Calendar)
    ensures IsCurrent(Recounted(e, calendar), calendar)
  {
    hide DayCount;
  }

  /** Planning makes every cached count current, and every later event keeps it so. */
  lemma StepKeepsCounts(st: State, ev: Event)
    requires ev.Planning? || (st.historyFill && CountsCurrent(st))
    ensures Apply(st, ev).historyFill && CountsCurrent(Apply(st, ev))
  {
    hide FreshCounts, Started, Streamed, Completed, Failed, IsCurrent, Recounted, WithRows, WithDurability;
    var after := Apply(st, ev);
    forall s | s in after.symbols ensures IsCurrent(after.symbols[s], after.calendar) {
      match ev
      case SetScopes(_) =>
      case CalendarReady(days) => RecountedIsCurrent(st.symbols[s], Some(days));
      case DurabilityReport(owner, d) => RecountedIsCurrent(WithDurability(EntryOf(st.symbols, owner), d), st.calendar);
      case Planning(_) => RecountedIsCurrent(st.symbols[s], st.calendar);
      case BatchStarted(b, _, r, _) => RecountedIsCurrent(Started(EntryOf(st.symbols, s), b, r), st.calendar);
      case Telemetry(b, r, t, rows, cursor) =>
        RecountedIsCurrent(Streamed(EntryOf(st.symbols, t), b, r, rows, cursor), st.calendar);
      case BatchFinished(b, r, symbols, rowsWritten) =>
        var done := CompletedSymbols(st.symbols, Elements(symbols), b, r, st.calendar);
        RecountedIsCurrent(Completed(st.symbols[s], b, r), st.calendar);
        assert IsCurrent(done[s], st.calendar);
        RowsDoNotAge(done[s], StreamKey(b, 0, r), FinishRows(st, b, symbols, rowsWritten), st.calendar);
      case BatchFailed(b, r, _, message) => RecountedIsCurrent(Failed(st.symbols[s], b, r, message), st.calendar);
      case Finished =>
    }
  }

  /** From the first planning event on, every symbol holds exactly the counts that a recomputation from
      its range lists, streams, durability windows and the current calendar would give. */
  lemma {:induction false} CountsStayCurrent(st: State, events: seq<Event>, k: nat)
    requires k < |events| && events[k].Planning?
    ensures Run(st, events).historyFill && CountsCurrent(Run(st, events))
  {
    hide CountsCurrent, Apply;
    var init, last := events[..|events| - 1], events[|events| - 1];
    if k < |init| {
      CountsStayCurrent(st, init, k);
    }
    StepKeepsCounts(Run(st, init), last);
  }

  // ---------------------------------------------------------------------------------------------
  // Bounds between the counts, and what "active" means
  // ---------------------------------------------------------------------------------------------

  /** Batches started for a symbol and not yet ended for it, with their range. */
  type Book = map<(nat, Symbol), Range>

  ghost predicate Names(symbols: seq<Symbol>, batch: nat, pair: (nat, Symbol)) {
    pair.0 == batch && pair.1 in symbols
  }

  ghost function Pairs(symbols: seq<Symbol>, batch: nat): set<(nat, Symbol)> {
    set s | s in symbols :: (batch, s)
  }

  ghost function BookAfter(open: Book, ev: Event): Book {
    match ev
    case BatchStarted(b, _, r, symbols) =>
      map p | p in open.Keys + Pairs(symbols, b) :: if Names(symbols, b, p) then r else open[p]
    case BatchFinished(b, _, symbols, _) => map p | p in open && !Names(symbols, b, p) :: open[p]
    case BatchFailed(b, _, symbols, _) => map p | p in open && !Names(symbols, b, p) :: open[p]
    case _ => open
  }

  ghost predicate IsOpen(open: Book, batch: nat, s: Symbol, r: Range) {
    (batch, s) in open && open[(batch, s)] == r
  }

  /** Telemetry and endings concern an open batch of that range; a start does not reopen an open one. */
  ghost predicate Admissible(open: Book, ev: Event) {
    match ev
    case BatchStarted(b, _, _, symbols) => forall s :: s in symbols ==> (b, s) !in open
    case Telemetry(b, r, s, _, _) => IsOpen(open, b, s, r)
    case BatchFinished(b, r, symbols, _) => forall s :: s in symbols ==> IsOpen(open, b, s, r)
    case BatchFailed(b, r, symbols, _) => forall s :: s in symbols ==> IsOpen(open, b, s, r)
    case _ => true
  }

  ghost function OpenBatches(events: seq<Event>): Book {
    if events == [] then map[] else BookAfter(OpenBatches(events[..|events| - 1]), events[|events| - 1])
  }

  ghost predicate WellFormed(events: seq<Event>) {
    events == [] ||
    (WellFormed(events[..|events| - 1]) && Admissible(OpenBatches(events[..|events| - 1]), events[|events| - 1]))
  }

  ghost predicate Ordered(c: DayCounts) {
    c.covered <= c.received <= c.missing == c.planned && c.covered <= c.checkpointed
  }

  /** Shape of one symbol's ranges in a well-formed run. */
  ghost predicate Shaped(s: Symbol, e: SymbolProgress, open: Book) {
    && e.requestedRanges == e.missingRanges
    && (e.active <==> e.activeBatches != {})
    && (forall b :: b in e.activeBatches <==> (b, s) in open)
    && (forall b :: (b, s) in open ==> open[(b, s)] in e.missingRanges)
    && (forall r :: r in e.receivedRanges ==> r in e.missingRanges)
    && (forall k :: k in e.streamedRanges ==>
          IsOpen(open, k.batch, s, k.range) && k.range.0 < e.streamedRanges[k] <= k.range.1)
  }

  ghost predicate Inv(st: State, open: Book) {
    && (forall s :: s in st.symbols ==> Shaped(s, st.symbols[s], open) && Ordered(Shown(st.symbols[s])))
    && (forall p :: p in open ==> p.1 in st.symbols)
  }

  lemma PrefixDays(r: Range, end: int)
    requires r.0 < end <= r.1
    ensures TouchedDays((r.0, end)) <= TouchedDays(r)
  {
    TradingDayMonotone(end - 1, r.1 - 1);
  }

  /** Counting a well-shaped symbol orders its counts, whatever the calendar. */
  lemma FreshCountsAreOrdered(s: Symbol, e: SymbolProgress, open: Book, calendar: Calendar)
    requires Shaped(s, e, open)
    ensures Ordered(FreshCounts(e, calendar))
  {
    hide DayCount, TouchedDays;
    CheckpointCoversReceived(e, calendar);
    DayCountMonotone(Elements(e.receivedRanges), ReceivedSet(e), calendar);
    forall d | d in PartitionDays(ReceivedSet(e)) ensures d in PartitionDays(Elements(e.missingRanges)) {
      var r :| r in ReceivedSet(e) && d in TouchedDays(r);
      if r !in e.receivedRanges {
        var k :| k in e.streamedRanges && r == (k.range.0, e.streamedRanges[k]);
        PrefixDays(k.range, e.streamedRanges[k]);
      }
    }
    DayCountMonotone(ReceivedSet(e), Elements(e.missingRanges), calendar);
  }

  /** The checkpointed ranges include the received ones, so taking the maximum with the covered
      count never changes the checkpointed count. */
  lemma CheckpointCoversReceived(e: SymbolProgress, calendar: Calendar)
    ensures FreshCounts(e, calendar).checkpointed == DayCount(CheckpointSet(e), calendar)
  {
    hide DayCount;
    DayCountMonotone(Elements(e.receivedRanges), CheckpointSet(e), calendar);
  }

  lemma RecountedInv(s: Symbol, e: SymbolProgress, open: Book, calendar: Calendar)
    requires Shaped(s, e, open)
    ensures Shaped(s, Recounted(e, calendar), open) && Ordered(Shown(Recounted(e, calendar)))
  {
    hide FreshCounts;
    FreshCountsAreOrdered(s, e, open, calendar);
  }

  lemma ScopedInv(s: Symbol, e: SymbolProgress, open: Book, r: Range)
    requires Shaped(s, e, open)
    ensures Shaped(s, Scoped(e, r), open)
  {
  }

  lemma StartedShape(s: Symbol, e: SymbolProgress, open: Book, b: nat, total: nat, r: Range, symbols: seq<Symbol>)
    requires Shaped(s, e, open) && Admissible(open, BatchStarted(b, total, r, symbols))
    ensures var after := BookAfter(open, BatchStarted(b, total, r, symbols));
            if s in symbols then Shaped(s, Started(e, b, r), after) else Shaped(s, e, after)
  {
  }

  lemma StreamedShape(s: Symbol, e: SymbolProgress, open: Book, b: nat, r: Range, rows: nat, cursor: Option<int>)
    requires Shaped(s, e, open) && IsOpen(open, b, s, r)
    ensures Shaped(s, Streamed(e, b, r, rows, cursor), open)
  {
    hide TradingDayRange;
  }

  lemma ClosedShape(s: Symbol, e: SymbolProgress, open: Book, after: Book, b: nat, r: Range)
    requires Shaped(s, e, open) && IsOpen(open, b, s, r)
    requires forall c :: (c, s) in after <==> (c, s) in open && c != b
    requires forall c :: (c, s) in after ==> after[(c, s)] == open[(c, s)]
    ensures Shaped(s, Closed(e, b, r), after)
    ensures Shaped(s, Completed(e, b, r), after)
  {
  }

  lemma EndedBook(s: Symbol, open: Book, ev: Event)
    requires ev.BatchFinished? || ev.BatchFailed?
    ensures var after := BookAfter(open, ev);
            && (forall c :: (c, s) in after <==> (c, s) in open && !(c == ev.batch && s in ev.symbols))
            && (forall c :: (c, s) in after ==> after[(c, s)] == open[(c, s)])
  {
  }

  lemma SameBookShape(s: Symbol, e: SymbolProgress, open: Book, after: Book)
    requires Shaped(s, e, open)
    requires forall c :: (c, s) in after <==> (c, s) in open
    requires forall c :: (c, s) in after ==> after[(c, s)] == open[(c, s)]
    ensures Shaped(s, e, after)
  {
  }

  lemma {:induction false} ScopedSymbolsInv(m: map<Symbol, SymbolProgress>, scopes: seq<(Symbol, Range)>, open: Book)
    requires forall s :: s in m ==> Shaped(s, m[s], open) && Ordered(Shown(m[s]))
    requires forall p :: p in open ==> p.1 in m
    ensures var after := ScopedSymbols(m, scopes);
            && (forall s :: s in after ==> Shaped(s, after[s], open) && Ordered(Shown(after[s])))
            && m.Keys <= after.Keys
  {
    hide Shaped;
    if scopes != [] {
      var init, last := scopes[..|scopes| - 1], scopes[|scopes| - 1];
      ScopedSymbolsInv(m, init, open);
      var before := ScopedSymbols(m, init);
      NewSymbolInv(last.0, before, open);
      ScopedInv(last.0, EntryOf(before, last.0), open, last.1);
    }
  }

  lemma NewSymbolInv(s: Symbol, m: map<Symbol, SymbolProgress>, open: Book)
    requires forall t :: t in m ==> Shaped(t, m[t], open) && Ordered(Shown(m[t]))
    requires forall p :: p in open ==> p.1 in m
    ensures Shaped(s, EntryOf(m, s), open) && Ordered(Shown(EntryOf(m, s)))
  {
    if s !in m {
      assert forall b :: (b, s) !in open;
    }
  }

  lemma StepKeepsInv(st: State, open: Book, ev: Event)
    requires Inv(st, open) && Admissible(open, ev)
    ensures Inv(Apply(st, ev), BookAfter(open, ev))
  {
    hide Shaped, FreshCounts, Started, Streamed, Completed, Recounted, Ordered;
    match ev
    case SetScopes(_) => ScopesKeepInv(st, open, ev);
    case BatchStarted(_, _, _, _) => StartKeepsInv(st, open, ev);
    case BatchFinished(_, _, _, _) => FinishKeepsInv(st, open, ev);
    case BatchFailed(_, _, _, _) => FailKeepsInv(st, open, ev);
    case Finished =>
    case _ => QuietKeepsInv(st, open, ev);
  }

  lemma ScopesKeepInv(st: State, open: Book, ev: Event)
    requires Inv(st, open) && ev.SetScopes?
    ensures Inv(Apply(st, ev), open)
  {
    hide Shaped, Ordered, Relisted;
    var scoped := ScopedSymbols(st.symbols, ev.scopes);
    ScopedSymbolsInv(st.symbols, ev.scopes, open);
    forall s | s in scoped
      ensures Shaped(s, Relisted(scoped[s], st.calendar), open) && Ordered(Shown(Relisted(scoped[s], st.calendar)))
    {
      RelistedInv(s, scoped[s], open, st.calendar);
    }
  }

  lemma RelistedInv(s: Symbol, e: SymbolProgress, open: Book, calendar: Calendar)
    requires Shaped(s, e, open)
    ensures Shaped(s, Relisted(e, calendar), open) && Shown(Relisted(e, calendar)) == Shown(e)
  {
    hide Days;
  }

  lemma QuietKeepsInv(st: State, open: Book, ev: Event)
    requires Inv(st, open) && Admissible(open, ev)
    requires ev.CalendarReady? || ev.DurabilityReport? || ev.Planning? || ev.Telemetry?
    ensures Inv(Apply(st, ev), open)
  {
    hide Shaped, FreshCounts, Streamed, Recounted, Relisted, Ordered, WithDurability;
    var after := Apply(st, ev);
    forall s | s in after.symbols ensures Shaped(s, after.symbols[s], open) && Ordered(Shown(after.symbols[s])) {
      NewSymbolInv(s, st.symbols, open);
      var e := EntryOf(st.symbols, s);
      RecountedInv(s, e, open, after.calendar);
      RelistedInv(s, e, open, after.calendar);
      match ev
      case DurabilityReport(_, d) =>
        DurabilityShape(s, e, open, d);
        RecountedInv(s, WithDurability(e, d), open, st.calendar);
      case Telemetry(b, r, t, rows, cursor) =>
        if s == t {
          StreamedShape(s, e, open, b, r, rows, cursor);
          RecountedInv(s, Streamed(e, b, r, rows, cursor), open, st.calendar);
        }
      case _ =>
    }
  }

  lemma DurabilityShape(s: Symbol, e: SymbolProgress, open: Book, d: Durability)
    requires Shaped(s, e, open)
    ensures Shaped(s, WithDurability(e, d), open)
  {
  }

  lemma StartKeepsInv(st: State, open: Book, ev: Event)
    requires Inv(st, open) && Admissible(open, ev) && ev.BatchStarted?
    ensures Inv(Apply(st, ev), BookAfter(open, ev))
  {
    hide Shaped, FreshCounts, Started, Recounted, Ordered;
    var after, book := Apply(st, ev), BookAfter(open, ev);
    forall s | s in after.symbols ensures Shaped(s, after.symbols[s], book) && Ordered(Shown(after.symbols[s])) {
      NewSymbolInv(s, st.symbols, open);
      var e := EntryOf(st.symbols, s);
      StartedShape(s, e, open, ev.batch, ev.total, ev.range, ev.symbols);
      if s in ev.symbols {
        RecountedInv(s, Started(e, ev.batch, ev.range), book, st.calendar);
      }
    }
  }

  lemma FinishKeepsInv(st: State, open: Book, ev: Event)
    requires Inv(st, open) && Admissible(open, ev) && ev.BatchFinished?
    ensures Inv(Apply(st, ev), BookAfter(open, ev))
  {
    hide Shaped, FreshCounts, Completed, Recounted, Ordered, WithRows;
    var after, book := Apply(st, ev), BookAfter(open, ev);
    var rows := FinishRows(st, ev.batch, ev.symbols, ev.rowsWritten);
    forall s | s in after.symbols ensures Shaped(s, after.symbols[s], book) && Ordered(Shown(after.symbols[s])) {
      var e := st.symbols[s];
      EndedBook(s, open, ev);
      if s in ev.symbols {
        ClosedShape(s, e, open, book, ev.batch, ev.range);
        var done := Recounted(Completed(e, ev.batch, ev.range), st.calendar);
        RecountedInv(s, Completed(e, ev.batch, ev.range), book, st.calendar);
        RowsShape(s, done, book, StreamKey(ev.batch, 0, ev.range), rows);
      } else {
        SameBookShape(s, e, open, book);
      }
    }
  }

  lemma RowsShape(s: Symbol, e: SymbolProgress, open: Book, key: StreamKey, rows: nat)
    requires Shaped(s, e, open)
    ensures Shaped(s, WithRows(e, key, rows), open) && Shown(WithRows(e, key, rows)) == Shown(e)
  {
  }

  lemma FailKeepsInv(st: State, open: Book, ev: Event)
    requires Inv(st, open) && Admissible(open, ev) && ev.BatchFailed?
    ensures Inv(Apply(st, ev), BookAfter(open, ev))
  {
    hide Shaped, FreshCounts, Recounted, Ordered, Failed;
    var after, book := Apply(st, ev), BookAfter(open, ev);
    forall s | s in after.symbols ensures Shaped(s, after.symbols[s], book) && Ordered(Shown(after.symbols[s])) {
      var e := st.symbols[s];
      EndedBook(s, open, ev);
      if s in ev.symbols {
        FailedShape(s, e, open, book, ev.batch, ev.range, ev.message);
        RecountedInv(s, Failed(e, ev.batch, ev.range, ev.message), book, st.calendar);
      } else {
        SameBookShape(s, e, open, book);
      }
    }
  }

  lemma FailedShape(s: Symbol, e: SymbolProgress, open: Book, after: Book, b: nat, r: Range, message: string)
    requires Shaped(s, e, open) && IsOpen(open, b, s, r)
    requires forall c :: (c, s) in after <==> (c, s) in open && c != b
    requires forall c :: (c, s) in after ==> after[(c, s)] == open[(c, s)]
    ensures Shaped(s, Failed(e, b, r, message), after)
  {
    ClosedShape(s, e, open, after, b, r);
  }

  lemma {:induction false} WellFormedRunKeepsInv(events: seq<Event>)
    requires WellFormed(events)
    ensures Inv(Run(INITIAL, events), OpenBatches(events))
  {
    hide Inv, Apply, BookAfter, Admissible;
    if events == [] {
      InitialInv();
    } else {
      var init := events[..|events| - 1];
      WellFormedRunKeepsInv(init);
      StepKeepsInv(Run(INITIAL, init), OpenBatches(init), events[|events| - 1]);
    }
  }

  lemma InitialInv()
    ensures Inv(INITIAL, map[])
  {
  }

  /** After every well-formed run, for every symbol and in total: covered <= received <= missing,
      missing = planned, and covered <= checkpointed. */
  lemma CountsAreOrdered(events: seq<Event>)
    requires WellFormed(events)
    ensures var st := Run(INITIAL, events);
            && (forall s :: s in st.symbols ==> Ordered(Shown(st.symbols[s])))
            && Ordered(TotalCounts(st.symbols))
  {
    hide WellFormed, Run, Shaped, Ordered, TotalCounts;
    WellFormedRunKeepsInv(events);
    TotalsAreOrdered(Run(INITIAL, events).symbols);
  }

  lemma TotalsAreOrdered(m: map<Symbol, SymbolProgress>)
    requires forall s :: s in m ==> Ordered(Shown(m[s]))
    ensures Ordered(TotalCounts(m))
  {
    hide MapSum;
    MapSumMonotone(PerSymbol(m, CoveredOf), PerSymbol(m, ReceivedOf));
    MapSumMonotone(PerSymbol(m, ReceivedOf), PerSymbol(m, MissingOf));
    MapSumMonotone(PerSymbol(m, CoveredOf), PerSymbol(m, CheckpointedOf));
    assert PerSymbol(m, MissingOf) == PerSymbol(m, PlannedOf);
  }

  /** A symbol is active exactly when some batch was started for it and has not ended for it. */
  lemma ActiveIffBatchOpen(events: seq<Event>, s: Symbol)
    requires WellFormed(events) && s in Run(INITIAL, events).symbols
    ensures Run(INITIAL, events).symbols[s].active <==> exists b :: (b, s) in OpenBatches(events)
  {
    WellFormedRunKeepsInv(events);
    var e := Run(INITIAL, events).symbols[s];
    if e.active {
      var b :| b in e.activeBatches;
      assert (b, s) in OpenBatches(events);
    }
  }

  // ---------------------------------------------------------------------------------------------
  // What one event does to the received ranges and streams of one symbol
  // ---------------------------------------------------------------------------------------------

  lemma {:induction false} ScopedSymbolsKeepReceived(m: map<Symbol, SymbolProgress>, scopes: seq<(Symbol, Range)>,
                                                     s: Symbol)
    requires s in m
    ensures var after := ScopedSymbols(m, scopes);
            && s in after
            && after[s].receivedRanges == m[s].receivedRanges
            && after[s].streamedRanges == m[s].streamedRanges
  {
    if scopes != [] {
      ScopedSymbolsKeepReceived(m, scopes[..|scopes| - 1], s);
    }
  }

  /** What an event does to the received ranges and the streams of symbol `s`. */
  ghost function Receipt(e: SymbolProgress, ev: Event, s: Symbol): (seq<Range>, map<BatchRange, int>) {
    match ev
    case Telemetry(batch, r, t, rows, cursor) =>
      (e.receivedRanges, if t == s then Streamed(e, batch, r, rows, cursor).streamedRanges else e.streamedRanges)
    case BatchFinished(batch, r, symbols, _) =>
      if s in symbols then (AddRange(e.receivedRanges, r), Closed(e, batch, r).streamedRanges)
      else (e.receivedRanges, e.streamedRanges)
    case BatchFailed(batch, r, symbols, _) =>
      (e.receivedRanges, if s in symbols then Closed(e, batch, r).streamedRanges else e.streamedRanges)
    case _ => (e.receivedRanges, e.streamedRanges)
  }

  lemma ApplyReceipt(st: State, ev: Event, s: Symbol)
    requires s in st.symbols
    ensures s in Apply(st, ev).symbols
    ensures Apply(st, ev).calendar == if ev.CalendarReady? then Some(ev.days) else st.calendar
    ensures var e := Apply(st, ev).symbols[s];
            (e.receivedRanges, e.streamedRanges) == Receipt(st.symbols[s], ev, s)
  {
    hide FreshCounts, CompletedHistoryRange, FinishRows;
    match ev
    case SetScopes(scopes) => ScopedSymbolsKeepReceived(st.symbols, scopes, s);
    case BatchFinished(_, _, _, _) => FinishReceives(st, ev, s);
    case _ =>
  }

  lemma FinishReceives(st: State, ev: Event, s: Symbol)
    requires ev.BatchFinished? && s in st.symbols
    ensures s in Apply(st, ev).symbols && Apply(st, ev).calendar == st.calendar
    ensures var e := Apply(st, ev).symbols[s];
            var was := st.symbols[s];
            && e.receivedRanges ==
               (if s in ev.symbols then Completed(was, ev.batch, ev.range) else was).receivedRanges
            && e.streamedRanges ==
               (if s in ev.symbols then Closed(was, ev.batch, ev.range) else was).streamedRanges
  {
    hide FreshCounts, FinishRows;
  }

  // ---------------------------------------------------------------------------------------------
  // Received days only grow, except by failures; settled windows stay settled
  // ---------------------------------------------------------------------------------------------

  ghost function ReceivedDays(e: SymbolProgress): set<Day> {
    PartitionDays(ReceivedSet(e))
  }

  ghost predicate FailsFor(ev: Event, s: Symbol) {
    ev.BatchFailed? && s in ev.symbols
  }

  lemma ReceivedStepGrows(st: State, open: Book, ev: Event, s: Symbol)
    requires Inv(st, open) && Admissible(open, ev) && s in st.symbols && !FailsFor(ev, s)
    ensures s in Apply(st, ev).symbols && ReceivedDays(st.symbols[s]) <= ReceivedDays(Apply(st, ev).symbols[s])
  {
    ApplyReceipt(st, ev, s);
    assert Shaped(s, st.symbols[s], open);
    hide Apply, Inv, Shaped, Receipt, Admissible, FailsFor, ReceivedDays, StreamGrows;
    ReceiptGrows(s, st.symbols[s], open, ev);
    GrownReceipt(st.symbols[s], Apply(st, ev).symbols[s]);
  }

  /** Stream `k` either reaches at least as far as before or its whole range is received. */
  ghost predicate StreamGrows(e: SymbolProgress, received: seq<Range>, streamed: map<BatchRange, int>, k: BatchRange) {
    k in e.streamedRanges ==>
      k.range.0 < e.streamedRanges[k] <= k.range.1
      && ((k in streamed && e.streamedRanges[k] <= streamed[k]) || k.range in received)
  }

  lemma ReceiptGrows(s: Symbol, e: SymbolProgress, open: Book, ev: Event)
    requires Shaped(s, e, open) && Admissible(open, ev) && !FailsFor(ev, s)
    ensures forall r :: r in e.receivedRanges ==> r in Receipt(e, ev, s).0
    ensures forall k :: StreamGrows(e, Receipt(e, ev, s).0, Receipt(e, ev, s).1, k)
  {
    hide CompletedHistoryRange;
  }

  lemma GrownReceipt(e: SymbolProgress, f: SymbolProgress)
    requires forall r :: r in e.receivedRanges ==> r in f.receivedRanges
    requires forall k :: StreamGrows(e, f.receivedRanges, f.streamedRanges, k)
    ensures ReceivedDays(e) <= ReceivedDays(f)
  {
    hide TouchedDays;
    forall d | d in ReceivedDays(e) ensures d in ReceivedDays(f) {
      var r :| r in ReceivedSet(e) && d in TouchedDays(r);
      if r !in e.receivedRanges {
        var k :| k in e.streamedRanges && r == (k.range.0, e.streamedRanges[k]);
        assert StreamGrows(e, f.receivedRanges, f.streamedRanges, k);
        if k.range in f.receivedRanges {
          PrefixDays(k.range, r.1);
        } else {
          PrefixDays((r.0, f.streamedRanges[k]), r.1);
          assert (k.range.0, f.streamedRanges[k]) in ReceivedSet(f);
        }
      }
    }
  }

  /** In a well-formed run the days received for a symbol only grow while none of its batches fails:
      telemetry extends them and a finish replaces a streamed prefix by the whole range. */
  lemma {:induction false} ReceivedDaysGrow(events: seq<Event>, k: nat, s: Symbol)
    requires WellFormed(events) && k <= |events| && s in Run(INITIAL, events[..k]).symbols
    requires forall i :: k <= i < |events| ==> !FailsFor(events[i], s)
    ensures s in Run(INITIAL, events).symbols
    ensures ReceivedDays(Run(INITIAL, events[..k]).symbols[s]) <= ReceivedDays(Run(INITIAL, events).symbols[s])
  {
    hide Apply, ReceivedDays, Inv, Admissible, FailsFor;
    if k == |events| {
      assert events[..k] == events;
    } else {
      var init, last := events[..|events| - 1], events[|events| - 1];
      assert init[..k] == events[..k];
      assert forall i :: k <= i < |init| ==> init[i] == events[i];
      ReceivedDaysGrow(init, k, s);
      WellFormedRunKeepsInv(init);
      ReceivedStepGrows(Run(INITIAL, init), OpenBatches(init), last, s);
    }
  }

  ghost predicate IsSettled(e: SymbolProgress, window: Range) {
    window in e.durability && e.durability[window].redownload.None?
  }

  lemma SettledStep(st: State, ev: Event, s: Symbol, window: Range)
    requires s in st.symbols && IsSettled(st.symbols[s], window)
    ensures s in Apply(st, ev).symbols
    ensures window in Apply(st, ev).symbols[s].durability
         && Apply(st, ev).symbols[s].durability[window] == st.symbols[s].durability[window]
  {
    hide Apply;
    match ev
    case SetScopes(scopes) =>
      ScopedSymbolsKeepDurability(st.symbols, scopes, s);
      OtherSettledStep(st, ev, s, window);
    case BatchFinished(_, _, _, _) => FinishSettledStep(st, ev, s, window);
    case _ => OtherSettledStep(st, ev, s, window);
  }

  lemma FinishSettledStep(st: State, ev: Event, s: Symbol, window: Range)
    requires ev.BatchFinished? && s in st.symbols && IsSettled(st.symbols[s], window)
    ensures s in Apply(st, ev).symbols
    ensures window in Apply(st, ev).symbols[s].durability
         && Apply(st, ev).symbols[s].durability[window] == st.symbols[s].durability[window]
  {
    hide FreshCounts, FinishRows;
  }

  lemma OtherSettledStep(st: State, ev: Event, s: Symbol, window: Range)
    requires !ev.BatchFinished? && s in st.symbols && IsSettled(st.symbols[s], window)
    requires ev.SetScopes? ==>
      s in ScopedSymbols(st.symbols, ev.scopes)
      && ScopedSymbols(st.symbols, ev.scopes)[s].durability == st.symbols[s].durability
    ensures s in Apply(st, ev).symbols
    ensures window in Apply(st, ev).symbols[s].durability
         && Apply(st, ev).symbols[s].durability[window] == st.symbols[s].durability[window]
  {
    hide FreshCounts, CompletedHistoryRange, Days, ScopedSymbols;
  }

  lemma {:induction false} ScopedSymbolsKeepDurability(m: map<Symbol, SymbolProgress>, scopes: seq<(Symbol, Range)>,
                                                       s: Symbol)
    requires s in m
    ensures s in ScopedSymbols(m, scopes) && ScopedSymbols(m, scopes)[s].durability == m[s].durability
  {
    if scopes != [] {
      ScopedSymbolsKeepDurability(m, scopes[..|scopes| - 1], s);
    }
  }

  /** Once a window has nothing left to download again, no later event of any run changes its report. */
  lemma {:induction false} SettledWindowsStay(st: State, events: seq<Event>, s: Symbol, window: Range)
    requires s in st.symbols && IsSettled(st.symbols[s], window)
    ensures s in Run(st, events).symbols && IsSettled(Run(st, events).symbols[s], window)
    ensures Run(st, events).symbols[s].durability[window] == st.symbols[s].durability[window]
  {
    hide Apply;
    if events != [] {
      SettledWindowsStay(st, events[..|events| - 1], s, window);
      SettledStep(Run(st, events[..|events| - 1]), events[|events| - 1], s, window);
    }
  }
}
