/** What a fill-progress event means for the ledger of one history fill, symbol by symbol. */
module ProgressSpec {
  import opened Wrappers
  import opened Ranges
  import opened TradingDays
  import opened DayCounting
  import opened Lists
  import opened Sums
  import opened Extremes

  type Symbol = string

  /** State of one physical fill window; `redownload` is the suffix a restart must fetch again. */
  datatype Durability = Durability(range: Range, redownload: Option<Range>, finalCoverage: bool,
                                   receivedRows: nat, committedRows: nat, stagedRows: nat)

  datatype DayCounts = DayCounts(covered: nat, planned: nat, missing: nat, received: nat, checkpointed: nat)

  /** The day sets shown before a history fill begins. */
  datatype DaySets = DaySets(planned: set<Day>, missing: set<Day>, covered: set<Day>, received: set<Day>)

  datatype StreamKey = StreamKey(batch: nat, attempt: nat, range: Range)

  datatype BatchRange = BatchRange(batch: nat, range: Range)

  datatype SymbolProgress = SymbolProgress(
    durability: map<Range, Durability>,
    requestedRanges: seq<Range>,
    missingRanges: seq<Range>,
    dayCounts: Option<DayCounts>,
    receivedRanges: seq<Range>,
    streamedRanges: map<BatchRange, int>,
    rowsByStream: map<StreamKey, nat>,
    activeBatches: set<nat>,
    active: bool,
    error: Option<string>,
    daySets: DaySets)

  const NEW_SYMBOL := SymbolProgress(map[], [], [], None, [], map[], map[], {}, false, None, DaySets({}, {}, {}, {}))

  datatype State = State(
    calendar: Calendar,
    symbols: map<Symbol, SymbolProgress>,
    completedBatches: set<nat>,
    rowsByBatch: map<nat, nat>,
    totalBatches: nat,
    historyFill: bool,
    batchStarted: bool,
    failed: bool)

  const INITIAL := State(None, map[], {}, map[], 0, false, false, false)

  datatype Event =
    | SetScopes(scopes: seq<(Symbol, Range)>)
    | CalendarReady(days: seq<Day>)
    | DurabilityReport(owner: Symbol, progress: Durability)
    | Planning(planned: nat)
    | BatchStarted(batch: nat, total: nat, range: Range, symbols: seq<Symbol>)
    | Telemetry(batch: nat, range: Range, symbol: Symbol, rows: nat, cursor: Option<int>)
    | BatchFinished(batch: nat, range: Range, symbols: seq<Symbol>, rowsWritten: nat)
    | BatchFailed(batch: nat, range: Range, symbols: seq<Symbol>, message: string)
    | Finished

  // ---- one symbol ----

  function EntryOf(symbols: map<Symbol, SymbolProgress>, s: Symbol): SymbolProgress {
    if s in symbols then symbols[s] else NEW_SYMBOL
  }

  function AddRange(ranges: seq<Range>, r: Range): seq<Range> {
    if r in ranges then ranges else ranges + [r]
  }

  /** The time a batch window is durable for: a prefix, the whole range, or nothing. */
  function Checkpoint(d: Durability): Option<Range> {
    match d.redownload
    case Some(suffix) => Some((d.range.0, suffix.0))
    case None => if d.finalCoverage then Some(d.range) else None
  }

  ghost function StreamedPrefixes(e: SymbolProgress): set<Range> {
    set k | k in e.streamedRanges :: (k.range.0, e.streamedRanges[k])
  }

  ghost function ReceivedSet(e: SymbolProgress): set<Range> {
    Elements(e.receivedRanges) + StreamedPrefixes(e)
  }

  ghost function CheckpointSet(e: SymbolProgress): set<Range> {
    Elements(e.receivedRanges)
    + set k | k in e.durability && Checkpoint(e.durability[k]).Some? :: Checkpoint(e.durability[k]).value
  }

  /** The day counts a symbol should show, recomputed from its range lists and the calendar. */
  ghost function FreshCounts(e: SymbolProgress, calendar: Calendar): DayCounts {
    var covered := DayCount(Elements(e.receivedRanges), calendar);
    DayCounts(
      covered,
      DayCount(Elements(e.requestedRanges), calendar),
      DayCount(Elements(e.missingRanges), calendar),
      DayCount(ReceivedSet(e), calendar),
      Max(DayCount(CheckpointSet(e), calendar), covered))
  }

  ghost function Recounted(e: SymbolProgress, calendar: Calendar): SymbolProgress {
    e.(dayCounts := Some(FreshCounts(e, calendar)))
  }

  /** Before a history fill the days are kept as sets; received days are dropped once no longer missing. */
  ghost function Relisted(e: SymbolProgress, calendar: Calendar): SymbolProgress {
    var planned := Days(Elements(e.requestedRanges), calendar);
    var missing := Days(Elements(e.missingRanges), calendar);
    e.(daySets := DaySets(planned, missing, planned - missing, e.daySets.received * missing))
  }

  function Scoped(e: SymbolProgress, r: Range): SymbolProgress {
    e.(requestedRanges := AddRange(e.requestedRanges, r), missingRanges := AddRange(e.missingRanges, r))
  }

  function WithRows(e: SymbolProgress, key: StreamKey, rows: nat): SymbolProgress {
    e.(rowsByStream := e.rowsByStream[key := if key in e.rowsByStream then Max(e.rowsByStream[key], rows) else rows])
  }

  function Started(e: SymbolProgress, batch: nat, r: Range): SymbolProgress {
    WithRows(Scoped(e, r).(activeBatches := e.activeBatches + {batch}, active := true), StreamKey(batch, 0, r), 0)
  }

  function Streamed(e: SymbolProgress, batch: nat, r: Range, rows: nat, cursor: Option<int>): SymbolProgress {
    var busy := e.(activeBatches := e.activeBatches + {batch}, active := true);
    var counted := WithRows(busy, StreamKey(batch, 0, r), rows);
    var completed := if cursor.Some? then CompletedHistoryRange(r, cursor.value) else None;
    match completed
    case None => counted
    case Some(done) =>
      var key := BatchRange(batch, r);
      var end := if key in e.streamedRanges then Max(e.streamedRanges[key], done.1) else done.1;
      counted.(streamedRanges := e.streamedRanges[key := end])
  }

  /** Drops an ended batch from the open ones and forgets what it streamed. */
  function Closed(e: SymbolProgress, batch: nat, r: Range): SymbolProgress {
    var open := e.activeBatches - {batch};
    e.(activeBatches := open, active := open != {}, streamedRanges := e.streamedRanges - {BatchRange(batch, r)})
  }

  function Completed(e: SymbolProgress, batch: nat, r: Range): SymbolProgress {
    Closed(e, batch, r).(receivedRanges := AddRange(e.receivedRanges, r),
                         daySets := e.daySets.(received := e.daySets.received + e.daySets.missing))
  }

  function Failed(e: SymbolProgress, batch: nat, r: Range, message: string): SymbolProgress {
    Closed(e, batch, r).(error := Some(message))
  }

  /** A window whose redownload suffix is gone is settled and keeps its first report. */
  function WithDurability(e: SymbolProgress, d: Durability): SymbolProgress {
    if d.range in e.durability && e.durability[d.range].redownload.None? then e
    else e.(durability := e.durability[d.range := d])
  }

  // ---- all symbols ----

  ghost function StartedSymbols(m: map<Symbol, SymbolProgress>, named: set<Symbol>, batch: nat, r: Range,
                                calendar: Calendar): map<Symbol, SymbolProgress> {
    map s | s in m.Keys + named ::
      if s in named then Recounted(Started(EntryOf(m, s), batch, r), calendar) else m[s]
  }

  ghost function CompletedSymbols(m: map<Symbol, SymbolProgress>, named: set<Symbol>, batch: nat, r: Range,
                                  calendar: Calendar): map<Symbol, SymbolProgress> {
    map s | s in m :: if s in named then Recounted(Completed(m[s], batch, r), calendar) else m[s]
  }

  ghost function FailedSymbols(m: map<Symbol, SymbolProgress>, named: set<Symbol>, batch: nat, r: Range,
                               message: string, calendar: Calendar): map<Symbol, SymbolProgress> {
    map s | s in m :: if s in named then Recounted(Failed(m[s], batch, r, message), calendar) else m[s]
  }

  ghost function RecountedSymbols(m: map<Symbol, SymbolProgress>, calendar: Calendar): map<Symbol, SymbolProgress> {
    map s | s in m :: Recounted(m[s], calendar)
  }

  ghost function RelistedSymbols(m: map<Symbol, SymbolProgress>, calendar: Calendar): map<Symbol, SymbolProgress> {
    map s | s in m :: Relisted(m[s], calendar)
  }

  ghost function ScopedSymbols(m: map<Symbol, SymbolProgress>, scopes: seq<(Symbol, Range)>)
      : map<Symbol, SymbolProgress>
  {
    if scopes == [] then m
    else
      var init, last := ScopedSymbols(m, scopes[..|scopes| - 1]), scopes[|scopes| - 1];
      init[last.0 := Scoped(EntryOf(init, last.0), last.1)]
  }

  // ---- rows ----

  ghost function BatchRows(e: SymbolProgress, batch: nat): nat {
    MapSum(BatchStreams(e, batch))
  }

  function BatchStreams(e: SymbolProgress, batch: nat): map<StreamKey, nat> {
    map k | k in e.rowsByStream && k.batch == batch :: e.rowsByStream[k]
  }

  function OpenStreams(e: SymbolProgress, completed: set<nat>): map<StreamKey, nat> {
    map k | k in e.rowsByStream && k.batch !in completed :: e.rowsByStream[k]
  }

  ghost function OpenRows(e: SymbolProgress, completed: set<nat>): nat {
    MapSum(OpenStreams(e, completed))
  }

  /** Rows streamed for a batch by the listed symbols, one term per mention. */
  ghost function ListedRows(m: map<Symbol, SymbolProgress>, listed: seq<Symbol>, batch: nat): nat {
    if listed == [] then 0
    else
      var last := listed[|listed| - 1];
      ListedRows(m, listed[..|listed| - 1], batch) + if last in m then BatchRows(m[last], batch) else 0
  }

  ghost function OpenRowsBySymbol(m: map<Symbol, SymbolProgress>, completed: set<nat>): map<Symbol, nat> {
    map s | s in m :: OpenRows(m[s], completed)
  }

  /** The row total of a history fill: finished batches once each, plus the streams of open batches. */
  ghost function TotalRows(st: State): nat {
    MapSum(st.rowsByBatch) + MapSum(OpenRowsBySymbol(st.symbols, st.completedBatches))
  }

  // ---- one event ----

  ghost function FinishRows(st: State, batch: nat, symbols: seq<Symbol>, rowsWritten: nat): nat {
    Max(rowsWritten, ListedRows(st.symbols, symbols, batch))
  }

  /** The rows of a finish that lists a single symbol are also kept with that symbol. */
  function WithSingleRows(m: map<Symbol, SymbolProgress>, listed: seq<Symbol>, key: StreamKey, rows: nat)
      : map<Symbol, SymbolProgress>
  {
    if |listed| == 1 && listed[0] in m then m[listed[0] := WithRows(m[listed[0]], key, rows)] else m
  }

  ghost function AfterFinish(st: State, batch: nat, r: Range, symbols: seq<Symbol>, rowsWritten: nat): State {
    var rows := FinishRows(st, batch, symbols, rowsWritten);
    var done := CompletedSymbols(st.symbols, Elements(symbols), batch, r, st.calendar);
    st.(historyFill := true,
        batchStarted := true,
        completedBatches := st.completedBatches + {batch},
        rowsByBatch := st.rowsByBatch[batch :=
          if batch in st.rowsByBatch then Max(st.rowsByBatch[batch], rows) else rows],
        symbols := WithSingleRows(done, symbols, StreamKey(batch, 0, r), rows))
  }

  ghost function Apply(st: State, ev: Event): State {
    match ev
    case SetScopes(scopes) =>
      if st.historyFill then st
      else st.(symbols := RelistedSymbols(ScopedSymbols(st.symbols, scopes), st.calendar))
    case CalendarReady(days) =>
      var seen := st.(calendar := Some(days));
      seen.(symbols := if st.historyFill then RecountedSymbols(st.symbols, Some(days))
                       else RelistedSymbols(st.symbols, Some(days)))
    case DurabilityReport(s, d) =>
      st.(symbols := st.symbols[s := Recounted(WithDurability(EntryOf(st.symbols, s), d), st.calendar)])
    case Planning(total) =>
      st.(historyFill := true, totalBatches := total, symbols := RecountedSymbols(st.symbols, st.calendar))
    case BatchStarted(batch, total, r, symbols) =>
      st.(historyFill := true, batchStarted := true, totalBatches := total,
          symbols := StartedSymbols(st.symbols, Elements(symbols), batch, r, st.calendar))
    case Telemetry(batch, r, s, rows, cursor) =>
      st.(historyFill := true, batchStarted := true,
          symbols := st.symbols[s := Recounted(Streamed(EntryOf(st.symbols, s), batch, r, rows, cursor), st.calendar)])
    case BatchFinished(batch, r, symbols, rowsWritten) =>
      AfterFinish(st, batch, r, symbols, rowsWritten)
    case BatchFailed(batch, r, symbols, message) =>
      st.(historyFill := true, batchStarted := true, failed := true,
          symbols := FailedSymbols(st.symbols, Elements(symbols), batch, r, message, st.calendar))
    case Finished => st.(historyFill := true)
  }

  /** The ledger after a run of events. */
  ghost function Run(st: State, events: seq<Event>): State {
    if events == [] then st else Apply(Run(st, events[..|events| - 1]), events[|events| - 1])
  }

  /** The counts a symbol displays; a symbol that was never counted shows zeros. */
  function Shown(e: SymbolProgress): DayCounts {
    match e.dayCounts
    case None => DayCounts(0, 0, 0, 0, 0)
    case Some(c) => c
  }

  // ---- naming a symbol twice in one event changes nothing ----

  lemma StartedTwice(e: SymbolProgress, batch: nat, r: Range, calendar: Calendar)
    ensures var once := Recounted(Started(e, batch, r), calendar);
            Recounted(Started(once, batch, r), calendar) == once
  {
    hide DayCount;
    var once := Recounted(Started(e, batch, r), calendar);
    var twice := Started(once, batch, r);
    assert twice.rowsByStream == once.rowsByStream;
    assert twice.activeBatches == once.activeBatches;
    assert twice == once;
  }

  lemma CompletedTwice(e: SymbolProgress, batch: nat, r: Range, calendar: Calendar)
    ensures var once := Recounted(Completed(e, batch, r), calendar);
            Recounted(Completed(once, batch, r), calendar) == once
  {
    hide DayCount;
    var once := Recounted(Completed(e, batch, r), calendar);
    var twice := Completed(once, batch, r);
    assert twice.activeBatches == once.activeBatches;
    assert twice.streamedRanges == once.streamedRanges;
    assert twice == once;
  }

  lemma FailedTwice(e: SymbolProgress, batch: nat, r: Range, message: string, calendar: Calendar)
    ensures var once := Recounted(Failed(e, batch, r, message), calendar);
            Recounted(Failed(once, batch, r, message), calendar) == once
  {
    hide DayCount;
    var once := Recounted(Failed(e, batch, r, message), calendar);
    var twice := Failed(once, batch, r, message);
    assert twice.activeBatches == once.activeBatches;
    assert twice.streamedRanges == once.streamedRanges;
    assert twice == once;
  }

  lemma StartedNone(m: map<Symbol, SymbolProgress>, batch: nat, r: Range, calendar: Calendar)
    ensures StartedSymbols(m, {}, batch, r, calendar) == m
  {
  }

  lemma StartedStep(m: map<Symbol, SymbolProgress>, named: set<Symbol>, s: Symbol, batch: nat, r: Range,
                    calendar: Calendar)
    ensures var before := StartedSymbols(m, named, batch, r, calendar);
            StartedSymbols(m, named + {s}, batch, r, calendar) ==
              before[s := Recounted(Started(EntryOf(before, s), batch, r), calendar)]
  {
    hide Started, FreshCounts;
    StartedTwice(EntryOf(m, s), batch, r, calendar);
  }

  lemma CompletedStep(m: map<Symbol, SymbolProgress>, named: set<Symbol>, s: Symbol, batch: nat, r: Range,
                      calendar: Calendar)
    ensures var before := CompletedSymbols(m, named, batch, r, calendar);
            CompletedSymbols(m, named + {s}, batch, r, calendar) ==
              if s in before then before[s := Recounted(Completed(before[s], batch, r), calendar)] else before
  {
    hide Completed, FreshCounts;
    CompletedTwice(EntryOf(m, s), batch, r, calendar);
  }

  lemma FailedStep(m: map<Symbol, SymbolProgress>, named: set<Symbol>, s: Symbol, batch: nat, r: Range, message: string,
                   calendar: Calendar)
    ensures var before := FailedSymbols(m, named, batch, r, message, calendar);
            FailedSymbols(m, named + {s}, batch, r, message, calendar) ==
              if s in before then before[s := Recounted(Failed(before[s], batch, r, message), calendar)] else before
  {
    hide Failed, FreshCounts;
    FailedTwice(EntryOf(m, s), batch, r, message, calendar);
  }
}

/** The ledger object that fill observers update in place. */
module ProgressState {
  import opened Wrappers
  import opened Ranges
  import opened TradingDays
  import opened DayCounting
  import opened Lists
  import opened Sums
  import opened Extremes
  import opened ProgressSpec

  class ProgressState {
    var calendar: Calendar
    var symbols: map<Symbol, SymbolProgress>
    var completedBatches: set<nat>
    var rowsByBatch: map<nat, nat>
    var totalBatches: nat
    var historyFill: bool
    var batchStarted: bool
    var failed: bool

    ghost function Ledger(): State
      reads this
    {
      State(calendar, symbols, completedBatches, rowsByBatch, totalBatches, historyFill, batchStarted, failed)
    }

    constructor ()
      ensures Ledger() == INITIAL
    {
      calendar := None;
      symbols := map[];
      completedBatches := {};
      rowsByBatch := map[];
      totalBatches := 0;
      historyFill, batchStarted, failed := false, false, false;
    }

    method SetScopes(scopes: seq<(Symbol, Range)>)
      modifies this
      ensures Ledger() == Apply(old(Ledger()), Event.SetScopes(scopes))
    {
      if historyFill {
        return;
      }
      for i := 0 to |scopes|
        invariant symbols == ScopedSymbols(old(symbols), scopes[..i])
        invariant Ledger() == old(Ledger()).(symbols := symbols)
      {
        assert scopes[..i + 1][..i] == scopes[..i];
        var (symbol, r) := scopes[i];
        var entry := EntryOf(symbols, symbol);
        if r !in entry.requestedRanges {
          entry := entry.(requestedRanges := entry.requestedRanges + [r]);
        }
        if r !in entry.missingRanges {
          entry := entry.(missingRanges := entry.missingRanges + [r]);
        }
        symbols := symbols[symbol := entry];
      }
      assert scopes[..|scopes|] == scopes;
      RecalculateDays();
    }

    method CalendarReady(days: seq<Day>)
      modifies this
      ensures Ledger() == Apply(old(Ledger()), Event.CalendarReady(days))
    {
      calendar := Some(days);
      RecalculateDays();
    }

    /** Recounts every symbol of a history fill; before one, lists every symbol's days again. */
    method RecalculateDays()
      modifies this`symbols
      ensures symbols == if historyFill then RecountedSymbols(old(symbols), calendar)
                         else RelistedSymbols(old(symbols), calendar)
    {
      hide FreshCounts, Relisted;
      var rest := symbols.Keys;
      while rest != {}
        invariant rest <= symbols.Keys == old(symbols).Keys
        invariant forall s :: s in symbols ==>
          symbols[s] == if s in rest then old(symbols)[s]
                        else if historyFill then Recounted(old(symbols)[s], calendar)
                        else Relisted(old(symbols)[s], calendar)
        decreases rest
      {
        var s :| s in rest;
        rest := rest - {s};
        if historyFill {
          RecalculateHistorySymbolDays(s);
        } else {
          var entry := ListDays(symbols[s], calendar);
          symbols := symbols[s := entry];
        }
      }
    }

    /** Rebuilds one symbol's cached counts from its range lists, streams and durability windows. */
    method RecalculateHistorySymbolDays(s: Symbol)
      modifies this`symbols
      ensures symbols == if s in old(symbols) then old(symbols)[s := Recounted(old(symbols)[s], calendar)]
                         else old(symbols)
    {
      if s !in symbols {
        return;
      }
      var entry := symbols[s];
      var prefixes := StreamedPrefixList(entry.streamedRanges);
      var checkpoints := CheckpointList(entry.durability);
      var covered := DayCountForRanges(entry.receivedRanges, calendar);
      var planned := DayCountForRanges(entry.requestedRanges, calendar);
      var missing := DayCountForRanges(entry.missingRanges, calendar);
      var received := DayCountForRanges(entry.receivedRanges + prefixes, calendar);
      var checkpointed := DayCountForRanges(entry.receivedRanges + checkpoints, calendar);
      assert Elements(entry.receivedRanges + prefixes) == ReceivedSet(entry);
      assert Elements(entry.receivedRanges + checkpoints) == CheckpointSet(entry);
      symbols := symbols[s := entry.(dayCounts :=
        Some(DayCounts(covered, planned, missing, received, Max(checkpointed, covered))))];
    }

    method ApplyDurability(s: Symbol, d: Durability)
      modifies this
      ensures Ledger() == Apply(old(Ledger()), DurabilityReport(s, d))
    {
      hide FreshCounts;
      symbols := symbols[s := WithDurability(EntryOf(symbols, s), d)];
      RecalculateHistorySymbolDays(s);
    }

    method ApplyPlanning(total: nat)
      modifies this
      ensures Ledger() == Apply(old(Ledger()), Planning(total))
    {
      historyFill := true;
      totalBatches := total;
      RecalculateDays();
    }

    method ApplyBatchStarted(batch: nat, total: nat, r: Range, listed: seq<Symbol>)
      modifies this
      ensures Ledger() == Apply(old(Ledger()), BatchStarted(batch, total, r, listed))
    {
      hide FreshCounts;
      historyFill := true;
      batchStarted := true;
      totalBatches := total;
      StartSymbols(listed, batch, r);
    }

    method StartSymbols(listed: seq<Symbol>, batch: nat, r: Range)
      modifies this`symbols
      ensures symbols == StartedSymbols(old(symbols), Elements(listed), batch, r, calendar)
    {
      hide Started, FreshCounts;
      StartedNone(symbols, batch, r, calendar);
      for i := 0 to |listed|
        invariant symbols == StartedSymbols(old(symbols), Elements(listed[..i]), batch, r, calendar)
      {
        StartedStep(old(symbols), Elements(listed[..i]), listed[i], batch, r, calendar);
        assert Elements(listed[..i + 1]) == Elements(listed[..i]) + {listed[i]};
        StartSymbol(listed[i], batch, r);
      }
      assert listed[..|listed|] == listed;
    }

    method StartSymbol(s: Symbol, batch: nat, r: Range)
      modifies this`symbols
      ensures symbols == old(symbols)[s := Recounted(Started(EntryOf(old(symbols), s), batch, r), calendar)]
    {
      hide FreshCounts, Recounted;
      var entry := EntryOf(symbols, s);
      if r !in entry.requestedRanges {
        entry := entry.(requestedRanges := entry.requestedRanges + [r]);
      }
      if r !in entry.missingRanges {
        entry := entry.(missingRanges := entry.missingRanges + [r]);
      }
      entry := entry.(activeBatches := entry.activeBatches + {batch}, active := true);
      var key := StreamKey(batch, 0, r);
      if key !in entry.rowsByStream {
        entry := entry.(rowsByStream := entry.rowsByStream[key := 0]);
      }
      assert entry == Started(EntryOf(symbols, s), batch, r) by {
        assert entry.rowsByStream == Started(EntryOf(symbols, s), batch, r).rowsByStream;
      }
      hide Started;
      symbols := symbols[s := entry];
      RecalculateHistorySymbolDays(s);
    }

    method ApplyTelemetry(batch: nat, r: Range, s: Symbol, rows: nat, cursor: Option<int>)
      modifies this
      ensures Ledger() == Apply(old(Ledger()), Telemetry(batch, r, s, rows, cursor))
    {
      hide Streamed, FreshCounts;
      historyFill := true;
      batchStarted := true;
      StreamSymbol(s, batch, r, rows, cursor);
    }

    method StreamSymbol(s: Symbol, batch: nat, r: Range, rows: nat, cursor: Option<int>)
      modifies this`symbols
      ensures symbols ==
        old(symbols)[s := Recounted(Streamed(EntryOf(old(symbols), s), batch, r, rows, cursor), calendar)]
    {
      hide FreshCounts;
      var entry := ObserveStream(EntryOf(symbols, s), batch, r, rows, cursor);
      symbols := symbols[s := entry];
      RecalculateHistorySymbolDays(s);
    }

    method ApplyBatchFinished(batch: nat, r: Range, listed: seq<Symbol>, rowsWritten: nat)
      modifies this
      ensures Ledger() == Apply(old(Ledger()), BatchFinished(batch, r, listed, rowsWritten))
    {
      hide FreshCounts, CompletedSymbols, WithSingleRows, ListedRows;
      historyFill := true;
      batchStarted := true;
      var streamedRows := SumListedRows(listed, batch);
      var completedRows := Max(rowsWritten, streamedRows);
      completedBatches := completedBatches + {batch};
      rowsByBatch := rowsByBatch[batch :=
        if batch in rowsByBatch then Max(rowsByBatch[batch], completedRows) else completedRows];
      CompleteSymbols(listed, batch, r);
      RecordSingleRows(listed, StreamKey(batch, 0, r), completedRows);
    }

    method RecordSingleRows(listed: seq<Symbol>, key: StreamKey, rows: nat)
      modifies this`symbols
      ensures symbols == WithSingleRows(old(symbols), listed, key, rows)
    {
      if |listed| == 1 && listed[0] in symbols {
        symbols := symbols[listed[0] := WithRows(symbols[listed[0]], key, rows)];
      }
    }

    method SumListedRows(listed: seq<Symbol>, batch: nat) returns (streamedRows: nat)
      ensures streamedRows == ListedRows(symbols, listed, batch)
    {
      streamedRows := 0;
      for i := 0 to |listed|
        invariant streamedRows == ListedRows(symbols, listed[..i], batch)
      {
        assert listed[..i + 1][..i] == listed[..i];
        if listed[i] in symbols {
          var rows := SumValues(BatchStreams(symbols[listed[i]], batch));
          streamedRows := streamedRows + rows;
        }
      }
      assert listed[..|listed|] == listed;
    }

    method CompleteSymbols(listed: seq<Symbol>, batch: nat, r: Range)
      modifies this`symbols
      ensures symbols == CompletedSymbols(old(symbols), Elements(listed), batch, r, calendar)
    {
      hide FreshCounts;
      assert CompletedSymbols(symbols, {}, batch, r, calendar) == symbols;
      for i := 0 to |listed|
        invariant symbols == CompletedSymbols(old(symbols), Elements(listed[..i]), batch, r, calendar)
      {
        CompletedStep(old(symbols), Elements(listed[..i]), listed[i], batch, r, calendar);
        assert Elements(listed[..i + 1]) == Elements(listed[..i]) + {listed[i]};
        CompleteSymbol(listed[i], batch, r);
      }
      assert listed[..|listed|] == listed;
    }

    method CompleteSymbol(s: Symbol, batch: nat, r: Range)
      modifies this`symbols
      ensures symbols == if s in old(symbols)
        then old(symbols)[s := Recounted(Completed(old(symbols)[s], batch, r), calendar)]
        else old(symbols)
    {
      hide FreshCounts;
      if s in symbols {
        var entry := symbols[s];
        var open := entry.activeBatches - {batch};
        entry := entry.(activeBatches := open, streamedRanges := entry.streamedRanges - {BatchRange(batch, r)});
        entry := entry.(active := open != {});
        entry := entry.(daySets := entry.daySets.(received := entry.daySets.received + entry.daySets.missing));
        if r !in entry.receivedRanges {
          entry := entry.(receivedRanges := entry.receivedRanges + [r]);
        }
        symbols := symbols[s := entry];
      }
      RecalculateHistorySymbolDays(s);
    }

    method ApplyBatchFailed(batch: nat, r: Range, listed: seq<Symbol>, message: string)
      modifies this
      ensures Ledger() == Apply(old(Ledger()), BatchFailed(batch, r, listed, message))
    {
      hide FreshCounts;
      historyFill := true;
      batchStarted := true;
      failed := true;
      assert FailedSymbols(symbols, {}, batch, r, message, calendar) == symbols;
      for i := 0 to |listed|
        invariant symbols == FailedSymbols(old(symbols), Elements(listed[..i]), batch, r, message, calendar)
        invariant Ledger() ==
          old(Ledger()).(historyFill := true, batchStarted := true, failed := true, symbols := symbols)
      {
        FailedStep(old(symbols), Elements(listed[..i]), listed[i], batch, r, message, calendar);
        assert Elements(listed[..i + 1]) == Elements(listed[..i]) + {listed[i]};
        FailSymbol(listed[i], batch, r, message);
      }
      assert listed[..|listed|] == listed;
    }

    method FailSymbol(s: Symbol, batch: nat, r: Range, message: string)
      modifies this`symbols
      ensures symbols == if s in old(symbols)
        then old(symbols)[s := Recounted(Failed(old(symbols)[s], batch, r, message), calendar)]
        else old(symbols)
    {
      hide FreshCounts;
      if s in symbols {
        var entry := symbols[s];
        var open := entry.activeBatches - {batch};
        entry := entry.(activeBatches := open, streamedRanges := entry.streamedRanges - {BatchRange(batch, r)});
        entry := entry.(active := open != {}, error := Some(message));
        symbols := symbols[s := entry];
      }
      RecalculateHistorySymbolDays(s);
    }

    method ApplyFinished()
      modifies this
      ensures Ledger() == Apply(old(Ledger()), Finished)
    {
      historyFill := true;
    }

    /** Totals over all symbols, as shown to the user. */
    method CoverageCounts() returns (counts: DayCounts, rows: nat)
      ensures counts == TotalCounts(Displayed(symbols, historyFill))
      ensures historyFill ==> counts == TotalCounts(symbols)
      ensures rows == MapSum(rowsByBatch)
                      + MapSum(OpenRowsBySymbol(symbols, if historyFill then completedBatches else {}))
      ensures historyFill ==> rows == TotalRows(Ledger())
    {
      hide TotalCounts, OpenRowsBySymbol, Shown, ShownCounts, Displayed;
      counts := DayCounts(0, 0, 0, 0, 0);
      rows := SumValues(rowsByBatch);
      var finished := if historyFill then completedBatches else {};
      ghost var seen: map<Symbol, SymbolProgress> := map[];
      var rest := symbols.Keys;
      TotalsOfNone(finished);
      DisplayedNone(historyFill);
      while rest != {}
        invariant rest <= symbols.Keys
        invariant seen == map s | s in symbols && s !in rest :: symbols[s]
        invariant counts == TotalCounts(Displayed(seen, historyFill))
        invariant rows == MapSum(rowsByBatch) + MapSum(OpenRowsBySymbol(seen, finished))
        decreases rest
      {
        var s :| s in rest;
        rest := rest - {s};
        DisplayedAdd(seen, s, symbols[s], historyFill);
        OpenRowsAdd(seen, s, symbols[s], finished);
        var c := ShownCounts(symbols[s], historyFill);
        counts := AddCounts(counts, c);
        var open := SumValues(OpenStreams(symbols[s], finished));
        rows := rows + open;
        seen := seen[s := symbols[s]];
      }
      assert seen == symbols;
      DisplayedInHistory(symbols);
    }
  }

  /** Telemetry on one symbol: opens the batch, raises its rows and its completed prefix. */
  method ObserveStream(e: SymbolProgress, batch: nat, r: Range, rows: nat, cursor: Option<int>)
      returns (entry: SymbolProgress)
    ensures entry == Streamed(e, batch, r, rows, cursor)
    ensures entry.activeBatches == e.activeBatches + {batch}
    ensures forall k :: k in e.rowsByStream ==> k in entry.rowsByStream && entry.rowsByStream[k] >= e.rowsByStream[k]
    ensures forall k :: k in e.streamedRanges ==>
      k in entry.streamedRanges && entry.streamedRanges[k] >= e.streamedRanges[k]
    ensures StreamKey(batch, 0, r) in entry.rowsByStream && entry.rowsByStream[StreamKey(batch, 0, r)] >= rows
  {
    entry := WithRows(e.(activeBatches := e.activeBatches + {batch}, active := true), StreamKey(batch, 0, r), rows);
    if cursor.Some? {
      var completed := CompletedHistoryRange(r, cursor.value);
      if completed.Some? {
        var key, end := BatchRange(batch, r), completed.value.1;
        if key in entry.streamedRanges {
          end := Max(entry.streamedRanges[key], end);
        }
        entry := entry.(streamedRanges := entry.streamedRanges[key := end]);
      }
    }
  }

  /** The day sets of one symbol outside a history fill. */
  method ListDays(e: SymbolProgress, calendar: Calendar) returns (entry: SymbolProgress)
    ensures entry == Relisted(e, calendar)
  {
    var planned := DaysForRanges(e.requestedRanges, calendar);
    var missing := DaysForRanges(e.missingRanges, calendar);
    entry := e.(daySets := DaySets(planned, missing, planned - missing, e.daySets.received * missing));
  }

  method StreamedPrefixList(streamed: map<BatchRange, int>) returns (prefixes: seq<Range>)
    ensures Elements(prefixes) == set k | k in streamed :: (k.range.0, streamed[k])
  {
    prefixes := [];
    var rest := streamed.Keys;
    while rest != {}
      invariant rest <= streamed.Keys
      invariant forall k :: k in streamed && k !in rest ==> (k.range.0, streamed[k]) in prefixes
      invariant forall x :: x in prefixes ==> exists k :: k in streamed && x == (k.range.0, streamed[k])
      decreases rest
    {
      var k :| k in rest;
      rest := rest - {k};
      prefixes := prefixes + [(k.range.0, streamed[k])];
    }
  }

  method CheckpointList(durability: map<Range, Durability>) returns (checkpoints: seq<Range>)
    ensures Elements(checkpoints)
         == set k | k in durability && Checkpoint(durability[k]).Some? :: Checkpoint(durability[k]).value
  {
    checkpoints := [];
    var rest := durability.Keys;
    while rest != {}
      invariant rest <= durability.Keys
      invariant forall k :: k in durability && k !in rest && Checkpoint(durability[k]).Some? ==>
        Checkpoint(durability[k]).value in checkpoints
      invariant forall x :: x in checkpoints ==> exists k :: k in durability && Checkpoint(durability[k]) == Some(x)
      decreases rest
    {
      var k :| k in rest;
      rest := rest - {k};
      var c := Checkpoint(durability[k]);
      if c.Some? {
        checkpoints := checkpoints + [c.value];
      }
    }
  }

  ghost function CoveredOf(e: SymbolProgress): nat { Shown(e).covered }
  ghost function PlannedOf(e: SymbolProgress): nat { Shown(e).planned }
  ghost function MissingOf(e: SymbolProgress): nat { Shown(e).missing }
  ghost function ReceivedOf(e: SymbolProgress): nat { Shown(e).received }
  ghost function CheckpointedOf(e: SymbolProgress): nat { Shown(e).checkpointed }

  /** Sum of one count over all symbols. */
  ghost function Summed(m: map<Symbol, SymbolProgress>, count: SymbolProgress -> nat): nat {
    MapSum(PerSymbol(m, count))
  }

  ghost function PerSymbol(m: map<Symbol, SymbolProgress>, count: SymbolProgress -> nat): map<Symbol, nat> {
    map s | s in m :: count(m[s])
  }

  ghost function TotalCounts(m: map<Symbol, SymbolProgress>): DayCounts {
    DayCounts(Summed(m, CoveredOf), Summed(m, PlannedOf), Summed(m, MissingOf), Summed(m, ReceivedOf),
              Summed(m, CheckpointedOf))
  }

  lemma SummedAdd(m: map<Symbol, SymbolProgress>, s: Symbol, e: SymbolProgress, count: SymbolProgress -> nat)
    requires s !in m
    ensures Summed(m[s := e], count) == Summed(m, count) + count(e)
  {
    MapSumUpdate(PerSymbol(m, count), s, count(e));
    assert PerSymbol(m[s := e], count) == PerSymbol(m, count)[s := count(e)];
  }

  lemma TotalsOfNone(completed: set<nat>)
    ensures TotalCounts(map[]) == DayCounts(0, 0, 0, 0, 0)
    ensures MapSum(OpenRowsBySymbol(map[], completed)) == 0
  {
    MapSumZero(PerSymbol(map[], CoveredOf));
    MapSumZero(PerSymbol(map[], PlannedOf));
    MapSumZero(PerSymbol(map[], MissingOf));
    MapSumZero(PerSymbol(map[], ReceivedOf));
    MapSumZero(PerSymbol(map[], CheckpointedOf));
    MapSumZero(OpenRowsBySymbol(map[], completed));
  }

  lemma OpenRowsAdd(m: map<Symbol, SymbolProgress>, s: Symbol, e: SymbolProgress, completed: set<nat>)
    requires s !in m
    ensures MapSum(OpenRowsBySymbol(m[s := e], completed))
         == MapSum(OpenRowsBySymbol(m, completed)) + OpenRows(e, completed)
  {
    MapSumUpdate(OpenRowsBySymbol(m, completed), s, OpenRows(e, completed));
    assert OpenRowsBySymbol(m[s := e], completed) == OpenRowsBySymbol(m, completed)[s := OpenRows(e, completed)];
  }

  function AddCounts(a: DayCounts, b: DayCounts): DayCounts {
    DayCounts(a.covered + b.covered, a.planned + b.planned, a.missing + b.missing,
              a.received + b.received, a.checkpointed + b.checkpointed)
  }

  lemma TotalsAdd(m: map<Symbol, SymbolProgress>, s: Symbol, e: SymbolProgress)
    requires s !in m
    ensures TotalCounts(m[s := e]) == AddCounts(TotalCounts(m), Shown(e))
  {
    SummedAdd(m, s, e, CoveredOf);
    SummedAdd(m, s, e, PlannedOf);
    SummedAdd(m, s, e, MissingOf);
    SummedAdd(m, s, e, ReceivedOf);
    SummedAdd(m, s, e, CheckpointedOf);
  }

  /** Each total is the sum of that count over the symbols. */
  lemma TotalsAreSums(m: map<Symbol, SymbolProgress>)
    ensures TotalCounts(m).covered == MapSum(map s | s in m :: Shown(m[s]).covered)
    ensures TotalCounts(m).planned == MapSum(map s | s in m :: Shown(m[s]).planned)
    ensures TotalCounts(m).missing == MapSum(map s | s in m :: Shown(m[s]).missing)
    ensures TotalCounts(m).received == MapSum(map s | s in m :: Shown(m[s]).received)
    ensures TotalCounts(m).checkpointed == MapSum(map s | s in m :: Shown(m[s]).checkpointed)
  {
    hide Summed, MapSum, Shown;
    SummedIs(m, CoveredOf, map s | s in m :: Shown(m[s]).covered);
    SummedIs(m, PlannedOf, map s | s in m :: Shown(m[s]).planned);
    SummedIs(m, MissingOf, map s | s in m :: Shown(m[s]).missing);
    SummedIs(m, ReceivedOf, map s | s in m :: Shown(m[s]).received);
    SummedIs(m, CheckpointedOf, map s | s in m :: Shown(m[s]).checkpointed);
  }

  lemma SummedIs(m: map<Symbol, SymbolProgress>, count: SymbolProgress -> nat, counts: map<Symbol, nat>)
    requires counts.Keys == m.Keys && forall s :: s in m ==> counts[s] == count(m[s])
    ensures Summed(m, count) == MapSum(counts)
  {
    hide MapSum;
    assert PerSymbol(m, count) == counts;
  }

  // ---- what is displayed before and during a history fill ----

  /** The counts of one symbol: the cached ones in a history fill, else the sizes of its day sets. */
  function ShownCounts(e: SymbolProgress, historyFill: bool): DayCounts {
    if historyFill then Shown(e)
    else DayCounts(|e.daySets.covered|, |e.daySets.planned|, |e.daySets.missing|, |e.daySets.received|, 0)
  }

  ghost function Displayed(m: map<Symbol, SymbolProgress>, historyFill: bool): map<Symbol, SymbolProgress> {
    map s | s in m :: m[s].(dayCounts := Some(ShownCounts(m[s], historyFill)))
  }

  lemma DisplayedNone(historyFill: bool)
    ensures Displayed(map[], historyFill) == map[]
  {
  }

  lemma DisplayedAdd(m: map<Symbol, SymbolProgress>, s: Symbol, e: SymbolProgress, historyFill: bool)
    requires s !in m
    ensures TotalCounts(Displayed(m[s := e], historyFill))
         == AddCounts(TotalCounts(Displayed(m, historyFill)), ShownCounts(e, historyFill))
  {
    hide TotalCounts, ShownCounts;
    var shown := e.(dayCounts := Some(ShownCounts(e, historyFill)));
    assert Displayed(m[s := e], historyFill) == Displayed(m, historyFill)[s := shown];
    TotalsAdd(Displayed(m, historyFill), s, shown);
  }

  lemma DisplayedInHistory(m: map<Symbol, SymbolProgress>)
    ensures TotalCounts(Displayed(m, true)) == TotalCounts(m)
  {
    hide Summed;
    SameSums(m, Displayed(m, true), CoveredOf);
    SameSums(m, Displayed(m, true), PlannedOf);
    SameSums(m, Displayed(m, true), MissingOf);
    SameSums(m, Displayed(m, true), ReceivedOf);
    SameSums(m, Displayed(m, true), CheckpointedOf);
  }

  lemma SameSums(m: map<Symbol, SymbolProgress>, n: map<Symbol, SymbolProgress>, count: SymbolProgress -> nat)
    requires m.Keys == n.Keys && forall s :: s in m ==> count(m[s]) == count(n[s])
    ensures Summed(m, count) == Summed(n, count)
  {
    hide MapSum;
    assert PerSymbol(m, count) == PerSymbol(n, count);
  }
}
