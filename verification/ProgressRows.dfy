/** The displayed row total of a history fill along whole runs. */
module ProgressRows {
  import opened Wrappers
  import opened Ranges
  import opened DayCounting
  import opened Lists
  import opened Sums
  import opened Extremes
  import opened ProgressSpec
  import opened ProgressRuns

  ghost function StreamRowsBySymbol(m: map<Symbol, SymbolProgress>, batch: nat): map<Symbol, nat> {
    map s | s in m :: BatchRows(m[s], batch)
  }

  /** Rows streamed for a batch by all symbols together. */
  ghost function StreamRows(m: map<Symbol, SymbolProgress>, batch: nat): nat {
    MapSum(StreamRowsBySymbol(m, batch))
  }

  /** A batch has a recorded row count exactly when it is completed. */
  ghost predicate BatchesRecorded(st: State) {
    st.rowsByBatch.Keys == st.completedBatches
  }

  /** Completing a batch takes exactly its streams out of a symbol's open rows. */
  lemma OpenRowsSplit(e: SymbolProgress, completed: set<nat>, batch: nat)
    requires batch !in completed
    ensures OpenRows(e, completed) == OpenRows(e, completed + {batch}) + BatchRows(e, batch)
  {
    var a, b := OpenStreams(e, completed + {batch}), BatchStreams(e, batch);
    MapSumDisjoint(a, b);
    assert OpenStreams(e, completed) == a + b;
  }

  lemma OpenRowsGrow(e: SymbolProgress, key: StreamKey, rows: nat, completed: set<nat>)
    ensures OpenRows(WithRows(e, key, rows), completed) >= OpenRows(e, completed)
    ensures key.batch in completed ==> OpenRows(WithRows(e, key, rows), completed) == OpenRows(e, completed)
  {
    var a, b := OpenStreams(e, completed), OpenStreams(WithRows(e, key, rows), completed);
    MapSumMonotone(a, b);
    if key.batch in completed {
      assert a == b;
    }
  }

  lemma SameStreamsSameRows(e: SymbolProgress, f: SymbolProgress, completed: set<nat>)
    requires e.rowsByStream == f.rowsByStream
    ensures OpenRows(e, completed) == OpenRows(f, completed)
  {
    assert OpenStreams(e, completed) == OpenStreams(f, completed);
  }

  lemma {:induction false} ScopedSymbolsKeepRows(m: map<Symbol, SymbolProgress>, scopes: seq<(Symbol, Range)>,
                                                 s: Symbol)
    requires s in m
    ensures s in ScopedSymbols(m, scopes) && ScopedSymbols(m, scopes)[s].rowsByStream == m[s].rowsByStream
  {
    if scopes != [] {
      ScopedSymbolsKeepRows(m, scopes[..|scopes| - 1], s);
    }
  }

  /** No event but a finish can lower a symbol's open rows. */
  lemma SymbolRowsGrow(st: State, ev: Event, s: Symbol)
    requires !ev.BatchFinished? && s in st.symbols
    ensures s in Apply(st, ev).symbols
    ensures OpenRows(Apply(st, ev).symbols[s], st.completedBatches) >= OpenRows(st.symbols[s], st.completedBatches)
  {
    hide FreshCounts, WithRows, CompletedHistoryRange, OpenRows, Days, ScopedSymbols;
    var e, after, completed := st.symbols[s], Apply(st, ev), st.completedBatches;
    match ev
    case SetScopes(scopes) =>
      ScopedSymbolsKeepRows(st.symbols, scopes, s);
      SameStreamsSameRows(e, after.symbols[s], completed);
    case BatchStarted(b, _, r, symbols) =>
      StartedRows(e, b, r, completed);
      SameStreamsSameRows(Started(e, b, r), Recounted(Started(e, b, r), st.calendar), completed);
    case Telemetry(b, r, t, rows, cursor) =>
      StreamedRows(e, b, r, rows, cursor, completed);
      SameStreamsSameRows(Streamed(e, b, r, rows, cursor), Recounted(Streamed(e, b, r, rows, cursor), st.calendar),
        completed);
    case CalendarReady(_) => SameStreamsSameRows(e, after.symbols[s], completed);
    case DurabilityReport(_, _) => SameStreamsSameRows(e, after.symbols[s], completed);
    case Planning(_) => SameStreamsSameRows(e, after.symbols[s], completed);
    case BatchFailed(_, _, _, _) => SameStreamsSameRows(e, after.symbols[s], completed);
    case Finished =>
  }

  lemma StartedRows(e: SymbolProgress, b: nat, r: Range, completed: set<nat>)
    ensures OpenRows(Started(e, b, r), completed) >= OpenRows(e, completed)
  {
    hide OpenRows, WithRows;
    var scoped := Scoped(e, r).(activeBatches := e.activeBatches + {b}, active := true);
    SameStreamsSameRows(e, scoped, completed);
    OpenRowsGrow(scoped, StreamKey(b, 0, r), 0, completed);
  }

  lemma StreamedRows(e: SymbolProgress, b: nat, r: Range, rows: nat, cursor: Option<int>, completed: set<nat>)
    ensures OpenRows(Streamed(e, b, r, rows, cursor), completed) >= OpenRows(e, completed)
  {
    hide OpenRows, WithRows, CompletedHistoryRange;
    var joined := e.(activeBatches := e.activeBatches + {b}, active := true);
    var counted := WithRows(joined, StreamKey(b, 0, r), rows);
    SameStreamsSameRows(e, joined, completed);
    OpenRowsGrow(joined, StreamKey(b, 0, r), rows, completed);
    SameStreamsSameRows(counted, Streamed(e, b, r, rows, cursor), completed);
  }

  lemma StepKeepsBatchesRecorded(st: State, ev: Event)
    requires BatchesRecorded(st)
    ensures BatchesRecorded(Apply(st, ev))
  {
    hide FreshCounts, FinishRows, CompletedSymbols, FailedSymbols, StartedSymbols;
  }

  lemma OtherEventsKeepRows(st: State, ev: Event)
    requires !ev.BatchFinished?
    ensures TotalRows(Apply(st, ev)) >= TotalRows(st)
  {
    hide OpenRows, FreshCounts;
    var after, completed := Apply(st, ev), st.completedBatches;
    assert after.completedBatches == completed && after.rowsByBatch == st.rowsByBatch;
    forall s | s in st.symbols
      ensures s in after.symbols && OpenRows(after.symbols[s], completed) >= OpenRows(st.symbols[s], completed)
    {
      SymbolRowsGrow(st, ev, s);
    }
    MapSumMonotone(OpenRowsBySymbol(st.symbols, completed), OpenRowsBySymbol(after.symbols, completed));
  }

  lemma FinishedSymbolRows(st: State, ev: Event, s: Symbol)
    requires ev.BatchFinished? && s in st.symbols
    ensures s in Apply(st, ev).symbols
    ensures OpenRows(Apply(st, ev).symbols[s], st.completedBatches + {ev.batch})
         == OpenRows(st.symbols[s], st.completedBatches + {ev.batch})
  {
    hide FreshCounts, FinishRows, WithRows, OpenRows;
    var completed := st.completedBatches + {ev.batch};
    var done := CompletedSymbols(st.symbols, Elements(ev.symbols), ev.batch, ev.range, st.calendar)[s];
    SameStreamsSameRows(st.symbols[s], done, completed);
    OpenRowsGrow(done, StreamKey(ev.batch, 0, ev.range), FinishRows(st, ev.batch, ev.symbols, ev.rowsWritten),
      completed);
  }

  /** What a finish adds to the row total: for a batch finished again, what the new count exceeds the
      recorded one by; otherwise the batch's count, from which everything it streamed is taken out. */
  ghost function FinishGain(st: State, ev: Event): int
    requires ev.BatchFinished?
  {
    var rows := FinishRows(st, ev.batch, ev.symbols, ev.rowsWritten);
    if ev.batch in st.rowsByBatch then Max(st.rowsByBatch[ev.batch], rows) - st.rowsByBatch[ev.batch]
    else rows - StreamRows(st.symbols, ev.batch)
  }

  lemma FinishChangesRowsBy(st: State, ev: Event)
    requires ev.BatchFinished? && BatchesRecorded(st)
    ensures TotalRows(Apply(st, ev)) == TotalRows(st) + FinishGain(st, ev)
  {
    hide OpenRows, FinishRows, CompletedSymbols, BatchRows, WithRows;
    var after, b, completed := Apply(st, ev), ev.batch, st.completedBatches;
    var rows := FinishRows(st, b, ev.symbols, ev.rowsWritten);
    MapSumUpdate(st.rowsByBatch, b, after.rowsByBatch[b]);
    var was, now := OpenRowsBySymbol(st.symbols, completed), OpenRowsBySymbol(after.symbols, completed + {b});
    forall s | s in st.symbols
      ensures s in after.symbols
           && OpenRows(after.symbols[s], completed + {b}) == OpenRows(st.symbols[s], completed + {b})
    {
      FinishedSymbolRows(st, ev, s);
    }
    FinishKeepsKeys(st, ev);
    if b in completed {
      assert completed + {b} == completed;
      assert now == was;
    } else {
      forall s | s in st.symbols
        ensures OpenRows(st.symbols[s], completed)
           == OpenRows(st.symbols[s], completed + {b}) + BatchRows(st.symbols[s], b)
      {
        OpenRowsSplit(st.symbols[s], completed, b);
      }
      MapSumAdds(now, StreamRowsBySymbol(st.symbols, b), was);
    }
  }

  lemma FinishKeepsKeys(st: State, ev: Event)
    requires ev.BatchFinished?
    ensures Apply(st, ev).symbols.Keys == st.symbols.Keys
  {
    hide FreshCounts, FinishRows;
  }

  /** Every symbol that streamed rows for the finished batch is listed by the finish. */
  ghost predicate ListsEveryStream(st: State, ev: Event) {
    ev.BatchFinished? && ev.batch !in st.completedBatches ==>
      forall s :: s in st.symbols && BatchRows(st.symbols[s], ev.batch) > 0 ==> s in ev.symbols
  }

  ghost function ListedPart(m: map<Symbol, SymbolProgress>, listed: seq<Symbol>, batch: nat): map<Symbol, nat> {
    map s | s in m :: if s in listed then BatchRows(m[s], batch) else 0
  }

  lemma {:induction false} ListedRowsCoverListed(m: map<Symbol, SymbolProgress>, listed: seq<Symbol>, batch: nat)
    ensures MapSum(ListedPart(m, listed, batch)) <= ListedRows(m, listed, batch)
  {
    hide BatchRows;
    if listed == [] {
      MapSumZero(ListedPart(m, listed, batch));
    } else {
      var init, last := listed[..|listed| - 1], listed[|listed| - 1];
      ListedRowsCoverListed(m, init, batch);
      var part := ListedPart(m, init, batch);
      assert listed == init + [last];
      if last in m {
        var grown := part[last := BatchRows(m[last], batch)];
        MapSumUpdate(part, last, BatchRows(m[last], batch));
        assert ListedPart(m, listed, batch) == grown;
      } else {
        assert ListedPart(m, listed, batch) == part;
      }
    }
  }

  lemma ListedRowsCoverStreams(st: State, ev: Event)
    requires ev.BatchFinished? && ListsEveryStream(st, ev) && ev.batch !in st.completedBatches
    ensures StreamRows(st.symbols, ev.batch) <= ListedRows(st.symbols, ev.symbols, ev.batch)
  {
    hide BatchRows;
    ListedRowsCoverListed(st.symbols, ev.symbols, ev.batch);
    MapSumMonotone(StreamRowsBySymbol(st.symbols, ev.batch), ListedPart(st.symbols, ev.symbols, ev.batch));
  }

  /** A finish lowers the row total exactly when it closes a batch whose streams, summed over all
      symbols, exceed both the rows it wrote and the rows its listed symbols streamed. */
  lemma FinishLowersRowsIff(st: State, ev: Event)
    requires ev.BatchFinished? && BatchesRecorded(st)
    ensures TotalRows(Apply(st, ev)) < TotalRows(st)
       <==> && ev.batch !in st.completedBatches
            && StreamRows(st.symbols, ev.batch) > ev.rowsWritten
            && StreamRows(st.symbols, ev.batch) > ListedRows(st.symbols, ev.symbols, ev.batch)
  {
    hide TotalRows, StreamRows, ListedRows, Apply;
    FinishChangesRowsBy(st, ev);
  }

  /** Such runs exist, well-formed ones among them: a batch streams more rows than its finish writes, and
      the finish leaves its symbol out. */
  lemma FinishCanLowerRows(b: nat, total: nat, r: Range, s: Symbol, rows: nat, written: nat)
    requires written < rows
    ensures var start, stream := BatchStarted(b, total, r, [s]), Telemetry(b, r, s, rows, None);
            var finish := BatchFinished(b, r, [], written);
            && WellFormed([start, stream, finish])
            && TotalRows(Run(INITIAL, [start, stream, finish])) < TotalRows(Run(INITIAL, [start, stream]))
  {
    hide TotalRows, BatchesRecorded, Apply, WellFormed, Admissible, BookAfter, StreamRows;
    var start, stream := BatchStarted(b, total, r, [s]), Telemetry(b, r, s, rows, None);
    var finish := BatchFinished(b, r, [], written);
    var before := Run(INITIAL, [start, stream]);
    RunKeepsBatchesRecorded([start, stream]);
    RunStep(INITIAL, [start, stream], finish);
    assert [start, stream] + [finish] == [start, stream, finish];
    StartAndStreamAreWellFormed(start, stream, finish);
    StreamedOnly(start, stream);
    FinishLowersRowsIff(before, finish);
  }

  lemma StartAndStreamAreWellFormed(start: Event, stream: Event, finish: Event)
    requires start.BatchStarted? && stream.Telemetry? && finish.BatchFinished? && finish.symbols == []
    requires start.batch == stream.batch && start.range == stream.range && stream.symbol in start.symbols
    ensures WellFormed([start, stream, finish])
  {
    var one, two, three := [start], [start, stream], [start, stream, finish];
    assert one[..0] == [] && two[..1] == one && three[..2] == two;
    assert OpenBatches(one[..0]) == map[] && WellFormed(one[..0]) && Admissible(map[], start);
    assert WellFormed(one);
    assert OpenBatches(one) == BookAfter(OpenBatches(one[..0]), start);
    assert WellFormed(two);
  }

  lemma StreamedOnly(start: Event, stream: Event)
    requires start.BatchStarted? && stream.Telemetry? && start.symbols == [stream.symbol] && stream.cursor.None?
    requires start.batch == stream.batch && start.range == stream.range
    ensures var st := Run(INITIAL, [start, stream]);
            st.completedBatches == {} && StreamRows(st.symbols, start.batch) == stream.rows
  {
    hide MapSum, Apply;
    var s, key := stream.symbol, StreamKey(start.batch, 0, start.range);
    RunStep(INITIAL, [], start);
    RunStep(INITIAL, [start], stream);
    assert [] + [start] == [start] && [start] + [stream] == [start, stream];
    StartOnly(start, s);
    StreamAdds(Apply(INITIAL, start), stream, key);
    var e := Run(INITIAL, [start, stream]).symbols[s];
    assert BatchStreams(e, start.batch) == map[key := stream.rows];
    MapSumZero<StreamKey>(map[]);
    MapSumUpdate(map[], key, stream.rows);
    assert StreamRowsBySymbol(Run(INITIAL, [start, stream]).symbols, start.batch) == map[s := stream.rows];
    MapSumZero<Symbol>(map[]);
    MapSumUpdate(map[], s, stream.rows);
  }

  lemma StartOnly(start: Event, s: Symbol)
    requires start.BatchStarted? && start.symbols == [s]
    ensures var st := Apply(INITIAL, start);
            && st.completedBatches == {} && st.symbols.Keys == {s}
            && st.symbols[s].rowsByStream == map[StreamKey(start.batch, 0, start.range) := 0]
  {
    hide FreshCounts;
    assert Elements([s]) == {s};
  }

  lemma StreamAdds(st: State, stream: Event, key: StreamKey)
    requires stream.Telemetry? && stream.cursor.None? && st.symbols.Keys == {stream.symbol}
    requires key == StreamKey(stream.batch, 0, stream.range)
    requires st.symbols[stream.symbol].rowsByStream == map[key := 0]
    ensures var after := Apply(st, stream);
            && after.completedBatches == st.completedBatches && after.symbols.Keys == {stream.symbol}
            && after.symbols[stream.symbol].rowsByStream == map[key := stream.rows]
  {
    hide FreshCounts;
  }

  /** A run in which every finish lists the symbols that streamed for its batch. */
  ghost predicate FinishesListStreams(st: State, events: seq<Event>) {
    events == [] ||
    (FinishesListStreams(st, events[..|events| - 1])
     && ListsEveryStream(Run(st, events[..|events| - 1]), events[|events| - 1]))
  }

  lemma {:induction false} RunKeepsBatchesRecorded(events: seq<Event>)
    ensures BatchesRecorded(Run(INITIAL, events))
  {
    hide Apply;
    if events != [] {
      RunKeepsBatchesRecorded(events[..|events| - 1]);
      StepKeepsBatchesRecorded(Run(INITIAL, events[..|events| - 1]), events[|events| - 1]);
    }
  }

  /** The row total never decreases from any prefix of such a run to the whole run. */
  lemma {:induction false} RowsNeverDecrease(events: seq<Event>, k: nat)
    requires k <= |events| && FinishesListStreams(INITIAL, events)
    ensures TotalRows(Run(INITIAL, events[..k])) <= TotalRows(Run(INITIAL, events))
  {
    hide TotalRows, Apply, ListsEveryStream;
    if k == |events| {
      assert events[..k] == events;
    } else {
      var init, last := events[..|events| - 1], events[|events| - 1];
      RowsNeverDecrease(init, k);
      assert init[..k] == events[..k];
      RunKeepsBatchesRecorded(init);
      StepKeepsRows(Run(INITIAL, init), last);
    }
  }

  lemma StepKeepsRows(st: State, ev: Event)
    requires BatchesRecorded(st) && ListsEveryStream(st, ev)
    ensures TotalRows(st) <= TotalRows(Apply(st, ev))
  {
    hide TotalRows, StreamRows, ListedRows, Apply, ListsEveryStream;
    if ev.BatchFinished? {
      FinishLowersRowsIff(st, ev);
      if ev.batch !in st.completedBatches {
        ListedRowsCoverStreams(st, ev);
      }
    } else {
      OtherEventsKeepRows(st, ev);
    }
  }
}
