/** The row counts of the ledger, told by the events of the run alone. */
module ProgressReports {
  import opened Ranges
  import opened DayCounting
  import opened Lists
  import opened Sums
  import opened ProgressSpec
  import opened ProgressRows
  import opened ProgressBatches
  import opened ProgressHistory

  // ---- the rows of a stream ----

  /** The event reports rows on the stream of this batch and range. */
  predicate IsRowReport(ev: Event, s: Symbol, batch: nat, r: Range) {
    ev.Telemetry? && ev.batch == batch && ev.range == r && ev.symbol == s
  }

  predicate OpensStream(ev: Event, s: Symbol, batch: nat, r: Range) {
    ev.BatchStarted? && ev.batch == batch && ev.range == r && s in ev.symbols
  }

  lemma RowsStep(st: State, ev: Event, s: Symbol, batch: nat, r: Range)
    requires !FinishesBatch(ev, batch)
    ensures var key := StreamKey(batch, 0, r);
            var e, after := EntryOf(st.symbols, s).rowsByStream, EntryOf(Apply(st, ev).symbols, s).rowsByStream;
            && (key in after <==> key in e || IsRowReport(ev, s, batch, r) || OpensStream(ev, s, batch, r))
            && (key in after ==>
                  var was := if key in e then e[key] else 0;
                  after[key] == if IsRowReport(ev, s, batch, r) && ev.rows > was then ev.rows else was)
  {
    hide Apply;
    match ev
    case SetScopes(scopes) => QuietRowsStep(st, ev, s);
    case CalendarReady(_) => QuietRowsStep(st, ev, s);
    case DurabilityReport(_, _) => QuietRowsStep(st, ev, s);
    case Planning(_) => QuietRowsStep(st, ev, s);
    case BatchFailed(_, _, _, _) => QuietRowsStep(st, ev, s);
    case Finished => QuietRowsStep(st, ev, s);
    case BatchStarted(_, _, _, _) => StartRowsStep(st, ev, s);
    case Telemetry(_, _, _, _, _) => StreamRowsStep(st, ev, s);
    case BatchFinished(_, _, _, _) => FinishRowsStep(st, ev, s, StreamKey(batch, 0, r));
  }

  lemma QuietRowsStep(st: State, ev: Event, s: Symbol)
    requires !ev.BatchStarted? && !ev.Telemetry? && !ev.BatchFinished?
    ensures EntryOf(Apply(st, ev).symbols, s).rowsByStream == EntryOf(st.symbols, s).rowsByStream
  {
    hide FreshCounts, Days, ScopedSymbols;
    if ev.SetScopes? && !st.historyFill {
      if s in ScopedSymbols(st.symbols, ev.scopes) {
        ScopesAddNoRows(st.symbols, ev.scopes, s);
      } else {
        ScopesKeepSymbols(st.symbols, ev.scopes, s);
      }
    }
  }

  lemma StartRowsStep(st: State, ev: Event, s: Symbol)
    requires ev.BatchStarted?
    ensures var e := EntryOf(st.symbols, s);
            EntryOf(Apply(st, ev).symbols, s).rowsByStream ==
              if s in ev.symbols then WithRows(e, StreamKey(ev.batch, 0, ev.range), 0).rowsByStream else e.rowsByStream
  {
    hide FreshCounts;
  }

  lemma StreamRowsStep(st: State, ev: Event, s: Symbol)
    requires ev.Telemetry?
    ensures var e := EntryOf(st.symbols, s);
            EntryOf(Apply(st, ev).symbols, s).rowsByStream ==
              if s == ev.symbol then WithRows(e, StreamKey(ev.batch, 0, ev.range), ev.rows).rowsByStream
              else e.rowsByStream
  {
    hide FreshCounts, CompletedHistoryRange;
  }

  lemma FinishRowsStep(st: State, ev: Event, s: Symbol, key: StreamKey)
    requires ev.BatchFinished? && key.batch != ev.batch
    ensures var e, after := EntryOf(st.symbols, s).rowsByStream, EntryOf(Apply(st, ev).symbols, s).rowsByStream;
            (key in after <==> key in e) && (key in after ==> after[key] == e[key])
  {
    hide FreshCounts, FinishRows;
  }

  ghost predicate ReportsRowsAt(events: seq<Event>, i: nat, s: Symbol, batch: nat, r: Range) {
    i < |events| && IsRowReport(events[i], s, batch, r)
  }

  ghost predicate Opened(events: seq<Event>, s: Symbol, batch: nat, r: Range) {
    exists i: nat :: i < |events| && (IsRowReport(events[i], s, batch, r) || OpensStream(events[i], s, batch, r))
  }

  /** The number is the greatest of the row counts reported on the stream, or nothing if none was. */
  ghost predicate IsGreatestReport(events: seq<Event>, s: Symbol, batch: nat, r: Range, rows: nat) {
    && (forall i: nat :: ReportsRowsAt(events, i, s, batch, r) ==> events[i].rows <= rows)
    && (rows > 0 ==> exists i: nat :: ReportsRowsAt(events, i, s, batch, r) && events[i].rows == rows)
  }

  lemma OpenedStep(events: seq<Event>, ev: Event, s: Symbol, batch: nat, r: Range)
    ensures Opened(events + [ev], s, batch, r) <==>
      Opened(events, s, batch, r) || IsRowReport(ev, s, batch, r) || OpensStream(ev, s, batch, r)
  {
    hide IsRowReport, OpensStream;
    var more := events + [ev];
    assert more[|events|] == ev && forall i :: 0 <= i < |events| ==> more[i] == events[i];
    if i: nat :| i < |events| && (IsRowReport(events[i], s, batch, r) || OpensStream(events[i], s, batch, r)) {
      assert IsRowReport(more[i], s, batch, r) || OpensStream(more[i], s, batch, r);
    }
  }

  lemma GreatestStep(events: seq<Event>, ev: Event, s: Symbol, batch: nat, r: Range, was: nat)
    requires IsGreatestReport(events, s, batch, r, was)
    ensures IsGreatestReport(events + [ev], s, batch, r,
                             if IsRowReport(ev, s, batch, r) && ev.rows > was then ev.rows else was)
  {
    var more := events + [ev];
    var now := if IsRowReport(ev, s, batch, r) && ev.rows > was then ev.rows else was;
    assert more[|events|] == ev && forall i :: 0 <= i < |events| ==> more[i] == events[i];
    forall i: nat | ReportsRowsAt(more, i, s, batch, r) ensures more[i].rows <= now {
      assert i < |events| ==> ReportsRowsAt(events, i, s, batch, r);
    }
    if now == was > 0 {
      var i: nat :| ReportsRowsAt(events, i, s, batch, r) && events[i].rows == was;
      assert ReportsRowsAt(more, i, s, batch, r);
    } else if now > 0 {
      assert ReportsRowsAt(more, |events|, s, batch, r);
    }
  }

  /** While a batch has not finished, the rows of each of its streams are the most that telemetry has reported on
      it, reports coming in any order. */
  lemma {:induction false} StreamRowsAreReported(events: seq<Event>, s: Symbol, batch: nat, r: Range)
    requires forall i :: 0 <= i < |events| ==> !FinishesBatch(events[i], batch)
    ensures var key, rows := StreamKey(batch, 0, r), Entry(events, s).rowsByStream;
            && (key in rows <==> Opened(events, s, batch, r))
            && IsGreatestReport(events, s, batch, r, if key in rows then rows[key] else 0)
  {
    hide Apply, Run, Opened, IsGreatestReport, IsRowReport, OpensStream;
    if events == [] {
      NoRowsAtFirst(s, batch, r);
    } else {
      var init, last := events[..|events| - 1], events[|events| - 1];
      RunEnd(events);
      StreamRowsAreReported(init, s, batch, r);
      RowsStep(Run(INITIAL, init), last, s, batch, r);
      OpenedStep(init, last, s, batch, r);
      var rows := Entry(init, s).rowsByStream;
      var key := StreamKey(batch, 0, r);
      GreatestStep(init, last, s, batch, r, if key in rows then rows[key] else 0);
      NotOpened(last, s, batch, r);
    }
  }

  lemma NotOpened(ev: Event, s: Symbol, batch: nat, r: Range)
    ensures IsRowReport(ev, s, batch, r) ==> ev.Telemetry? && !OpensStream(ev, s, batch, r)
  {
  }

  lemma NoRowsAtFirst(s: Symbol, batch: nat, r: Range)
    ensures Entry([], s) == NEW_SYMBOL && !Opened([], s, batch, r) && IsGreatestReport([], s, batch, r, 0)
  {
  }

  // ---- the rows of a finished batch ----

  ghost predicate FinishesBatchAt(events: seq<Event>, i: nat, batch: nat) {
    i < |events| && FinishesBatch(events[i], batch)
  }

  /** Rows that the symbols listed by a finish had streamed in its batch by then. */
  ghost function StreamedBy(events: seq<Event>, i: nat, batch: nat): nat
    requires FinishesBatchAt(events, i, batch)
  {
    ListedRows(Run(INITIAL, events[..i]).symbols, events[i].symbols, batch)
  }

  /** The number is the greatest row count of a batch that any of its finishes gave: the rows written, or the rows
      its listed symbols had streamed. */
  ghost predicate IsGreatestFinish(events: seq<Event>, batch: nat, rows: nat) {
    && (forall i: nat :: FinishesBatchAt(events, i, batch) ==>
          events[i].rowsWritten <= rows && StreamedBy(events, i, batch) <= rows)
    && (exists i: nat :: FinishesBatchAt(events, i, batch)
                      && (rows == events[i].rowsWritten || rows == StreamedBy(events, i, batch)))
  }

  lemma RecordedStep(st: State, ev: Event, batch: nat)
    ensures var after := Apply(st, ev).rowsByBatch;
            if FinishesBatch(ev, batch) then
              var rows := FinishRows(st, batch, ev.symbols, ev.rowsWritten);
              batch in after && after[batch] ==
                if batch in st.rowsByBatch && st.rowsByBatch[batch] > rows then st.rowsByBatch[batch] else rows
            else (batch in after <==> batch in st.rowsByBatch)
                 && (batch in after ==> after[batch] == st.rowsByBatch[batch])
  {
    hide FreshCounts, ListedRows;
  }

  /** The rows recorded of a batch are the greatest that any of its finishes gave. */
  lemma {:induction false} RecordedRowsAreGreatest(events: seq<Event>, batch: nat)
    ensures var recorded := Run(INITIAL, events).rowsByBatch;
            && (batch in recorded <==> exists i: nat :: FinishesBatchAt(events, i, batch))
            && (batch in recorded ==> IsGreatestFinish(events, batch, recorded[batch]))
  {
    hide Apply, ListedRows;
    if events != [] {
      var init, last := events[..|events| - 1], events[|events| - 1];
      var st := Run(INITIAL, init);
      RunEnd(events);
      RecordedRowsAreGreatest(init, batch);
      RecordedStep(st, last, batch);
      hide Run, IsGreatestFinish, FinishRows;
      if FinishesBatch(last, batch) {
        FinishGivesGreatest(init, last, batch);
      } else {
        OtherKeepsGreatest(init, last, batch);
      }
    }
  }

  lemma OtherKeepsGreatest(events: seq<Event>, ev: Event, batch: nat)
    requires !FinishesBatch(ev, batch)
    ensures forall i: nat :: FinishesBatchAt(events + [ev], i, batch) <==> FinishesBatchAt(events, i, batch)
    ensures forall rows: nat :: IsGreatestFinish(events, batch, rows) ==> IsGreatestFinish(events + [ev], batch, rows)
  {
    hide Run, ListedRows;
    SamePrefixes(events, ev, batch);
  }

  lemma SamePrefixes(events: seq<Event>, ev: Event, batch: nat)
    ensures forall i: nat :: i < |events| ==> (events + [ev])[i] == events[i]
    ensures forall i: nat :: FinishesBatchAt(events, i, batch) ==>
      FinishesBatchAt(events + [ev], i, batch) && StreamedBy(events + [ev], i, batch) == StreamedBy(events, i, batch)
    ensures forall i: nat :: FinishesBatchAt(events + [ev], i, batch) ==>
      FinishesBatchAt(events, i, batch) || (i == |events| && FinishesBatch(ev, batch))
  {
    hide Run, ListedRows;
    assert forall i: nat :: i <= |events| ==> (events + [ev])[..i] == events[..i];
  }

  lemma FinishGivesGreatest(events: seq<Event>, ev: Event, batch: nat)
    requires FinishesBatch(ev, batch)
    requires var recorded := Run(INITIAL, events).rowsByBatch;
             && (batch in recorded <==> exists i: nat :: FinishesBatchAt(events, i, batch))
             && (batch in recorded ==> IsGreatestFinish(events, batch, recorded[batch]))
    ensures FinishesBatchAt(events + [ev], |events|, batch)
    ensures var st := Run(INITIAL, events);
            var rows := FinishRows(st, batch, ev.symbols, ev.rowsWritten);
            IsGreatestFinish(events + [ev], batch,
              if batch in st.rowsByBatch && st.rowsByBatch[batch] > rows then st.rowsByBatch[batch] else rows)
  {
    hide Run, ListedRows, IsGreatestFinish, StreamedBy;
    var more := events + [ev];
    assert more[..|events|] == events && more[|events|] == ev;
    LastFinish(events, ev, batch);
    var recorded := Run(INITIAL, events).rowsByBatch;
    var rows := FinishRows(Run(INITIAL, events), batch, ev.symbols, ev.rowsWritten);
    if batch in recorded {
      OneMoreFinish(events, ev, batch, recorded[batch], rows);
    } else {
      FirstFinish(events, ev, batch, rows);
    }
  }

  /** What the last event gives, if it finishes the batch. */
  lemma LastFinish(events: seq<Event>, ev: Event, batch: nat)
    requires FinishesBatch(ev, batch)
    ensures FinishesBatchAt(events + [ev], |events|, batch)
    ensures var more := events + [ev];
            FinishRows(Run(INITIAL, events), batch, ev.symbols, ev.rowsWritten)
              == Extremes.Max(ev.rowsWritten, StreamedBy(more, |events|, batch))
  {
    hide Run, ListedRows;
    assert (events + [ev])[..|events|] == events;
  }

  lemma FirstFinish(events: seq<Event>, ev: Event, batch: nat, rows: nat)
    requires FinishesBatchAt(events + [ev], |events|, batch)
    requires forall i: nat :: !FinishesBatchAt(events, i, batch)
    requires rows == Extremes.Max(ev.rowsWritten, StreamedBy(events + [ev], |events|, batch))
    ensures IsGreatestFinish(events + [ev], batch, rows)
  {
    hide StreamedBy;
    SamePrefixes(events, ev, batch);
    assert (events + [ev])[|events|] == ev;
  }

  lemma OneMoreFinish(events: seq<Event>, ev: Event, batch: nat, was: nat, rows: nat)
    requires FinishesBatchAt(events + [ev], |events|, batch) && IsGreatestFinish(events, batch, was)
    requires rows == Extremes.Max(ev.rowsWritten, StreamedBy(events + [ev], |events|, batch))
    ensures IsGreatestFinish(events + [ev], batch, if was > rows then was else rows)
  {
    hide StreamedBy;
    var more := events + [ev];
    SamePrefixes(events, ev, batch);
    assert more[|events|] == ev;
    if was > rows {
      var i: nat :| FinishesBatchAt(events, i, batch)
                    && (was == events[i].rowsWritten || was == StreamedBy(events, i, batch));
      assert FinishesBatchAt(more, i, batch);
    }
  }

  /** A finish that lists a single known symbol keeps its rows with that symbol as well, unless more have been
      reported; a finish that lists several symbols changes no stream. */
  lemma SingleFinishIsKept(st: State, ev: Event, s: Symbol)
    requires ev.BatchFinished? && s in st.symbols
    ensures s in Apply(st, ev).symbols
    ensures var e, after := st.symbols[s].rowsByStream, Apply(st, ev).symbols[s].rowsByStream;
            var key := StreamKey(ev.batch, 0, ev.range);
            if ev.symbols == [s] then
              key in after && after[key] >= ev.rowsWritten && (key in e ==> after[key] >= e[key])
            else after == e
  {
    hide FreshCounts, ListedRows;
  }

  /** A finish that lists no symbol twice counts the rows of each known one once. */
  lemma {:induction false} ListedRowsAreSum(m: map<Symbol, SymbolProgress>, listed: seq<Symbol>, batch: nat)
    requires Distinct(listed)
    ensures ListedRows(m, listed, batch) == MapSum(ListedPart(m, listed, batch))
  {
    hide BatchRows;
    if listed == [] {
      MapSumZero(ListedPart(m, listed, batch));
    } else {
      var init, last := listed[..|listed| - 1], listed[|listed| - 1];
      ListedRowsAreSum(m, init, batch);
      var part := ListedPart(m, init, batch);
      assert listed == init + [last];
      assert last !in init;
      if last in m {
        MapSumUpdate(part, last, BatchRows(m[last], batch));
        assert ListedPart(m, listed, batch) == part[last := BatchRows(m[last], batch)];
      } else {
        assert ListedPart(m, listed, batch) == part;
      }
    }
  }
}
