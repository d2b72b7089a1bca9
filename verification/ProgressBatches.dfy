/** Runs in which a batch ends once and as a whole, as the orchestration of a fill reports it: their row
    total never decreases. */
module ProgressBatches {
  import opened Ranges
  import opened DayCounting
  import opened Sums
  import opened ProgressSpec
  import opened ProgressRuns
  import opened ProgressRows

  ghost predicate Ends(ev: Event, batch: nat) {
    (ev.BatchFinished? || ev.BatchFailed?) && ev.batch == batch
  }

  ghost predicate Ended(events: seq<Event>, batch: nat) {
    exists i :: 0 <= i < |events| && Ends(events[i], batch)
  }

  /** A batch that has ended neither starts nor ends again, and its end lists every symbol still open. */
  ghost predicate KeepsBatchWhole(events: seq<Event>, ev: Event) {
    && (ev.BatchStarted? || ev.BatchFinished? || ev.BatchFailed? ==> !Ended(events, ev.batch))
    && (ev.BatchFinished? || ev.BatchFailed? ==>
          forall s :: (ev.batch, s) in OpenBatches(events) ==> s in ev.symbols)
  }

  ghost predicate WholeBatches(events: seq<Event>) {
    events == [] ||
    (WholeBatches(events[..|events| - 1]) && KeepsBatchWhole(events[..|events| - 1], events[|events| - 1]))
  }

  lemma EndedStep(events: seq<Event>, ev: Event, batch: nat)
    ensures Ended(events + [ev], batch) <==> Ended(events, batch) || Ends(ev, batch)
  {
    if Ended(events, batch) {
      var i :| 0 <= i < |events| && Ends(events[i], batch);
      assert Ends((events + [ev])[i], batch);
    }
    if Ends(ev, batch) {
      assert Ends((events + [ev])[|events|], batch);
    }
  }

  /** An ended batch is open for no symbol. */
  lemma {:induction false} EndedIsClosed(events: seq<Event>, batch: nat, s: Symbol)
    requires WholeBatches(events) && Ended(events, batch)
    ensures (batch, s) !in OpenBatches(events)
  {
    hide WholeBatches, Ended;
    WholeParts(events);
    var init, last := events[..|events| - 1], events[|events| - 1];
    assert events == init + [last];
    EndedStep(init, last, batch);
    if Ended(init, batch) {
      EndedIsClosed(init, batch, s);
    }
  }

  lemma WholeParts(events: seq<Event>)
    requires WholeBatches(events)
    ensures events != [] ==>
      WholeBatches(events[..|events| - 1]) && KeepsBatchWhole(events[..|events| - 1], events[|events| - 1])
    ensures events == [] ==> forall b :: !Ended(events, b)
  {
  }

  // ---- where the streams of a symbol come from ----

  lemma {:induction false} ScopesAddNoRows(m: map<Symbol, SymbolProgress>, scopes: seq<(Symbol, Range)>, s: Symbol)
    requires s in ScopedSymbols(m, scopes)
    ensures ScopedSymbols(m, scopes)[s].rowsByStream == EntryOf(m, s).rowsByStream
  {
    if scopes != [] {
      var init, last := scopes[..|scopes| - 1], scopes[|scopes| - 1];
      var before := ScopedSymbols(m, init);
      if s in before {
        ScopesAddNoRows(m, init, s);
      } else {
        ScopesKeepSymbols(m, init, s);
      }
    }
  }

  lemma {:induction false} ScopesKeepSymbols(m: map<Symbol, SymbolProgress>, scopes: seq<(Symbol, Range)>, s: Symbol)
    ensures s in m ==> s in ScopedSymbols(m, scopes)
  {
    if scopes != [] { ScopesKeepSymbols(m, scopes[..|scopes| - 1], s); }
  }

  /** An event adds a stream to a symbol only if it starts or finishes the stream's batch for it, or reports
      on that stream. */
  ghost predicate AddsStream(ev: Event, s: Symbol, key: StreamKey) {
    match ev
    case BatchStarted(b, _, _, symbols) => s in symbols && key.batch == b
    case Telemetry(b, _, t, _, _) => s == t && key.batch == b
    case BatchFinished(b, _, _, _) => key.batch == b
    case _ => false
  }

  lemma StreamsComeFrom(st: State, ev: Event, s: Symbol, key: StreamKey)
    requires s in Apply(st, ev).symbols && key in Apply(st, ev).symbols[s].rowsByStream
    ensures key in EntryOf(st.symbols, s).rowsByStream || AddsStream(ev, s, key)
  {
    hide FreshCounts, CompletedHistoryRange, FinishRows, Days, ScopedSymbols;
    match ev
    case SetScopes(scopes) => if !st.historyFill { ScopesAddNoRows(st.symbols, scopes, s); }
    case _ =>
  }

  // ---- the invariant ----

  /** Every stream of a batch that has not ended belongs to a symbol the batch is open for. */
  ghost predicate StreamsOpen(st: State, events: seq<Event>) {
    forall s, key :: s in st.symbols && key in st.symbols[s].rowsByStream && !Ended(events, key.batch) ==>
      (key.batch, s) in OpenBatches(events)
  }

  lemma {:induction false} RunKeepsStreamsOpen(events: seq<Event>)
    requires WellFormed(events) && WholeBatches(events)
    ensures StreamsOpen(Run(INITIAL, events), events)
  {
    hide Apply, WholeBatches, Ended, KeepsBatchWhole, WellFormed, AddsStream, Admissible, BookAfter;
    if events != [] {
      var init, last := events[..|events| - 1], events[|events| - 1];
      assert events == init + [last];
      WholeParts(events);
      WellFormedParts(events);
      RunKeepsStreamsOpen(init);
      var before, after := Run(INITIAL, init), Run(INITIAL, events);
      forall s, key | s in after.symbols && key in after.symbols[s].rowsByStream && !Ended(events, key.batch)
        ensures (key.batch, s) in OpenBatches(events)
      {
        EndedStep(init, last, key.batch);
        StreamsComeFrom(before, last, s, key);
        StreamStaysOpen(OpenBatches(init), last, s, key);
      }
    }
  }

  lemma WellFormedParts(events: seq<Event>)
    requires WellFormed(events) && events != []
    ensures WellFormed(events[..|events| - 1])
    ensures Admissible(OpenBatches(events[..|events| - 1]), events[|events| - 1])
    ensures OpenBatches(events) == BookAfter(OpenBatches(events[..|events| - 1]), events[|events| - 1])
  {
  }

  lemma StreamStaysOpen(open: Book, ev: Event, s: Symbol, key: StreamKey)
    requires Admissible(open, ev) && !Ends(ev, key.batch)
    requires (key.batch, s) in open || AddsStream(ev, s, key)
    ensures (key.batch, s) in BookAfter(open, ev)
  {
    if ev.BatchStarted? && AddsStream(ev, s, key) {
      assert (key.batch, s) in Pairs(ev.symbols, ev.batch);
    }
  }

  /** From the events alone: in a well-formed run of whole batches every finish lists the symbols that
      streamed for its batch. */
  lemma {:induction false} WholeBatchesListStreams(events: seq<Event>)
    requires WellFormed(events) && WholeBatches(events)
    ensures FinishesListStreams(INITIAL, events)
  {
    hide Apply, Run, OpenBatches, Ended, StreamsOpen, ListsEveryStream, Admissible;
    if events != [] {
      var init, last := events[..|events| - 1], events[|events| - 1];
      WholeBatchesListStreams(init);
      RunKeepsStreamsOpen(init);
      FinishListsStreams(Run(INITIAL, init), init, last);
    }
  }

  lemma FinishListsStreams(st: State, events: seq<Event>, ev: Event)
    requires StreamsOpen(st, events) && KeepsBatchWhole(events, ev)
    ensures ListsEveryStream(st, ev)
  {
    hide MapSum, Ended, OpenBatches;
    if ev.BatchFinished? {
      forall s | s in st.symbols && BatchRows(st.symbols[s], ev.batch) > 0 ensures s in ev.symbols {
        var streams := BatchStreams(st.symbols[s], ev.batch);
        if streams == map[] {
          MapSumZero(streams);
        } else {
          var key :| key in streams;
          assert key in st.symbols[s].rowsByStream && key.batch == ev.batch;
        }
      }
    }
  }

  /** In a well-formed run of whole batches the row total never decreases. */
  lemma WholeBatchesNeverLoseRows(events: seq<Event>, k: nat)
    requires k <= |events| && WellFormed(events) && WholeBatches(events)
    ensures TotalRows(Run(INITIAL, events[..k])) <= TotalRows(Run(INITIAL, events))
  {
    WholeBatchesListStreams(events);
    RowsNeverDecrease(events, k);
  }
}
