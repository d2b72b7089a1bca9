/** What the ledger holds of a symbol, told by the events of the run alone: its finished ranges and what its
    streams have completed. */
module ProgressHistory {
  import opened Wrappers
  import opened Extremes
  import opened Ranges
  import opened TradingDays
  import opened DayCounting
  import opened ProgressSpec
  import opened ProgressRuns
  import opened ProgressFailures

  predicate FinishesBatch(ev: Event, batch: nat) {
    ev.BatchFinished? && ev.batch == batch
  }

  /** What the ledger holds of `s` after the events. */
  ghost function Entry(events: seq<Event>, s: Symbol): SymbolProgress {
    EntryOf(Run(INITIAL, events).symbols, s)
  }

  ghost predicate Knows(events: seq<Event>, s: Symbol) {
    s in Run(INITIAL, events).symbols
  }

  /** The i-th event finishes the range for a symbol that the ledger knows. */
  ghost predicate FinishesAt(events: seq<Event>, i: nat, s: Symbol, r: Range) {
    && i < |events| && events[i].BatchFinished? && s in events[i].symbols && events[i].range == r
    && Knows(events[..i], s)
  }

  ghost predicate HasFinished(events: seq<Event>, s: Symbol, r: Range) {
    exists i: nat :: FinishesAt(events, i, s, r)
  }

  predicate EndsStream(ev: Event, s: Symbol, key: BatchRange) {
    (ev.BatchFinished? || ev.BatchFailed?) && ev.batch == key.batch && ev.range == key.range && s in ev.symbols
  }

  predicate IsReport(ev: Event, s: Symbol, key: BatchRange, cursor: int) {
    ev.Telemetry? && ev.batch == key.batch && ev.range == key.range && ev.symbol == s && ev.cursor == Some(cursor)
  }

  /** The i-th event reports the cursor on the stream, which has not ended since. */
  ghost predicate ReportsAt(events: seq<Event>, i: nat, s: Symbol, key: BatchRange, cursor: int) {
    && i < |events| && IsReport(events[i], s, key, cursor)
    && forall j :: i < j < |events| ==> !EndsStream(events[j], s, key)
  }

  ghost predicate HasReported(events: seq<Event>, s: Symbol, key: BatchRange, cursor: int) {
    exists i: nat :: ReportsAt(events, i, s, key, cursor)
  }

  /** Days of the range whose own range had ended by a cursor reported on the stream since it last ended. */
  ghost predicate HasStreamed(events: seq<Event>, s: Symbol, key: BatchRange, d: Day) {
    exists cursor :: HasReported(events, s, key, cursor) && d in CompletedDays(TouchedDays(key.range), cursor)
  }

  // ---- one more event ----

  lemma FinishedStep(events: seq<Event>, ev: Event, s: Symbol, r: Range)
    ensures HasFinished(events + [ev], s, r) <==>
      HasFinished(events, s, r) || (ev.BatchFinished? && s in ev.symbols && ev.range == r && Knows(events, s))
  {
    hide Knows;
    var more := events + [ev];
    assert forall i :: 0 <= i <= |events| ==> more[..i] == events[..i];
    assert events[..|events|] == events;
    if HasFinished(events, s, r) {
      var i: nat :| FinishesAt(events, i, s, r);
      assert FinishesAt(more, i, s, r);
    }
    if ev.BatchFinished? && s in ev.symbols && ev.range == r && Knows(events, s) {
      assert FinishesAt(more, |events|, s, r);
    }
    if HasFinished(more, s, r) {
      var i: nat :| FinishesAt(more, i, s, r);
      assert i < |events| ==> FinishesAt(events, i, s, r);
    }
  }

  lemma ReportedStep(events: seq<Event>, ev: Event, s: Symbol, key: BatchRange, cursor: int)
    ensures HasReported(events + [ev], s, key, cursor) <==>
      (HasReported(events, s, key, cursor) && !EndsStream(ev, s, key)) || IsReport(ev, s, key, cursor)
  {
    var more := events + [ev];
    if HasReported(events, s, key, cursor) && !EndsStream(ev, s, key) {
      var i: nat :| ReportsAt(events, i, s, key, cursor);
      assert ReportsAt(more, i, s, key, cursor);
    }
    if IsReport(ev, s, key, cursor) {
      assert ReportsAt(more, |events|, s, key, cursor);
    }
    if HasReported(more, s, key, cursor) {
      var i: nat :| ReportsAt(more, i, s, key, cursor);
      if i < |events| {
        assert more[|events|] == ev;
        assert forall j :: i < j < |events| ==> more[j] == events[j];
        assert ReportsAt(events, i, s, key, cursor);
      }
    }
  }

  lemma StreamedStep(events: seq<Event>, ev: Event, s: Symbol, key: BatchRange, d: Day)
    ensures HasStreamed(events + [ev], s, key, d) <==>
      || (HasStreamed(events, s, key, d) && !EndsStream(ev, s, key))
      || (exists c :: IsReport(ev, s, key, c) && d in CompletedDays(TouchedDays(key.range), c))
  {
    hide HasReported, IsReport, EndsStream, CompletedDays;
    forall cursor ensures HasReported(events + [ev], s, key, cursor) <==>
      (HasReported(events, s, key, cursor) && !EndsStream(ev, s, key)) || IsReport(ev, s, key, cursor)
    {
      ReportedStep(events, ev, s, key, cursor);
    }
  }

  // ---- one step of the ledger ----

  lemma ReceiptStep(st: State, ev: Event, s: Symbol)
    ensures var e, after := EntryOf(st.symbols, s), EntryOf(Apply(st, ev).symbols, s);
            && after.receivedRanges ==
               (if ev.BatchFinished? && s in ev.symbols && s in st.symbols then AddRange(e.receivedRanges, ev.range)
                else e.receivedRanges)
            && after.streamedRanges ==
               (if ev.Telemetry? && ev.symbol == s
                then Streamed(e, ev.batch, ev.range, ev.rows, ev.cursor).streamedRanges
                else if (ev.BatchFinished? || ev.BatchFailed?) && s in ev.symbols
                then e.streamedRanges - {BatchRange(ev.batch, ev.range)}
                else e.streamedRanges)
  {
    hide Apply, Streamed;
    if s in st.symbols {
      ApplyReceipt(st, ev, s);
    } else {
      UnknownAfter(st, ev, s);
    }
  }

  /** The days of a stream's completed prefix. */
  ghost function PrefixDays(e: SymbolProgress, key: BatchRange): set<Day> {
    if key in e.streamedRanges then TouchedDays((key.range.0, e.streamedRanges[key])) else {}
  }

  /** A prefix is never empty. */
  ghost predicate PrefixesBegun(e: SymbolProgress) {
    forall k :: k in e.streamedRanges ==> k.range.0 < e.streamedRanges[k]
  }

  /** A longer range from the same start touches the days of both. */
  lemma LongerPrefix(start: int, a: int, b: int)
    requires start < a && start < b
    ensures TouchedDays((start, Max(a, b))) == TouchedDays((start, a)) + TouchedDays((start, b))
  {
    hide TradingDayOf;
    TradingDayMonotone(start, a - 1);
    TradingDayMonotone(start, b - 1);
    if a <= b { TradingDayMonotone(a - 1, b - 1); } else { TradingDayMonotone(b - 1, a - 1); }
  }

  lemma OneRangeDays(r: Range)
    ensures PartitionDays({r}) == TouchedDays(r)
  {
  }

  lemma CompletedPrefix(r: Range, cursor: int)
    ensures CompletedDays(TouchedDays(r), cursor)
         == (match CompletedHistoryRange(r, cursor) case None => {} case Some(done) => TouchedDays(done))
  {
    hide TouchedDays, CompletedHistoryRange, CompletedDays;
    CompletedRangeMatchesCompletedDays(r, cursor, None);
    OneRangeDays(r);
    match CompletedHistoryRange(r, cursor)
    case None => assert PartitionDays({}) == {};
    case Some(done) => OneRangeDays(done);
  }

  /** A telemetry report adds to the prefix of its stream exactly the days of the range that had ended by the
      cursor: not the day the cursor is inside, and nothing without a cursor. */
  lemma TelemetryAddsCompletedDays(st: State, ev: Event, key: BatchRange)
    requires ev.Telemetry? && PrefixesBegun(EntryOf(st.symbols, ev.symbol))
    ensures var e, after := EntryOf(st.symbols, ev.symbol), EntryOf(Apply(st, ev).symbols, ev.symbol);
            && PrefixesBegun(after)
            && PrefixDays(after, key) == PrefixDays(e, key) +
               if key == BatchRange(ev.batch, ev.range) && ev.cursor.Some?
               then CompletedDays(TouchedDays(ev.range), ev.cursor.value) else {}
  {
    hide Apply, TouchedDays, CompletedDays, CompletedHistoryRange;
    ReceiptStep(st, ev, ev.symbol);
    var e := EntryOf(st.symbols, ev.symbol);
    if ev.cursor.Some? {
      CompletedPrefix(ev.range, ev.cursor.value);
      var own := BatchRange(ev.batch, ev.range);
      var done := CompletedHistoryRange(ev.range, ev.cursor.value);
      if done.Some? && own in e.streamedRanges {
        LongerPrefix(ev.range.0, e.streamedRanges[own], done.value.1);
      }
    }
  }

  lemma OtherEventsKeepPrefixes(st: State, ev: Event, s: Symbol, key: BatchRange)
    requires !(ev.Telemetry? && ev.symbol == s) && PrefixesBegun(EntryOf(st.symbols, s))
    ensures var e, after := EntryOf(st.symbols, s), EntryOf(Apply(st, ev).symbols, s);
            PrefixesBegun(after) && PrefixDays(after, key) == if EndsStream(ev, s, key) then {} else PrefixDays(e, key)
  {
    hide Apply, TouchedDays;
    ReceiptStep(st, ev, s);
  }

  // ---- the run ----

  lemma RunEnd(events: seq<Event>)
    requires events != []
    ensures Run(INITIAL, events) == Apply(Run(INITIAL, events[..|events| - 1]), events[|events| - 1])
    ensures events == events[..|events| - 1] + [events[|events| - 1]]
  {
    hide Apply;
  }

  /** The received ranges of a symbol are those finished for it while it was known. */
  lemma {:induction false} ReceivedIsFinished(events: seq<Event>, s: Symbol, r: Range)
    ensures r in Entry(events, s).receivedRanges <==> HasFinished(events, s, r)
  {
    hide Apply, Run, HasFinished;
    if events == [] {
      NothingAtFirst(s, r);
    } else {
      var init, last := events[..|events| - 1], events[|events| - 1];
      RunEnd(events);
      ReceivedIsFinished(init, s, r);
      ReceiptStep(Run(INITIAL, init), last, s);
      FinishedStep(init, last, s, r);
    }
  }

  lemma NothingAtFirst(s: Symbol, r: Range)
    ensures Entry([], s) == NEW_SYMBOL && !HasFinished([], s, r)
  {
  }

  /** The prefix of a stream touches exactly the days completed by a cursor reported on it since it last ended. */
  lemma {:induction false} PrefixIsStreamed(events: seq<Event>, s: Symbol, key: BatchRange)
    ensures PrefixesBegun(Entry(events, s))
    ensures forall d :: d in PrefixDays(Entry(events, s), key) <==> HasStreamed(events, s, key, d)
  {
    hide Apply, Run, HasStreamed, CompletedDays, TouchedDays, PrefixDays, PrefixesBegun;
    if events == [] {
      NoStreamsAtFirst(s, key);
    } else {
      var init, last := events[..|events| - 1], events[|events| - 1];
      var st := Run(INITIAL, init);
      RunEnd(events);
      PrefixIsStreamed(init, s, key);
      forall d ensures d in PrefixDays(Entry(events, s), key) <==> HasStreamed(events, s, key, d) {
        StreamedStep(init, last, s, key, d);
        if last.Telemetry? && last.symbol == s {
          TelemetryAddsCompletedDays(st, last, key);
          ReportOf(last, s, key, d);
        } else {
          OtherEventsKeepPrefixes(st, last, s, key);
        }
      }
      if last.Telemetry? && last.symbol == s {
        TelemetryAddsCompletedDays(st, last, key);
      } else {
        OtherEventsKeepPrefixes(st, last, s, key);
      }
    }
  }

  lemma NoStreamsAtFirst(s: Symbol, key: BatchRange)
    ensures PrefixesBegun(Entry([], s)) && PrefixDays(Entry([], s), key) == {}
    ensures forall d :: !HasStreamed([], s, key, d)
  {
  }

  lemma ReportOf(ev: Event, s: Symbol, key: BatchRange, d: Day)
    requires ev.Telemetry? && ev.symbol == s
    ensures (exists c :: IsReport(ev, s, key, c) && d in CompletedDays(TouchedDays(key.range), c)) <==>
      && key == BatchRange(ev.batch, ev.range) && ev.cursor.Some?
      && d in CompletedDays(TouchedDays(ev.range), ev.cursor.value)
  {
    if key == BatchRange(ev.batch, ev.range) && ev.cursor.Some? {
      assert IsReport(ev, s, key, ev.cursor.value);
    }
  }

  // ---- received days ----

  /** A day is credited to a symbol: by a finished range, or by a stream that has not ended. */
  ghost predicate IsFinishedDay(events: seq<Event>, s: Symbol, d: Day) {
    exists r :: HasFinished(events, s, r) && d in TouchedDays(r)
  }

  ghost predicate IsStreamedDay(events: seq<Event>, s: Symbol, d: Day) {
    exists key :: HasStreamed(events, s, key, d)
  }

  /** The received days of a symbol, whatever the run: those of the ranges finished for it, and those completed by
      a cursor reported on a stream that has not ended since. */
  lemma ReceivedDaysAre(events: seq<Event>, s: Symbol, d: Day)
    ensures d in ReceivedDays(Entry(events, s)) <==> IsFinishedDay(events, s, d) || IsStreamedDay(events, s, d)
  {
    hide TouchedDays, Run, HasFinished, HasStreamed;
    var e := Entry(events, s);
    forall r ensures r in e.receivedRanges <==> HasFinished(events, s, r) {
      ReceivedIsFinished(events, s, r);
    }
    forall key ensures d in PrefixDays(e, key) <==> HasStreamed(events, s, key, d) {
      PrefixIsStreamed(events, s, key);
    }
    ReceivedDaysSplit(e, d);
  }

  lemma ReceivedDaysSplit(e: SymbolProgress, d: Day)
    ensures d in ReceivedDays(e) <==>
      (exists r :: r in e.receivedRanges && d in TouchedDays(r)) || (exists key :: d in PrefixDays(e, key))
  {
    hide TouchedDays;
    if d in ReceivedDays(e) {
      var r :| r in ReceivedSet(e) && d in TouchedDays(r);
      if r !in e.receivedRanges {
        var key :| key in e.streamedRanges && r == (key.range.0, e.streamedRanges[key]);
        assert d in PrefixDays(e, key);
      }
    }
    if key :| d in PrefixDays(e, key) {
      assert (key.range.0, e.streamedRanges[key]) in ReceivedSet(e);
    }
    if r :| r in e.receivedRanges && d in TouchedDays(r) {
      assert r in ReceivedSet(e);
    }
  }

  /** In a well-formed run a finish only ever lists known symbols. */
  lemma WellFormedFinishIsKnown(events: seq<Event>, i: nat, s: Symbol)
    requires WellFormed(events) && i < |events| && events[i].BatchFinished? && s in events[i].symbols
    ensures FinishesAt(events, i, s, events[i].range)
  {
    WellFormedPrefix(events, i);
    WellFormedRunKeepsInv(events[..i]);
    assert IsOpen(OpenBatches(events[..i]), events[i].batch, s, events[i].range);
  }

  lemma {:induction false} WellFormedPrefix(events: seq<Event>, i: nat)
    requires WellFormed(events) && i < |events|
    ensures WellFormed(events[..i]) && Admissible(OpenBatches(events[..i]), events[i])
  {
    if i < |events| - 1 {
      var init := events[..|events| - 1];
      WellFormedPrefix(init, i);
      assert init[..i] == events[..i] && init[i] == events[i];
    }
  }
}
