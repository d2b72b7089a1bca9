/** What the ledger holds of a symbol's scopes and durability windows, told by the events of the run alone. */
module ProgressScopes {
  import opened Wrappers
  import opened Ranges
  import opened DayCounting
  import opened ProgressSpec
  import opened ProgressRuns
  import opened ProgressEntries
  import opened ProgressFailures
  import opened ProgressHistory

  // ---- scopes ----

  predicate NamesScope(scopes: seq<(Symbol, Range)>, s: Symbol, r: Range) {
    exists k :: 0 <= k < |scopes| && scopes[k] == (s, r)
  }

  /** The event gives the symbol this range: scopes do so before a history fill begins, a batch start always. */
  ghost predicate GivesScope(ev: Event, s: Symbol, r: Range, historyFill: bool) {
    || (ev.SetScopes? && !historyFill && NamesScope(ev.scopes, s, r))
    || (ev.BatchStarted? && s in ev.symbols && ev.range == r)
  }

  ghost predicate ScopedAt(events: seq<Event>, i: nat, s: Symbol, r: Range) {
    i < |events| && GivesScope(events[i], s, r, Run(INITIAL, events[..i]).historyFill)
  }

  ghost predicate HasScope(events: seq<Event>, s: Symbol, r: Range) {
    exists i: nat :: ScopedAt(events, i, s, r)
  }

  lemma ScopeStep(events: seq<Event>, ev: Event, s: Symbol, r: Range)
    ensures HasScope(events + [ev], s, r) <==>
      HasScope(events, s, r) || GivesScope(ev, s, r, Run(INITIAL, events).historyFill)
  {
    hide Run, GivesScope;
    var more := events + [ev];
    assert forall i :: 0 <= i <= |events| ==> more[..i] == events[..i];
    assert events[..|events|] == events;
    if HasScope(events, s, r) {
      var i: nat :| ScopedAt(events, i, s, r);
      assert ScopedAt(more, i, s, r);
    }
    if GivesScope(ev, s, r, Run(INITIAL, events).historyFill) {
      assert ScopedAt(more, |events|, s, r);
    }
    if HasScope(more, s, r) {
      var i: nat :| ScopedAt(more, i, s, r);
      assert i < |events| ==> ScopedAt(events, i, s, r);
    }
  }

  lemma {:induction false} ScopedByRanges(e: SymbolProgress, scopes: seq<(Symbol, Range)>, s: Symbol, r: Range)
    ensures r in ScopedBy(e, scopes, s).requestedRanges <==> r in e.requestedRanges || NamesScope(scopes, s, r)
    ensures r in ScopedBy(e, scopes, s).missingRanges <==> r in e.missingRanges || NamesScope(scopes, s, r)
  {
    if scopes != [] {
      var init, last := scopes[..|scopes| - 1], scopes[|scopes| - 1];
      ScopedByRanges(e, init, s, r);
      assert scopes == init + [last];
      assert NamesScope(scopes, s, r) <==> NamesScope(init, s, r) || last == (s, r);
    }
  }

  lemma ScopesStep(st: State, ev: Event, s: Symbol, r: Range)
    ensures var e, after := EntryOf(st.symbols, s), EntryOf(Apply(st, ev).symbols, s);
            && (r in after.requestedRanges <==> r in e.requestedRanges || GivesScope(ev, s, r, st.historyFill))
            && (r in after.missingRanges <==> r in e.missingRanges || GivesScope(ev, s, r, st.historyFill))
  {
    hide Apply, NamesScope, WithDurability;
    if s in Apply(st, ev).symbols {
      ApplyEntry(st, ev, s);
      DurabilityKeepsScopes();
      if ev.SetScopes? { ScopedByRanges(EntryOf(st.symbols, s), ev.scopes, s, r); }
    } else {
      KnownPersists(st, ev, s);
      UnknownAfter(st, ev, s);
      if ev.SetScopes? { NamedIsNamed(ev.scopes, s, r); }
    }
  }

  lemma DurabilityKeepsScopes()
    ensures forall e: SymbolProgress, d: Durability ::
      && WithDurability(e, d).requestedRanges == e.requestedRanges
      && WithDurability(e, d).missingRanges == e.missingRanges
  {
  }

  lemma KnownPersists(st: State, ev: Event, s: Symbol)
    ensures s in st.symbols ==> s in Apply(st, ev).symbols
  {
    hide Apply;
    if s in st.symbols { ApplyReceipt(st, ev, s); }
  }

  lemma NamedIsNamed(scopes: seq<(Symbol, Range)>, s: Symbol, r: Range)
    ensures NamesScope(scopes, s, r) ==> ScopesName(scopes, s)
  {
    if k :| 0 <= k < |scopes| && scopes[k] == (s, r) {
      assert scopes[k].0 == s;
    }
  }

  /** The requested and the missing ranges of a symbol are both those that scopes before the fill and batch starts
      have given it. */
  lemma {:induction false} ScopesAreGiven(events: seq<Event>, s: Symbol, r: Range)
    ensures r in Entry(events, s).requestedRanges <==> HasScope(events, s, r)
    ensures r in Entry(events, s).missingRanges <==> HasScope(events, s, r)
  {
    hide Apply, Run, HasScope, GivesScope;
    if events == [] {
      NoScopesAtFirst(s, r);
    } else {
      var init, last := events[..|events| - 1], events[|events| - 1];
      RunEnd(events);
      ScopesAreGiven(init, s, r);
      ScopesStep(Run(INITIAL, init), last, s, r);
      ScopeStep(init, last, s, r);
    }
  }

  lemma NoScopesAtFirst(s: Symbol, r: Range)
    ensures Entry([], s) == NEW_SYMBOL && !HasScope([], s, r)
  {
  }

  // ---- durability windows ----

  predicate ReportsWindow(ev: Event, s: Symbol, window: Range) {
    ev.DurabilityReport? && ev.owner == s && ev.progress.range == window
  }

  /** The report leaves nothing of the window to be downloaded again. */
  predicate Settles(ev: Event, s: Symbol, window: Range) {
    ReportsWindow(ev, s, window) && ev.progress.redownload.None?
  }

  /** The report that counts for a window: the first one that settles it, or else the last one. */
  ghost predicate Stands(events: seq<Event>, i: nat, s: Symbol, window: Range) {
    && i < |events| && ReportsWindow(events[i], s, window)
    && (if Settles(events[i], s, window) then forall j :: 0 <= j < i ==> !Settles(events[j], s, window)
        else
          && (forall j :: 0 <= j < |events| ==> !Settles(events[j], s, window))
          && (forall j :: i < j < |events| ==> !ReportsWindow(events[j], s, window)))
  }

  ghost predicate WindowHolds(events: seq<Event>, e: SymbolProgress, s: Symbol, window: Range) {
    && (window in e.durability <==> exists i: nat :: Stands(events, i, s, window))
    && (forall i: nat :: Stands(events, i, s, window) ==>
          window in e.durability && e.durability[window] == events[i].progress)
  }

  ghost predicate HasSettled(events: seq<Event>, s: Symbol, window: Range) {
    exists i: nat :: i < |events| && Settles(events[i], s, window)
  }

  lemma {:induction false} FirstSettles(events: seq<Event>, s: Symbol, window: Range) returns (i: nat)
    requires HasSettled(events, s, window)
    ensures Stands(events, i, s, window) && Settles(events[i], s, window)
  {
    i := 0;
    while !Settles(events[i], s, window)
      invariant i < |events| && forall j :: 0 <= j < i ==> !Settles(events[j], s, window)
      decreases |events| - i
    {
      var k: nat :| k < |events| && Settles(events[k], s, window);
      i := i + 1;
    }
  }

  lemma SettledIsHeld(events: seq<Event>, e: SymbolProgress, s: Symbol, window: Range)
    requires WindowHolds(events, e, s, window)
    ensures HasSettled(events, s, window) <==>
      window in e.durability && e.durability[window].redownload.None?
  {
    if HasSettled(events, s, window) {
      var i := FirstSettles(events, s, window);
    }
    if window in e.durability && e.durability[window].redownload.None? {
      var i: nat :| Stands(events, i, s, window);
      assert Settles(events[i], s, window);
    }
  }

  /** One more event: it does not concern the window, or the window is settled, or its report takes over. */
  lemma StandsStep(events: seq<Event>, ev: Event, s: Symbol, window: Range, i: nat)
    ensures Stands(events + [ev], i, s, window) <==>
      if ReportsWindow(ev, s, window) && !HasSettled(events, s, window) then i == |events|
      else Stands(events, i, s, window)
  {
    var more := events + [ev];
    assert forall j :: 0 <= j < |events| ==> more[j] == events[j];
    assert more[|events|] == ev;
    if HasSettled(events, s, window) {
      var k: nat :| k < |events| && Settles(events[k], s, window);
      assert Settles(more[k], s, window);
    }
  }

  lemma WindowStep(events: seq<Event>, ev: Event, s: Symbol, window: Range, e: SymbolProgress, after: SymbolProgress)
    requires WindowHolds(events, e, s, window)
    requires after.durability ==
             if ev.DurabilityReport? && ev.owner == s then WithDurability(e, ev.progress).durability else e.durability
    ensures WindowHolds(events + [ev], after, s, window)
  {
    hide Stands, HasSettled;
    var more := events + [ev];
    SettledIsHeld(events, e, s, window);
    StandsInside(events, s, window);
    StandsInside(more, s, window);
    assert forall j :: 0 <= j < |events| ==> more[j] == events[j];
    forall i: nat ensures Stands(more, i, s, window) <==>
      if ReportsWindow(ev, s, window) && !HasSettled(events, s, window) then i == |events|
      else Stands(events, i, s, window)
    {
      StandsStep(events, ev, s, window, i);
    }
    if ReportsWindow(ev, s, window) && !HasSettled(events, s, window) {
      assert Stands(more, |events|, s, window);
    } else {
      assert after.durability == e.durability || !ReportsWindow(ev, s, window);
      assert forall i: nat :: Stands(more, i, s, window) <==> Stands(events, i, s, window);
    }
  }

  lemma StandsInside(events: seq<Event>, s: Symbol, window: Range)
    ensures forall i: nat :: Stands(events, i, s, window) ==> i < |events|
  {
  }

  lemma DurabilityStep(st: State, ev: Event, s: Symbol)
    ensures var e, after := EntryOf(st.symbols, s), EntryOf(Apply(st, ev).symbols, s);
            after.durability ==
              if ev.DurabilityReport? && ev.owner == s then WithDurability(e, ev.progress).durability else e.durability
  {
    hide Apply, WithDurability;
    KnownPersists(st, ev, s);
    if s in Apply(st, ev).symbols {
      ApplyEntry(st, ev, s);
      if ev.SetScopes? { ScopedByKeepsDurability(EntryOf(st.symbols, s), ev.scopes, s); }
    } else {
      UnknownAfter(st, ev, s);
    }
  }

  lemma {:induction false} ScopedByKeepsDurability(e: SymbolProgress, scopes: seq<(Symbol, Range)>, s: Symbol)
    ensures ScopedBy(e, scopes, s).durability == e.durability
  {
    if scopes != [] { ScopedByKeepsDurability(e, scopes[..|scopes| - 1], s); }
  }

  /** A window holds the first report that settled it, or else its last report. */
  lemma {:induction false} WindowsHoldReports(events: seq<Event>, s: Symbol, window: Range)
    ensures WindowHolds(events, Entry(events, s), s, window)
  {
    hide Apply, Run, WindowHolds, WithDurability;
    if events == [] {
      NoWindowsAtFirst(s, window);
    } else {
      var init, last := events[..|events| - 1], events[|events| - 1];
      RunEnd(events);
      WindowsHoldReports(init, s, window);
      DurabilityStep(Run(INITIAL, init), last, s);
      WindowStep(init, last, s, window, Entry(init, s), Entry(events, s));
    }
  }

  lemma NoWindowsAtFirst(s: Symbol, window: Range)
    ensures WindowHolds([], Entry([], s), s, window)
  {
  }

  // ---- errors ----

  lemma {:induction false} ScopesKeepError(m: map<Symbol, SymbolProgress>, scopes: seq<(Symbol, Range)>, s: Symbol)
    ensures EntryOf(ScopedSymbols(m, scopes), s).error == EntryOf(m, s).error
  {
    if scopes != [] { ScopesKeepError(m, scopes[..|scopes| - 1], s); }
  }

  lemma ErrorStep(st: State, ev: Event, s: Symbol)
    ensures EntryOf(Apply(st, ev).symbols, s).error ==
      if FailsFor(ev, s) && s in st.symbols then Some(ev.message) else EntryOf(st.symbols, s).error
  {
    hide FreshCounts, CompletedHistoryRange, FinishRows, Days, ScopedSymbols, WithRows;
    match ev
    case SetScopes(scopes) => ScopesKeepError(st.symbols, scopes, s);
    case BatchFinished(_, _, _, _) => FinishKeepsError(st, ev, s);
    case BatchStarted(_, _, _, _) => RowsKeepError();
    case Telemetry(_, _, _, _, _) => RowsKeepError();
    case _ =>
  }

  lemma RowsKeepError()
    ensures forall e: SymbolProgress, key: StreamKey, rows: nat :: WithRows(e, key, rows).error == e.error
  {
  }

  lemma FinishKeepsError(st: State, ev: Event, s: Symbol)
    requires ev.BatchFinished?
    ensures EntryOf(Apply(st, ev).symbols, s).error == EntryOf(st.symbols, s).error
  {
    hide FreshCounts, FinishRows, WithRows;
    RowsKeepError();
  }

  /** The error of a symbol is the message of the last failure that lists it while it is known. */
  lemma {:induction false} ErrorIsLastFailure(events: seq<Event>, s: Symbol, i: nat)
    requires i < |events| && FailsFor(events[i], s) && Knows(events[..i], s)
    requires forall j :: i < j < |events| ==> !FailsFor(events[j], s)
    ensures Entry(events, s).error == Some(events[i].message)
  {
    hide Apply, Run;
    var init, last := events[..|events| - 1], events[|events| - 1];
    RunEnd(events);
    ErrorStep(Run(INITIAL, init), last, s);
    if i < |init| {
      assert init[i] == events[i] && init[..i] == events[..i] && forall j :: 0 <= j < |init| ==> init[j] == events[j];
      ErrorIsLastFailure(init, s, i);
    }
  }
}
