/** What one event does to the scopes, the durability windows and the open batches of one symbol. */
module ProgressEntries {
  import opened Ranges
  import opened DayCounting
  import opened ProgressSpec

  datatype Scopes = Scopes(requested: seq<Range>, missing: seq<Range>, durability: map<Range, Durability>)

  function ScopesOf(e: SymbolProgress): Scopes {
    Scopes(e.requestedRanges, e.missingRanges, e.durability)
  }

  /** The entry of `s` after scopes for several symbols. */
  function ScopedBy(e: SymbolProgress, scopes: seq<(Symbol, Range)>, s: Symbol): SymbolProgress {
    if scopes == [] then e
    else
      var init, last := ScopedBy(e, scopes[..|scopes| - 1], s), scopes[|scopes| - 1];
      if last.0 == s then Scoped(init, last.1) else init
  }

  lemma {:induction false} ScopedSymbolsAt(m: map<Symbol, SymbolProgress>, scopes: seq<(Symbol, Range)>, s: Symbol)
    ensures EntryOf(ScopedSymbols(m, scopes), s) == ScopedBy(EntryOf(m, s), scopes, s)
    ensures s in m ==> s in ScopedSymbols(m, scopes)
  {
    if scopes != [] {
      ScopedSymbolsAt(m, scopes[..|scopes| - 1], s);
    }
  }

  function ScopesAfter(e: SymbolProgress, ev: Event, s: Symbol, historyFill: bool): Scopes {
    match ev
    case SetScopes(scopes) => ScopesOf(if historyFill then e else ScopedBy(e, scopes, s))
    case DurabilityReport(owner, d) => ScopesOf(if owner == s then WithDurability(e, d) else e)
    case BatchStarted(_, _, r, symbols) => ScopesOf(if s in symbols then Scoped(e, r) else e)
    case _ => ScopesOf(e)
  }

  function OpenAfter(e: SymbolProgress, ev: Event, s: Symbol): set<nat> {
    match ev
    case BatchStarted(b, _, _, symbols) => if s in symbols then e.activeBatches + {b} else e.activeBatches
    case Telemetry(b, _, t, _, _) => if s == t then e.activeBatches + {b} else e.activeBatches
    case BatchFinished(b, _, symbols, _) => if s in symbols then e.activeBatches - {b} else e.activeBatches
    case BatchFailed(b, _, symbols, _) => if s in symbols then e.activeBatches - {b} else e.activeBatches
    case _ => e.activeBatches
  }

  lemma {:induction false} ScopedByKeepsOpen(e: SymbolProgress, scopes: seq<(Symbol, Range)>, s: Symbol)
    ensures ScopedBy(e, scopes, s).activeBatches == e.activeBatches
  {
    if scopes != [] { ScopedByKeepsOpen(e, scopes[..|scopes| - 1], s); }
  }

  lemma ApplyEntry(st: State, ev: Event, s: Symbol)
    requires s in Apply(st, ev).symbols
    ensures var e := Apply(st, ev).symbols[s];
            && ScopesOf(e) == ScopesAfter(EntryOf(st.symbols, s), ev, s, st.historyFill)
            && e.activeBatches == OpenAfter(EntryOf(st.symbols, s), ev, s)
  {
    hide Apply;
    match ev
    case BatchStarted(_, _, _, _) => ApplyBatchEntry(st, ev, s);
    case Telemetry(_, _, _, _, _) => ApplyBatchEntry(st, ev, s);
    case BatchFinished(_, _, _, _) => ApplyFinishEntry(st, ev, s);
    case BatchFailed(_, _, _, _) => ApplyBatchEntry(st, ev, s);
    case _ => ApplyOtherEntry(st, ev, s);
  }

  lemma ApplyBatchEntry(st: State, ev: Event, s: Symbol)
    requires ev.BatchStarted? || ev.Telemetry? || ev.BatchFailed?
    requires s in Apply(st, ev).symbols
    ensures var e := Apply(st, ev).symbols[s];
            && ScopesOf(e) == ScopesAfter(EntryOf(st.symbols, s), ev, s, st.historyFill)
            && e.activeBatches == OpenAfter(EntryOf(st.symbols, s), ev, s)
  {
    hide FreshCounts, CompletedHistoryRange, FinishRows, WithRows;
    WithRowsKeepsEntry();
  }

  lemma ApplyFinishEntry(st: State, ev: Event, s: Symbol)
    requires ev.BatchFinished? && s in Apply(st, ev).symbols
    ensures var e := Apply(st, ev).symbols[s];
            && ScopesOf(e) == ScopesAfter(EntryOf(st.symbols, s), ev, s, st.historyFill)
            && e.activeBatches == OpenAfter(EntryOf(st.symbols, s), ev, s)
  {
    hide FreshCounts, FinishRows, WithRows;
    WithRowsKeepsEntry();
  }

  lemma WithRowsKeepsEntry()
    ensures forall e: SymbolProgress, key: StreamKey, rows: nat ::
      ScopesOf(WithRows(e, key, rows)) == ScopesOf(e) && WithRows(e, key, rows).activeBatches == e.activeBatches
  {
  }

  lemma ApplyOtherEntry(st: State, ev: Event, s: Symbol)
    requires !ev.BatchStarted? && !ev.Telemetry? && !ev.BatchFinished? && !ev.BatchFailed?
    requires s in Apply(st, ev).symbols
    ensures var e := Apply(st, ev).symbols[s];
            && ScopesOf(e) == ScopesAfter(EntryOf(st.symbols, s), ev, s, st.historyFill)
            && e.activeBatches == OpenAfter(EntryOf(st.symbols, s), ev, s)
  {
    hide FreshCounts, Days, ScopedSymbols;
    match ev
    case SetScopes(scopes) =>
      ScopedSymbolsAt(st.symbols, scopes, s);
      ScopedByKeepsOpen(EntryOf(st.symbols, s), scopes, s);
    case _ =>
  }

  lemma OpenAfterAlike(a: SymbolProgress, b: SymbolProgress, ev: Event, s: Symbol, batch: nat)
    requires a.activeBatches - {batch} == b.activeBatches - {batch}
    ensures OpenAfter(a, ev, s) - {batch} == OpenAfter(b, ev, s) - {batch}
  {
    if ev.BatchStarted? || ev.Telemetry? || ev.BatchFinished? || ev.BatchFailed? {
      var x, y, own, out := a.activeBatches, b.activeBatches, {ev.batch}, {batch};
      assert (x + own) - out == (x - out) + (own - out) && (y + own) - out == (y - out) + (own - out);
      assert (x - own) - out == (x - out) - own && (y - own) - out == (y - out) - own;
    }
  }

  /** The effect depends on the scopes and the open batches only. */
  lemma {:induction false} ScopedAlike(a: SymbolProgress, b: SymbolProgress, scopes: seq<(Symbol, Range)>, s: Symbol)
    requires ScopesOf(a) == ScopesOf(b)
    ensures ScopesOf(ScopedBy(a, scopes, s)) == ScopesOf(ScopedBy(b, scopes, s))
  {
    if scopes != [] { ScopedAlike(a, b, scopes[..|scopes| - 1], s); }
  }

  lemma ScopesAfterAlike(a: SymbolProgress, b: SymbolProgress, ev: Event, s: Symbol, historyFill: bool)
    requires ScopesOf(a) == ScopesOf(b)
    ensures ScopesAfter(a, ev, s, historyFill) == ScopesAfter(b, ev, s, historyFill)
  {
    if ev.SetScopes? && !historyFill { ScopedAlike(a, b, ev.scopes, s); }
  }
}
