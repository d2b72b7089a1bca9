/** The switch from day sets to cached counts when a history fill begins. */
module ProgressSwitch {
  import opened Wrappers
  import opened Ranges
  import opened DayCounting
  import opened Lists
  import opened ProgressSpec
  import opened ProgressState

  /** The symbol's day sets are those of its range lists under the calendar. */
  ghost predicate SetsCurrent(e: SymbolProgress, calendar: Calendar) {
    Relisted(e, calendar).daySets == e.daySets
  }

  ghost predicate BeforeFill(st: State) {
    !st.historyFill && forall s :: s in st.symbols ==>
      SetsCurrent(st.symbols[s], st.calendar) && NothingReceived(st.symbols[s])
  }

  /** Everything requested is still missing. */
  ghost predicate NothingReceived(e: SymbolProgress) {
    e.requestedRanges == e.missingRanges && e.daySets.received == {}
  }

  lemma NewIsCurrent(calendar: Calendar)
    ensures SetsCurrent(NEW_SYMBOL, calendar) && NothingReceived(NEW_SYMBOL)
  {
    assert Elements<Range>([]) == {} && PartitionDays({}) == {};
  }

  lemma {:induction false} ScopesReceiveNothing(m: map<Symbol, SymbolProgress>, scopes: seq<(Symbol, Range)>)
    requires forall s :: s in m ==> NothingReceived(m[s])
    ensures forall s :: s in ScopedSymbols(m, scopes) ==> NothingReceived(ScopedSymbols(m, scopes)[s])
  {
    if scopes != [] {
      var init, last := scopes[..|scopes| - 1], scopes[|scopes| - 1];
      ScopesReceiveNothing(m, init);
      var before := ScopedSymbols(m, init);
      assert NothingReceived(EntryOf(before, last.0));
      assert NothingReceived(Scoped(EntryOf(before, last.0), last.1));
      assert ScopedSymbols(m, scopes) == before[last.0 := Scoped(EntryOf(before, last.0), last.1)];
    }
  }

  lemma StepKeepsBeforeFill(st: State, ev: Event)
    requires BeforeFill(st) && !Apply(st, ev).historyFill
    ensures BeforeFill(Apply(st, ev))
  {
    hide Relisted, FreshCounts, SetsCurrent, NothingReceived, ScopedSymbols, WithDurability;
    var after := Apply(st, ev);
    match ev
    case SetScopes(scopes) =>
      ScopesReceiveNothing(st.symbols, scopes);
      RelistedIsBeforeFill(ScopedSymbols(st.symbols, scopes), st.calendar);
    case CalendarReady(days) => RelistedIsBeforeFill(st.symbols, Some(days));
    case DurabilityReport(owner, d) =>
      NewIsCurrent(st.calendar);
      DurabilityKeepsSets(EntryOf(st.symbols, owner), d, st.calendar);
    case _ =>
  }

  lemma RelistedIsBeforeFill(m: map<Symbol, SymbolProgress>, calendar: Calendar)
    requires forall s :: s in m ==> NothingReceived(m[s])
    ensures forall s :: s in m ==>
      SetsCurrent(RelistedSymbols(m, calendar)[s], calendar) && NothingReceived(RelistedSymbols(m, calendar)[s])
  {
    hide Days;
  }

  lemma DurabilityKeepsSets(e: SymbolProgress, d: Durability, calendar: Calendar)
    requires SetsCurrent(e, calendar) && NothingReceived(e)
    ensures SetsCurrent(Recounted(WithDurability(e, d), calendar), calendar)
    ensures NothingReceived(Recounted(WithDurability(e, d), calendar))
  {
    hide Days, FreshCounts;
  }

  lemma {:induction false} RunKeepsBeforeFill(events: seq<Event>)
    requires !Run(INITIAL, events).historyFill
    ensures BeforeFill(Run(INITIAL, events))
  {
    hide Apply, SetsCurrent;
    if events != [] {
      var init, last := events[..|events| - 1], events[|events| - 1];
      FillStays(Run(INITIAL, init), last);
      RunKeepsBeforeFill(init);
      StepKeepsBeforeFill(Run(INITIAL, init), last);
    }
  }

  lemma FillStays(st: State, ev: Event)
    ensures st.historyFill ==> Apply(st, ev).historyFill
  {
    hide FreshCounts, FinishRows;
  }

  /** Before a history fill the sizes shown for a symbol are at most the counts that planning will put in
      their place; planned and missing days stay the same exactly when no counted day is listed twice. */
  lemma PlanningKeepsShownDays(events: seq<Event>, total: nat, s: Symbol)
    requires !Run(INITIAL, events).historyFill && s in Run(INITIAL, events).symbols
    ensures var before := Run(INITIAL, events);
            var after := Apply(before, Planning(total));
            var was, now := ShownCounts(before.symbols[s], false), ShownCounts(after.symbols[s], after.historyFill);
            var ranges := Elements(before.symbols[s].requestedRanges);
            && s in after.symbols && after.historyFill
            && was.covered == 0 == was.received && was.planned == was.missing <= now.planned == now.missing
            && (was.planned == now.planned <==>
                  before.calendar.None? || Distinct(Hits(before.calendar.value, PartitionDays(ranges))))
  {
    hide Days, DayCount, PartitionDays, Hits;
    var before := Run(INITIAL, events);
    RunKeepsBeforeFill(events);
    DayCountIsDaySetSize(Elements(before.symbols[s].requestedRanges), before.calendar);
  }
}
