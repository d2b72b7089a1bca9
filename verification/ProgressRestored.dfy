/** When failing a batch restores everything that is shown of a symbol, not only what it received. */
module ProgressRestored {
  import opened Wrappers
  import opened Ranges
  import opened DayCounting
  import opened ProgressSpec
  import opened ProgressRuns
  import opened ProgressEntries
  import opened ProgressFailures

  /** At every moment both runs have begun their history fill, or neither has. */
  ghost predicate FillsAlike(st: State, events: seq<Event>, batch: nat, r: Range) {
    Run(st, events).historyFill == Run(st, WithoutTelemetry(events, batch, r)).historyFill
    && (events == [] || FillsAlike(st, events[..|events| - 1], batch, r))
  }

  ghost predicate SameScopes(a: State, b: State, s: Symbol) {
    ScopesOf(EntryOf(a.symbols, s)) == ScopesOf(EntryOf(b.symbols, s))
  }

  lemma ScopesStep(a: State, b: State, ev: Event, s: Symbol)
    requires SameScopes(a, b, s) && a.historyFill == b.historyFill
    requires s in Apply(a, ev).symbols <==> s in Apply(b, ev).symbols
    ensures SameScopes(Apply(a, ev), Apply(b, ev), s)
  {
    hide Apply, ScopesAfter;
    if s in Apply(a, ev).symbols {
      ApplyEntry(a, ev, s);
      ApplyEntry(b, ev, s);
      ScopesAfterAlike(EntryOf(a.symbols, s), EntryOf(b.symbols, s), ev, s, a.historyFill);
    }
  }

  lemma OwnTelemetryScopesStep(a: State, b: State, ev: Event, s: Symbol)
    requires SameScopes(a, b, s) && ev.Telemetry?
    requires s in Apply(a, ev).symbols <==> s in a.symbols
    ensures SameScopes(Apply(a, ev), b, s)
  {
    hide Apply;
    if s in Apply(a, ev).symbols {
      ApplyEntry(a, ev, s);
    }
  }

  lemma {:induction false} RunsAgreeOnScopes(st: State, events: seq<Event>, s: Symbol, batch: nat, r: Range)
    requires NeverSplits(st, events, s, batch, r) && FillsAlike(st, events, batch, r)
    ensures SameScopes(Run(st, events), Run(st, WithoutTelemetry(events, batch, r)), s)
  {
    hide SameScopes, Apply, Splits, AgreeApart;
    RunsAgree(st, events, s, batch, r);
    if events == [] {
      ScopesAgreeWithThemselves(st, s);
    } else {
      var init, last := events[..|events| - 1], events[|events| - 1];
      var a, b := Run(st, init), Run(st, WithoutTelemetry(init, batch, r));
      RunsAgreeOnScopes(st, init, s, batch, r);
      RunsAgree(st, init, s, batch, r);
      if IsBatchTelemetry(last, batch, r) {
        OwnTelemetryScopesStep(a, b, last, s);
      } else {
        RunStep(st, WithoutTelemetry(init, batch, r), last);
        ScopesStep(a, b, last, s);
      }
    }
  }

  lemma ScopesAgreeWithThemselves(st: State, s: Symbol)
    ensures SameScopes(st, st, s)
  {
  }

  /** Failing the batch leaves all that is shown of `s`, and its scopes and durability windows, as if the
      batch had never sent telemetry. */
  ghost predicate Restored(st: State, events: seq<Event>, s: Symbol, batch: nat, r: Range,
                           listed: seq<Symbol>, message: string)
  {
    var fail := BatchFailed(batch, r, listed, message);
    var a := Apply(Run(st, events), fail);
    var b := Apply(Run(st, WithoutTelemetry(events, batch, r)), fail);
    && Forgotten(st, events, s, batch, r, listed, message)
    && (s in a.symbols && s in b.symbols ==>
          SameScopes(a, b, s) && Shown(a.symbols[s]) == Shown(b.symbols[s]))
  }

  lemma FailureRestores(st: State, events: seq<Event>, s: Symbol, batch: nat, r: Range,
                        listed: seq<Symbol>, message: string)
    requires s in listed && NeverSplits(st, events, s, batch, r) && FillsAlike(st, events, batch, r)
    ensures Restored(st, events, s, batch, r, listed, message)
  {
    hide Run, WithoutTelemetry, FillsAlike, NeverSplits, Forgotten, SameScopes;
    FailureForgetsTelemetry(st, events, s, batch, r, listed, message);
    RunsAgreeOnScopes(st, events, s, batch, r);
    RunsAgree(st, events, s, batch, r);
    RestoredCounts(Run(st, events), Run(st, WithoutTelemetry(events, batch, r)), s, batch, r, listed, message);
  }

  lemma RestoredCounts(a: State, b: State, s: Symbol, batch: nat, r: Range, listed: seq<Symbol>, message: string)
    requires s in listed && Agree(a, b, s, BatchRange(batch, r)) && SameScopes(a, b, s)
    ensures var fail := BatchFailed(batch, r, listed, message);
            var x, y := Apply(a, fail), Apply(b, fail);
            s in x.symbols && s in y.symbols ==>
              SameScopes(x, y, s) && Shown(x.symbols[s]) == Shown(y.symbols[s])
  {
    hide DayCount;
  }

  // ---- ledgers of a history fill, and well-formed runs ----

  lemma {:induction false} FillStaysBegun(st: State, events: seq<Event>)
    requires st.historyFill
    ensures Run(st, events).historyFill
  {
    hide Apply;
    if events != [] {
      FillStaysBegun(st, events[..|events| - 1]);
      Context(Run(st, events[..|events| - 1]), events[|events| - 1]);
    }
  }

  lemma {:induction false} BegunFillsAreAlike(st: State, events: seq<Event>, batch: nat, r: Range)
    requires st.historyFill
    ensures FillsAlike(st, events, batch, r)
  {
    hide Run, WithoutTelemetry;
    FillStaysBegun(st, events);
    FillStaysBegun(st, WithoutTelemetry(events, batch, r));
    if events != [] { BegunFillsAreAlike(st, events[..|events| - 1], batch, r); }
  }

  lemma {:induction false} WellFormedFillsAreAlike(events: seq<Event>, batch: nat, r: Range)
    requires WellFormed(events)
    ensures FillsAlike(INITIAL, events, batch, r)
  {
    hide Run, WithoutTelemetry;
    WellFormedNeverSplits(events, "", batch, r);
    RunsAgree(INITIAL, events, "", batch, r);
    if Run(INITIAL, events).historyFill {
      WellFormedFillsBeginAlike(events, batch, r);
    }
    if events != [] { WellFormedFillsAreAlike(events[..|events| - 1], batch, r); }
  }

  /** In a well-formed run from the empty ledger, failing a batch restores all counts of the symbols it lists. */
  lemma WellFormedFailureRestores(events: seq<Event>, s: Symbol, batch: nat, r: Range,
                                  listed: seq<Symbol>, message: string)
    requires WellFormed(events) && s in listed
    ensures Restored(INITIAL, events, s, batch, r, listed, message)
  {
    WellFormedNeverSplits(events, s, batch, r);
    WellFormedFillsAreAlike(events, batch, r);
    FailureRestores(INITIAL, events, s, batch, r, listed, message);
  }

  // ---- over all runs from a ledger ----

  lemma {:induction false} FreshRange(rs: seq<Range>) returns (bound: int)
    ensures forall i :: 0 <= i < |rs| ==> rs[i].0 < bound
  {
    if rs == [] {
      bound := 0;
    } else {
      var rest := FreshRange(rs[1..]);
      bound := if rs[0].0 < rest then rest else rs[0].0 + 1;
      assert forall i :: 1 <= i < |rs| ==> rs[i] == rs[1..][i - 1];
    }
  }

  /** Before a history fill the telemetry begins one, and scopes that come next are lost on the ledger. */
  lemma LostScopes(st: State, s: Symbol, batch: nat, r: Range, message: string) returns (events: seq<Event>)
    requires s in st.symbols && !st.historyFill
    ensures !Restored(st, events, s, batch, r, [s], message)
  {
    hide Apply, Forgotten, Run, WithoutTelemetry;
    var bound := FreshRange(st.symbols[s].requestedRanges);
    var unseen: Range := (bound, bound);
    var stream, scopes := Telemetry(batch, r, s, 0, None), SetScopes([(s, unseen)]);
    var fail := BatchFailed(batch, r, [s], message);
    events := [stream, scopes];
    TwoEventRuns(st, stream, scopes, batch, r);
    var a, b := Apply(Apply(st, stream), scopes), Apply(st, scopes);
    Context(st, stream);
    ApplyReceipt(st, stream, s);
    ApplyReceipt(Apply(st, stream), scopes, s);
    ApplyReceipt(a, fail, s);
    ApplyReceipt(st, scopes, s);
    ApplyReceipt(b, fail, s);
    ApplyEntry(st, stream, s);
    ApplyEntry(Apply(st, stream), scopes, s);
    ApplyEntry(a, fail, s);
    ApplyEntry(st, scopes, s);
    ApplyEntry(b, fail, s);
    OneScope(st.symbols[s], s, unseen);
    assert unseen !in st.symbols[s].requestedRanges;
    assert unseen in Apply(b, fail).symbols[s].requestedRanges;
  }

  lemma OneScope(e: SymbolProgress, s: Symbol, r: Range)
    ensures ScopedBy(e, [(s, r)], s) == Scoped(e, r)
  {
    assert [(s, r)][..0] == [];
    assert ScopedBy(e, [(s, r)][..0], s) == e;
  }

  /** Over all runs from a ledger, failures restore what is shown of `s` exactly when the ledger knows `s` and
      is one of a history fill. */
  lemma FailureRestoresEveryRunIff(st: State, s: Symbol, batch: nat, r: Range)
    ensures (forall events, listed, message :: s in listed ==> Restored(st, events, s, batch, r, listed, message))
       <==> s in st.symbols && st.historyFill
  {
    hide Restored, Forgotten;
    if s in st.symbols && st.historyFill {
      forall events, listed, message | s in listed ensures Restored(st, events, s, batch, r, listed, message) {
        KnownIsNeverSplit(st, events, s, batch, r);
        BegunFillsAreAlike(st, events, batch, r);
        FailureRestores(st, events, s, batch, r, listed, message);
      }
    } else if s in st.symbols {
      var events := LostScopes(st, s, batch, r, "");
      assert s in [s] && !Restored(st, events, s, batch, r, [s], "");
    } else {
      FailureOfUnknownSymbolLeavesTrace(st, s, batch, r, r, "");
      var events := [Telemetry(batch, r, s, 0, None), BatchFinished(batch + 1, r, [s], 0)];
      RestoredIsForgotten(st, events, s, batch, r, [s], "");
      assert s in [s] && !Restored(st, events, s, batch, r, [s], "");
    }
  }

  lemma RestoredIsForgotten(st: State, events: seq<Event>, s: Symbol, batch: nat, r: Range,
                            listed: seq<Symbol>, message: string)
    ensures Restored(st, events, s, batch, r, listed, message) ==> Forgotten(st, events, s, batch, r, listed, message)
  {
    hide Forgotten;
  }
}
