/** Failing a batch: the ledger is left as if the batch's telemetry had never come in. */
module ProgressFailures {
  import opened Wrappers
  import opened Ranges
  import opened DayCounting
  import opened ProgressSpec
  import opened ProgressRuns
  import opened ProgressEntries

  ghost predicate IsBatchTelemetry(ev: Event, batch: nat, r: Range) {
    ev.Telemetry? && ev.batch == batch && ev.range == r
  }

  /** The run with the telemetry of one batch taken out. */
  ghost function WithoutTelemetry(events: seq<Event>, batch: nat, r: Range): seq<Event> {
    if events == [] then []
    else
      var init, last := WithoutTelemetry(events[..|events| - 1], batch, r), events[|events| - 1];
      if IsBatchTelemetry(last, batch, r) then init else init + [last]
  }

  /** Two ledgers agree on what `s` has received, apart from one batch's stream. */
  ghost predicate AgreeApart(a: State, b: State, s: Symbol, key: BatchRange) {
    && s in a.symbols && s in b.symbols
    && a.calendar == b.calendar
    && a.symbols[s].receivedRanges == b.symbols[s].receivedRanges
    && a.symbols[s].streamedRanges - {key} == b.symbols[s].streamedRanges - {key}
  }

  lemma WithoutStep(events: seq<Event>, ev: Event, batch: nat, r: Range)
    ensures WithoutTelemetry(events + [ev], batch, r) ==
            WithoutTelemetry(events, batch, r) + if IsBatchTelemetry(ev, batch, r) then [] else [ev]
  {
    assert (events + [ev])[..|events|] == events;
  }

  lemma SameEventKeepsAgreement(a: State, b: State, ev: Event, s: Symbol, key: BatchRange)
    requires AgreeApart(a, b, s, key)
    ensures AgreeApart(Apply(a, ev), Apply(b, ev), s, key)
  {
    hide Apply, Streamed, Closed;
    ApplyReceipt(a, ev, s);
    ApplyReceipt(b, ev, s);
    match ev
    case Telemetry(batch, r, _, rows, cursor) =>
      StreamedAgrees(a.symbols[s], b.symbols[s], batch, r, rows, cursor, key);
    case BatchFinished(batch, r, _, _) => ClosedAgrees(a.symbols[s], b.symbols[s], batch, r, key);
    case BatchFailed(batch, r, _, _) => ClosedAgrees(a.symbols[s], b.symbols[s], batch, r, key);
    case _ =>
  }

  lemma StreamedAgrees(a: SymbolProgress, b: SymbolProgress, batch: nat, r: Range, rows: nat, cursor: Option<int>,
                       key: BatchRange)
    requires a.streamedRanges - {key} == b.streamedRanges - {key}
    ensures Streamed(a, batch, r, rows, cursor).streamedRanges - {key}
       == Streamed(b, batch, r, rows, cursor).streamedRanges - {key}
    ensures Streamed(a, batch, r, rows, cursor).receivedRanges == a.receivedRanges
    ensures Streamed(b, batch, r, rows, cursor).receivedRanges == b.receivedRanges
  {
    hide CompletedHistoryRange;
    var own, x, y := BatchRange(batch, r), a.streamedRanges, b.streamedRanges;
    if own != key {
      assert own in x - {key} <==> own in y - {key};
      assert own in x ==> (x - {key})[own] == (y - {key})[own];
    }
    UpdateApart(x, own, Streamed(a, batch, r, rows, cursor).streamedRanges, key);
    UpdateApart(y, own, Streamed(b, batch, r, rows, cursor).streamedRanges, key);
  }

  lemma UpdateApart(m: map<BatchRange, int>, own: BatchRange, n: map<BatchRange, int>, key: BatchRange)
    requires own in n ==> n == m[own := n[own]]
    ensures own in n ==> n - {key} == if own == key then m - {key} else (m - {key})[own := n[own]]
  {
  }

  lemma ClosedAgrees(a: SymbolProgress, b: SymbolProgress, batch: nat, r: Range, key: BatchRange)
    requires a.streamedRanges - {key} == b.streamedRanges - {key}
    ensures Closed(a, batch, r).streamedRanges - {key} == Closed(b, batch, r).streamedRanges - {key}
  {
    var own := BatchRange(batch, r);
    assert Closed(a, batch, r).streamedRanges - {key} == a.streamedRanges - {key} - {own};
    assert Closed(b, batch, r).streamedRanges - {key} == b.streamedRanges - {key} - {own};
  }

  lemma TelemetryKeepsAgreement(a: State, b: State, ev: Event, s: Symbol, key: BatchRange)
    requires AgreeApart(a, b, s, key) && IsBatchTelemetry(ev, key.batch, key.range)
    ensures AgreeApart(Apply(a, ev), b, s, key)
  {
    hide FreshCounts, CompletedHistoryRange;
    if ev.symbol == s {
      var after := Streamed(a.symbols[s], ev.batch, ev.range, ev.rows, ev.cursor);
      assert after.streamedRanges - {key} == a.symbols[s].streamedRanges - {key};
    }
  }

  // ---- when both runs know the symbol ----

  ghost predicate ScopesName(scopes: seq<(Symbol, Range)>, s: Symbol) {
    exists i :: 0 <= i < |scopes| && scopes[i].0 == s
  }

  /** An unknown symbol becomes known to one of the runs only: `a` has seen the batch's telemetry, `b` has
      not. Either that telemetry itself introduces the symbol, or scopes name it that only `b` still takes,
      because the telemetry alone has begun a history fill. */
  ghost predicate Splits(a: State, b: State, ev: Event, s: Symbol, batch: nat, r: Range) {
    && s !in a.symbols
    && (|| (IsBatchTelemetry(ev, batch, r) && ev.symbol == s)
        || (ev.SetScopes? && ScopesName(ev.scopes, s) && a.historyFill && !b.historyFill))
  }

  ghost predicate NeverSplits(st: State, events: seq<Event>, s: Symbol, batch: nat, r: Range) {
    events == [] ||
    (var init := events[..|events| - 1];
     && NeverSplits(st, init, s, batch, r)
     && !Splits(Run(st, init), Run(st, WithoutTelemetry(init, batch, r)), events[|events| - 1], s, batch, r))
  }

  /** Both ledgers know the symbol and agree on it, or neither knows it. */
  ghost predicate Agree(a: State, b: State, s: Symbol, key: BatchRange) {
    && (b.historyFill ==> a.historyFill)
    && a.calendar == b.calendar
    && (s in a.symbols <==> s in b.symbols)
    && (s in a.symbols ==> AgreeApart(a, b, s, key))
  }

  lemma {:induction false} ScopedSymbolsIntroduce(m: map<Symbol, SymbolProgress>, scopes: seq<(Symbol, Range)>,
                                                  s: Symbol)
    requires s !in m
    ensures var after := ScopedSymbols(m, scopes);
            && (s in after <==> ScopesName(scopes, s))
            && (s in after ==> after[s].receivedRanges == [] && after[s].streamedRanges == map[])
  {
    if scopes != [] {
      var init, last := scopes[..|scopes| - 1], scopes[|scopes| - 1];
      ScopedSymbolsIntroduce(m, init, s);
      assert scopes == init + [last];
      assert ScopesName(scopes, s) <==> ScopesName(init, s) || last.0 == s;
    }
  }

  /** Whether an event makes an unknown symbol known. */
  ghost predicate Introduces(st: State, ev: Event, s: Symbol) {
    match ev
    case SetScopes(scopes) => !st.historyFill && ScopesName(scopes, s)
    case DurabilityReport(owner, _) => owner == s
    case BatchStarted(_, _, _, symbols) => s in symbols
    case Telemetry(_, _, symbol, _, _) => symbol == s
    case _ => false
  }

  /** What a newly introduced symbol has streamed. */
  ghost function FirstStreams(ev: Event): map<BatchRange, int> {
    if ev.Telemetry? then Streamed(NEW_SYMBOL, ev.batch, ev.range, ev.rows, ev.cursor).streamedRanges else map[]
  }

  lemma UnknownAfter(st: State, ev: Event, s: Symbol)
    requires s !in st.symbols
    ensures s in Apply(st, ev).symbols <==> Introduces(st, ev, s)
    ensures s in Apply(st, ev).symbols ==>
      && Apply(st, ev).symbols[s].receivedRanges == []
      && Apply(st, ev).symbols[s].streamedRanges == FirstStreams(ev)
  {
    hide FreshCounts, CompletedHistoryRange, Days, ScopedSymbols;
    match ev
    case SetScopes(scopes) => ScopedSymbolsIntroduce(st.symbols, scopes, s);
    case BatchFinished(_, _, _, _) => UnknownStaysUnknown(ev, s);
    case _ =>
  }

  lemma Context(st: State, ev: Event)
    ensures Apply(st, ev).calendar == if ev.CalendarReady? then Some(ev.days) else st.calendar
    ensures Apply(st, ev).historyFill
       <==> st.historyFill || !(ev.SetScopes? || ev.CalendarReady? || ev.DurabilityReport?)
  {
    hide FreshCounts, FinishRows;
  }

  /** An event seen by both runs keeps them in agreement, unless it splits them. */
  lemma SameEventKeepsAgree(a: State, b: State, ev: Event, s: Symbol, key: BatchRange)
    requires Agree(a, b, s, key)
    requires !IsBatchTelemetry(ev, key.batch, key.range) && !Splits(a, b, ev, s, key.batch, key.range)
    ensures Agree(Apply(a, ev), Apply(b, ev), s, key)
  {
    hide Apply, FirstStreams;
    Context(a, ev);
    Context(b, ev);
    if s in a.symbols {
      SameEventKeepsAgreement(a, b, ev, s, key);
    } else {
      UnknownAfter(a, ev, s);
      UnknownAfter(b, ev, s);
    }
  }

  /** Telemetry that only one run sees keeps them in agreement, unless it introduces the symbol. */
  lemma OwnTelemetryKeepsAgree(a: State, b: State, ev: Event, s: Symbol, key: BatchRange)
    requires Agree(a, b, s, key)
    requires IsBatchTelemetry(ev, key.batch, key.range) && !Splits(a, b, ev, s, key.batch, key.range)
    ensures Agree(Apply(a, ev), b, s, key)
  {
    hide Apply, AgreeApart;
    Context(a, ev);
    if s in a.symbols {
      TelemetryKeepsAgreement(a, b, ev, s, key);
      AgreementParts(Apply(a, ev), b, s, key);
    } else {
      UnknownAfter(a, ev, s);
    }
  }

  lemma AgreementParts(a: State, b: State, s: Symbol, key: BatchRange)
    requires AgreeApart(a, b, s, key)
    ensures s in a.symbols && s in b.symbols
  {
  }

  lemma {:induction false} RunsAgree(st: State, events: seq<Event>, s: Symbol, batch: nat, r: Range)
    requires NeverSplits(st, events, s, batch, r)
    ensures Agree(Run(st, events), Run(st, WithoutTelemetry(events, batch, r)), s, BatchRange(batch, r))
  {
    hide Agree, Apply, Splits;
    var key := BatchRange(batch, r);
    if events == [] {
      AgreesWithItself(st, s, key);
    } else {
      var init, last := events[..|events| - 1], events[|events| - 1];
      var a, b := Run(st, init), Run(st, WithoutTelemetry(init, batch, r));
      RunsAgree(st, init, s, batch, r);
      if IsBatchTelemetry(last, batch, r) {
        OwnTelemetryKeepsAgree(a, b, last, s, key);
      } else {
        SameEventKeepsAgree(a, b, last, s, key);
        RunStep(st, WithoutTelemetry(init, batch, r), last);
      }
    }
  }

  lemma AgreesWithItself(st: State, s: Symbol, key: BatchRange)
    ensures Agree(st, st, s, key)
  {
  }

  /** The batches open for `s` are the same but for `batch`. */
  ghost predicate SameOpenApart(a: State, b: State, s: Symbol, batch: nat) {
    EntryOf(a.symbols, s).activeBatches - {batch} == EntryOf(b.symbols, s).activeBatches - {batch}
  }

  lemma OpenStep(a: State, b: State, ev: Event, s: Symbol, batch: nat)
    requires SameOpenApart(a, b, s, batch)
    requires s in Apply(a, ev).symbols <==> s in Apply(b, ev).symbols
    ensures SameOpenApart(Apply(a, ev), Apply(b, ev), s, batch)
  {
    hide Apply;
    if s in Apply(a, ev).symbols {
      ApplyEntry(a, ev, s);
      ApplyEntry(b, ev, s);
      OpenAfterAlike(EntryOf(a.symbols, s), EntryOf(b.symbols, s), ev, s, batch);
    }
  }

  lemma OwnTelemetryOpenStep(a: State, b: State, ev: Event, s: Symbol, key: BatchRange)
    requires SameOpenApart(a, b, s, key.batch) && IsBatchTelemetry(ev, key.batch, key.range)
    requires s in Apply(a, ev).symbols <==> s in a.symbols
    ensures SameOpenApart(Apply(a, ev), b, s, key.batch)
  {
    hide Apply;
    if s in Apply(a, ev).symbols {
      ApplyEntry(a, ev, s);
    }
  }

  lemma {:induction false} RunsAgreeOnOpen(st: State, events: seq<Event>, s: Symbol, batch: nat, r: Range)
    requires NeverSplits(st, events, s, batch, r)
    ensures SameOpenApart(Run(st, events), Run(st, WithoutTelemetry(events, batch, r)), s, batch)
  {
    hide SameOpenApart, Apply, Splits, AgreeApart;
    var key := BatchRange(batch, r);
    RunsAgree(st, events, s, batch, r);
    if events == [] {
      OpenAgreesWithItself(st, s, batch);
    } else {
      var init, last := events[..|events| - 1], events[|events| - 1];
      var a, b := Run(st, init), Run(st, WithoutTelemetry(init, batch, r));
      RunsAgreeOnOpen(st, init, s, batch, r);
      RunsAgree(st, init, s, batch, r);
      if IsBatchTelemetry(last, batch, r) {
        OwnTelemetryOpenStep(a, b, last, s, key);
      } else {
        RunStep(st, WithoutTelemetry(init, batch, r), last);
        OpenStep(a, b, last, s, batch);
      }
    }
  }

  lemma OpenAgreesWithItself(st: State, s: Symbol, batch: nat)
    ensures SameOpenApart(st, st, s, batch)
  {
  }

  // ---- what a failure leaves ----

  /** Failing the batch after these events leaves `s` as if the batch had never sent telemetry: unknown in
      both cases, or with the same received ranges, the same streams and the same shown counts of them, the
      same batches open and the same activity. */
  ghost predicate Forgotten(st: State, events: seq<Event>, s: Symbol, batch: nat, r: Range,
                            listed: seq<Symbol>, message: string)
  {
    var fail := BatchFailed(batch, r, listed, message);
    var a := Apply(Run(st, events), fail);
    var b := Apply(Run(st, WithoutTelemetry(events, batch, r)), fail);
    && (s in a.symbols <==> s in b.symbols)
    && (s in a.symbols ==>
          && a.symbols[s].receivedRanges == b.symbols[s].receivedRanges
          && a.symbols[s].streamedRanges == b.symbols[s].streamedRanges
          && Shown(a.symbols[s]).received == Shown(b.symbols[s]).received
          && Shown(a.symbols[s]).covered == Shown(b.symbols[s]).covered
          && a.symbols[s].activeBatches == b.symbols[s].activeBatches
          && a.symbols[s].active == b.symbols[s].active)
  }

  /** A failed batch is forgotten for every symbol it lists that was never split. */
  lemma FailureForgetsTelemetry(st: State, events: seq<Event>, s: Symbol, batch: nat, r: Range,
                                listed: seq<Symbol>, message: string)
    requires s in listed && NeverSplits(st, events, s, batch, r)
    ensures Forgotten(st, events, s, batch, r, listed, message)
  {
    RunsAgree(st, events, s, batch, r);
    RunsAgreeOnOpen(st, events, s, batch, r);
    AgreeingFailures(Run(st, events), Run(st, WithoutTelemetry(events, batch, r)), s, batch, r, listed, message);
  }

  lemma AgreeingFailures(a: State, b: State, s: Symbol, batch: nat, r: Range, listed: seq<Symbol>, message: string)
    requires s in listed && Agree(a, b, s, BatchRange(batch, r)) && SameOpenApart(a, b, s, batch)
    ensures var fail := BatchFailed(batch, r, listed, message);
            var x, y := Apply(a, fail), Apply(b, fail);
            && (s in x.symbols <==> s in y.symbols)
            && (s in x.symbols ==>
                  && x.symbols[s].receivedRanges == y.symbols[s].receivedRanges
                  && x.symbols[s].streamedRanges == y.symbols[s].streamedRanges
                  && Shown(x.symbols[s]).received == Shown(y.symbols[s]).received
                  && Shown(x.symbols[s]).covered == Shown(y.symbols[s]).covered
                  && x.symbols[s].activeBatches == y.symbols[s].activeBatches
                  && x.symbols[s].active == y.symbols[s].active)
  {
    hide DayCount;
  }

  /** A split shows at once: a failure right after it finds the symbol in one ledger only. */
  lemma SplitIsNotForgotten(st: State, events: seq<Event>, ev: Event, s: Symbol, batch: nat, r: Range,
                            listed: seq<Symbol>, message: string)
    requires NeverSplits(st, events, s, batch, r)
    requires Splits(Run(st, events), Run(st, WithoutTelemetry(events, batch, r)), ev, s, batch, r)
    ensures !Forgotten(st, events + [ev], s, batch, r, listed, message)
  {
    hide Apply, Run, WithoutTelemetry, AgreeApart, NeverSplits;
    var fail := BatchFailed(batch, r, listed, message);
    RunsAgree(st, events, s, batch, r);
    var a, b := Run(st, events), Run(st, WithoutTelemetry(events, batch, r));
    RunStep(st, events, ev);
    RunStep(st, WithoutTelemetry(events, batch, r), ev);
    WithoutStep(events, ev, batch, r);
    assert WithoutTelemetry(events, batch, r) + [] == WithoutTelemetry(events, batch, r);
    UnknownAfter(a, ev, s);
    UnknownAfter(b, ev, s);
    FailureKeepsKnown(Apply(a, ev), fail, s);
    FailureKeepsKnown(Apply(b, ev), fail, s);
    FailureKeepsKnown(b, fail, s);
  }

  lemma FailureKeepsKnown(st: State, fail: Event, s: Symbol)
    requires fail.BatchFailed?
    ensures s in Apply(st, fail).symbols <==> s in st.symbols
  {
    hide FreshCounts;
  }

  /** At whatever moment of a run a batch fails, it is forgotten for `s`: this holds if and only if no
      event of the run splits `s`. */
  lemma {:induction false} FailureForgetsAlongRunIff(st: State, events: seq<Event>, s: Symbol, batch: nat, r: Range,
                                                     listed: seq<Symbol>, message: string)
    requires s in listed
    ensures (forall k :: 0 <= k <= |events| ==> Forgotten(st, events[..k], s, batch, r, listed, message))
       <==> NeverSplits(st, events, s, batch, r)
  {
    hide Forgotten, Splits, Run, WithoutTelemetry;
    assert events[..|events|] == events;
    if events == [] {
      FailureForgetsTelemetry(st, events, s, batch, r, listed, message);
    } else {
      var init, last := events[..|events| - 1], events[|events| - 1];
      assert events == init + [last];
      FailureForgetsAlongRunIff(st, init, s, batch, r, listed, message);
      assert forall k :: 0 <= k <= |init| ==> init[..k] == events[..k];
      if NeverSplits(st, events, s, batch, r) {
        FailureForgetsTelemetry(st, events, s, batch, r, listed, message);
      } else if NeverSplits(st, init, s, batch, r) {
        SplitIsNotForgotten(st, init, last, s, batch, r, listed, message);
      }
    }
  }

  // ---- from a given ledger, over all runs ----

  lemma {:induction false} KnownStaysKnown(st: State, events: seq<Event>, s: Symbol)
    requires s in st.symbols
    ensures s in Run(st, events).symbols
  {
    hide Apply;
    if events != [] {
      KnownStaysKnown(st, events[..|events| - 1], s);
      ApplyReceipt(Run(st, events[..|events| - 1]), events[|events| - 1], s);
    }
  }

  lemma {:induction false} KnownIsNeverSplit(st: State, events: seq<Event>, s: Symbol, batch: nat, r: Range)
    requires s in st.symbols
    ensures NeverSplits(st, events, s, batch, r)
  {
    hide Run;
    if events != [] {
      KnownIsNeverSplit(st, events[..|events| - 1], s, batch, r);
      KnownStaysKnown(st, events[..|events| - 1], s);
    }
  }

  /** An unknown symbol introduced by the telemetry of a batch that then fails keeps what other batches
      delivered in between, and without that telemetry would not be in the ledger at all. */
  lemma FailureOfUnknownSymbolLeavesTrace(st: State, s: Symbol, batch: nat, r: Range, other: Range, message: string)
    requires s !in st.symbols
    ensures var stream, finish := Telemetry(batch, r, s, 0, None), BatchFinished(batch + 1, other, [s], 0);
            var fail := BatchFailed(batch, r, [s], message);
            var a := Apply(Run(st, [stream, finish]), fail);
            var b := Apply(Run(st, WithoutTelemetry([stream, finish], batch, r)), fail);
            && s in a.symbols && a.symbols[s].receivedRanges == [other] && s !in b.symbols
            && !Forgotten(st, [stream, finish], s, batch, r, [s], message)
  {
    hide Apply, Forgotten, Run, WithoutTelemetry;
    var stream, finish := Telemetry(batch, r, s, 0, None), BatchFinished(batch + 1, other, [s], 0);
    TwoEventRuns(st, stream, finish, batch, r);
    FinishedThenFailed(Apply(st, stream), st, s, batch, r, other, message, stream);
    TraceIsNotForgotten(st, [stream, finish], s, batch, r, [s], message);
  }

  lemma TwoEventRuns(st: State, stream: Event, finish: Event, batch: nat, r: Range)
    requires IsBatchTelemetry(stream, batch, r) && !IsBatchTelemetry(finish, batch, r)
    ensures Run(st, [stream, finish]) == Apply(Apply(st, stream), finish)
    ensures WithoutTelemetry([stream, finish], batch, r) == [finish]
    ensures Run(st, WithoutTelemetry([stream, finish], batch, r)) == Apply(st, finish)
  {
    hide Apply;
    RunStep(st, [], stream);
    RunStep(st, [stream], finish);
    RunStep(st, [], finish);
    assert [] + [stream] == [stream] && [stream] + [finish] == [stream, finish] && [] + [finish] == [finish];
    WithoutStep([], stream, batch, r);
    WithoutStep([stream], finish, batch, r);
  }

  lemma FinishedThenFailed(known: State, st: State, s: Symbol, batch: nat, r: Range, other: Range, message: string,
                           stream: Event)
    requires s !in st.symbols && stream == Telemetry(batch, r, s, 0, None) && known == Apply(st, stream)
    ensures var finish, fail := BatchFinished(batch + 1, other, [s], 0), BatchFailed(batch, r, [s], message);
            && s in Apply(Apply(known, finish), fail).symbols
            && Apply(Apply(known, finish), fail).symbols[s].receivedRanges == [other]
            && s !in Apply(Apply(st, finish), fail).symbols
  {
    hide Apply;
    var finish, fail := BatchFinished(batch + 1, other, [s], 0), BatchFailed(batch, r, [s], message);
    UnknownAfter(st, stream, s);
    ApplyReceipt(known, finish, s);
    ApplyReceipt(Apply(known, finish), fail, s);
    UnknownAfter(st, finish, s);
    UnknownAfter(Apply(st, finish), fail, s);
  }

  lemma TraceIsNotForgotten(st: State, events: seq<Event>, s: Symbol, batch: nat, r: Range,
                            listed: seq<Symbol>, message: string)
    requires var fail := BatchFailed(batch, r, listed, message);
             && s in Apply(Run(st, events), fail).symbols
             && s !in Apply(Run(st, WithoutTelemetry(events, batch, r)), fail).symbols
    ensures !Forgotten(st, events, s, batch, r, listed, message)
  {
    hide Apply, Run, WithoutTelemetry;
  }

  /** Over all runs from a ledger, failures forget the batch's telemetry for `s` exactly when the ledger
      already knows `s`. */
  lemma FailureForgetsEveryRunIff(st: State, s: Symbol, batch: nat, r: Range)
    ensures (forall events, listed, message :: s in listed ==> Forgotten(st, events, s, batch, r, listed, message))
       <==> s in st.symbols
  {
    hide Forgotten;
    if s in st.symbols {
      forall events, listed, message | s in listed ensures Forgotten(st, events, s, batch, r, listed, message) {
        KnownIsNeverSplit(st, events, s, batch, r);
        FailureForgetsTelemetry(st, events, s, batch, r, listed, message);
      }
    } else {
      FailureOfUnknownSymbolLeavesTrace(st, s, batch, r, r, "");
      var events := [Telemetry(batch, r, s, 0, None), BatchFinished(batch + 1, r, [s], 0)];
      assert s in [s] && !Forgotten(st, events, s, batch, r, [s], "");
    }
  }

  // ---- well-formed runs from the empty ledger ----

  /** A batch that is open was started by an event both runs see. */
  lemma {:induction false} OpenBatchBeganFill(events: seq<Event>, batch: nat, r: Range)
    requires OpenBatches(events) != map[]
    ensures Run(INITIAL, WithoutTelemetry(events, batch, r)).historyFill
  {
    hide Apply;
    var init, last := events[..|events| - 1], events[|events| - 1];
    if OpenBatches(init) != map[] {
      OpenBatchBeganFill(init, batch, r);
    } else {
      assert last.BatchStarted?;
    }
    if !IsBatchTelemetry(last, batch, r) {
      var before := WithoutTelemetry(init, batch, r);
      RunStep(INITIAL, before, last);
      Context(Run(INITIAL, before), last);
    }
  }

  lemma {:induction false} WellFormedFillsBeginAlike(events: seq<Event>, batch: nat, r: Range)
    requires WellFormed(events) && Run(INITIAL, events).historyFill
    ensures Run(INITIAL, WithoutTelemetry(events, batch, r)).historyFill
  {
    hide Apply;
    if events != [] {
      var init, last := events[..|events| - 1], events[|events| - 1];
      Context(Run(INITIAL, init), last);
      if IsBatchTelemetry(last, batch, r) {
        OpenBatchBeganFill(init, batch, r);
      } else {
        var before := WithoutTelemetry(init, batch, r);
        RunStep(INITIAL, before, last);
        Context(Run(INITIAL, before), last);
        if Run(INITIAL, init).historyFill {
          WellFormedFillsBeginAlike(init, batch, r);
        }
      }
    }
  }

  lemma {:induction false} WellFormedNeverSplits(events: seq<Event>, s: Symbol, batch: nat, r: Range)
    requires WellFormed(events)
    ensures NeverSplits(INITIAL, events, s, batch, r)
  {
    hide Run, WithoutTelemetry;
    if events != [] {
      var init := events[..|events| - 1];
      WellFormedNeverSplits(init, s, batch, r);
      WellFormedRunKeepsInv(init);
      if Run(INITIAL, init).historyFill {
        WellFormedFillsBeginAlike(init, batch, r);
      }
    }
  }

  /** In a well-formed run from the empty ledger a failed batch is forgotten for every symbol it lists. */
  lemma WellFormedFailureForgets(events: seq<Event>, s: Symbol, batch: nat, r: Range,
                                 listed: seq<Symbol>, message: string)
    requires WellFormed(events) && s in listed
    ensures Forgotten(INITIAL, events, s, batch, r, listed, message)
  {
    WellFormedNeverSplits(events, s, batch, r);
    FailureForgetsTelemetry(INITIAL, events, s, batch, r, listed, message);
  }

  /** Endings never create a symbol. */
  lemma UnknownStaysUnknown(ev: Event, s: Symbol)
    requires ev.BatchFinished? || ev.BatchFailed?
    ensures forall st: State :: s !in st.symbols ==> s !in Apply(st, ev).symbols
  {
    hide FreshCounts, FinishRows;
  }
}
