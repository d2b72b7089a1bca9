/** An aggregated read that nothing interrupts is one round over the sources. */
module AggregationRounds {
  import opened Wrappers
  import opened CommitLogs
  import opened Aggregation
  import opened AggregationRuns

  ghost function Sources(st: State): (r: seq<SourceLog>)
    requires WellFormed(st)
    ensures |r| == |st.order|
  {
    seq(|st.order|, i requires 0 <= i < |st.order| =>
      assert st.order[i] in st.order; SourceLog(st.order[i], LogOf(st, st.order[i])))
  }

  lemma SourcesAreConsistent(st: State)
    requires WellFormed(st)
    ensures Consistent(Sources(st), st.cursors)
  {
    var sources := Sources(st);
    forall i | 0 <= i < |sources|
      ensures ValidLog(sources[i].log) && PositionOf(sources[i], st.cursors) <= Head(sources[i].log)
    {
      assert st.order[i] in st.order;
    }
  }

  /** The source has a retained commit at its cursor. */
  ghost predicate Delivers(s: SourceLog, cursors: Cursors) {
    s.log.trimmed < PositionOf(s, cursors) <= |s.log.history|
  }

  /** No source before the i-th one has a commit, so a read gets as far as that source. */
  ghost predicate Reached(sources: seq<SourceLog>, cursors: Cursors, i: nat)
    requires i < |sources|
  {
    forall j :: 0 <= j < i ==> !Delivers(sources[j], cursors)
  }

  /** A read leaves a source alone that it does not reach. A source it reaches delivers the commit at its
      cursor, or stays at its head, or -- if that commit was trimmed -- is moved behind its head. */
  lemma {:induction false} RoundPerSource(sources: seq<SourceLog>, cursors: Cursors, i: nat)
    requires Consistent(sources, cursors) && i < |sources|
    ensures var (r, after) := Round(sources, cursors);
            var s, p := sources[i], PositionOf(sources[i], cursors);
            if Reached(sources, cursors, i) && Delivers(s, cursors) then
              && r == Some(AggregatedCommit(s.id, Commit(p, s.log.history[p - 1])))
              && s.id in after && after[s.id] == p + 1
            else
              && (r.Some? ==> r.value.sourceId != s.id)
              && PositionOf(s, after) == if Reached(sources, cursors, i) then Head(s.log) else p
    decreases |sources|
  {
    hide ReadAt, Delivers, Reached;
    var first, rest := sources[0], sources[1..];
    FirstReads(first, cursors);
    FirstMoves(sources, cursors);
    var moved := cursors[first.id := ReadAt(first.log, PositionOf(first, cursors)).1];
    assert forall j :: 0 <= j < |rest| ==> rest[j] == sources[j + 1] && rest[j].id != first.id;
    if i == 0 {
      FirstIsReached(sources, cursors);
      UnlistedStay(rest, moved, first.id);
      DeliversListed(rest, moved);
    } else {
      ReachedInRest(sources, cursors, moved, i);
      if !Delivers(first, cursors) {
        assert sources[i] == rest[i - 1];
        RoundPerSource(rest, moved, i - 1);
      }
    }
  }

  lemma FirstIsReached(sources: seq<SourceLog>, cursors: Cursors)
    requires sources != []
    ensures Reached(sources, cursors, 0)
  {
  }

  lemma FirstReads(s: SourceLog, cursors: Cursors)
    requires ValidLog(s.log) && ValidCursors(cursors) && PositionOf(s, cursors) <= Head(s.log)
    ensures var p := PositionOf(s, cursors);
            ReadAt(s.log, p) == if Delivers(s, cursors) then (Some(Commit(p, s.log.history[p - 1])), p + 1)
                                else (None, Head(s.log))
  {
  }

  lemma ReachedInRest(sources: seq<SourceLog>, cursors: Cursors, moved: Cursors, i: nat)
    requires 0 < i < |sources|
    requires forall j :: 0 < j < |sources| ==> PositionOf(sources[j], moved) == PositionOf(sources[j], cursors)
    ensures Reached(sources, cursors, i) <==> !Delivers(sources[0], cursors) && Reached(sources[1..], moved, i - 1)
    ensures Delivers(sources[i], cursors) <==> Delivers(sources[1..][i - 1], moved)
  {
    var rest := sources[1..];
    assert forall j :: 0 <= j < |rest| ==> (Delivers(rest[j], moved) <==> Delivers(sources[j + 1], cursors));
    if !Delivers(sources[0], cursors) && Reached(rest, moved, i - 1) {
      forall j | 0 <= j < i ensures !Delivers(sources[j], cursors) {
        if j > 0 { assert !Delivers(rest[j - 1], moved); }
      }
    }
  }

  lemma {:induction false} DeliversListed(sources: seq<SourceLog>, cursors: Cursors)
    requires ValidLogs(sources) && ValidCursors(cursors)
    ensures var r := Round(sources, cursors).0; r.Some? ==>
      exists i :: 0 <= i < |sources| && sources[i].id == r.value.sourceId
    decreases |sources|
  {
    if sources != [] {
      var first, rest := sources[0], sources[1..];
      var moved := cursors[first.id := ReadAt(first.log, PositionOf(first, cursors)).1];
      assert forall j :: 0 <= j < |rest| ==> rest[j] == sources[j + 1];
      DeliversListed(rest, moved);
    }
  }

  lemma {:induction false} RoundKeepsCursors(sources: seq<SourceLog>, cursors: Cursors, id: SourceId)
    requires Consistent(sources, cursors)
    ensures id in Round(sources, cursors).1 ==> id in cursors || exists i :: 0 <= i < |sources| && sources[i].id == id
    ensures id in cursors ==> id in Round(sources, cursors).1
    decreases |sources|
  {
    if sources != [] {
      var first, rest := sources[0], sources[1..];
      var moved := cursors[first.id := ReadAt(first.log, PositionOf(first, cursors)).1];
      FirstMoves(sources, cursors);
      assert forall j :: 0 <= j < |rest| ==> rest[j] == sources[j + 1];
      RoundKeepsCursors(rest, moved, id);
    }
  }

  ghost function AfterRead(st: State): State
    requires WellFormed(st)
  {
    SourcesAreConsistent(st);
    var (r, cursors) := Round(Sources(st), st.cursors);
    match r
    case None => st.(cursors := cursors)
    case Some(c) =>
      st.(cursors := cursors, delivered := st.delivered[c.sourceId := DeliveredBy(st, c.sourceId) + [c.commit]])
  }

  /** A read gets as far as this source. */
  ghost predicate ReadReaches(st: State, id: SourceId)
    requires WellFormed(st)
  {
    exists i :: 0 <= i < |st.order| && st.order[i] == id && Reached(Sources(st), st.cursors, i)
  }

  /** A read would skip commits of this source: it gets as far, and finds the next commit trimmed. */
  ghost predicate SkippedBy(st: State, id: SourceId)
    requires WellFormed(st) && id in st.cursors
  {
    ReadReaches(st, id) && st.cursors[id] <= LogOf(st, id).trimmed
  }

  /** What one read does to a source the cursor knows. */
  lemma ReadEffect(st: State, id: SourceId)
    requires WellFormed(st) && id in st.cursors
    ensures var after := AfterRead(st);
            var p, log := st.cursors[id], LogOf(st, id);
            && id in after.cursors
            && if ReadReaches(st, id) && log.trimmed < p <= |log.history| then
                 && after.cursors[id] == p + 1
                 && DeliveredBy(after, id) == DeliveredBy(st, id) + [Commit(p, log.history[p - 1])]
               else
                 && after.cursors[id] == (if SkippedBy(st, id) then Head(log) else p)
                 && DeliveredBy(after, id) == DeliveredBy(st, id)
  {
    SourcesAreConsistent(st);
    hide Reached, Round, Consistent, Head, ScanOk;
    var sources := Sources(st);
    RoundKeepsCursors(sources, st.cursors, id);
    if id in st.order {
      var i :| 0 <= i < |st.order| && st.order[i] == id;
      assert ReadReaches(st, id) <==> Reached(sources, st.cursors, i);
      RoundPerSource(sources, st.cursors, i);
      HeadWhenSilent(st, id);
    } else {
      UnlistedIsNotReached(st, id);
      UnlistedStay(sources, st.cursors, id);
      DeliversListed(sources, st.cursors);
    }
  }

  lemma HeadWhenSilent(st: State, id: SourceId)
    requires WellFormed(st) && id in st.cursors
    ensures var p, log := st.cursors[id], LogOf(st, id); p > log.trimmed && p > |log.history| ==> p == Head(log)
  {
  }

  lemma UnlistedIsNotReached(st: State, id: SourceId)
    requires WellFormed(st) && id !in st.order
    ensures !ReadReaches(st, id)
    ensures forall i :: 0 <= i < |st.order| ==> Sources(st)[i].id != id
  {
    forall i | 0 <= i < |st.order| ensures st.order[i] != id {
      assert st.order[i] in st.order;
    }
  }

  // ---- visiting one source after the other amounts to a round ----

  /** The next step of the read under way. */
  ghost function NextStep(st: State): Step
    requires WellFormed(st) && st.scan.Some?
  {
    if Visited(st) !in st.cursors then Subscribe else if st.scan.value.lagging then Resync else Visit
  }

  /** Steps that a read still needs at most, if it is left alone. */
  ghost function StepsLeft(st: State): nat
    requires WellFormed(st)
  {
    if st.scan.None? then 0
    else
      3 * |st.scan.value.rest|
      + (if Visited(st) in st.cursors then 0 else 1) + (if st.scan.value.lagging then 0 else 1)
  }

  lemma StepIsTaken(st: State)
    requires WellFormed(st) && st.scan.Some?
    ensures Enabled(st, NextStep(st)) && WellFormed(After(st, NextStep(st)))
    ensures StepsLeft(After(st, NextStep(st))) < StepsLeft(st)
  {
    StepKeepsWellFormed(st, NextStep(st));
  }

  /** The state once the read under way has ended uninterrupted. */
  ghost function Finished(st: State): State
    requires WellFormed(st)
    decreases StepsLeft(st)
  {
    if st.scan.None? then st
    else
      StepIsTaken(st);
      Finished(After(st, NextStep(st)))
  }

  lemma FinishedStep(st: State)
    requires WellFormed(st) && st.scan.Some?
    ensures Enabled(st, NextStep(st)) && WellFormed(After(st, NextStep(st)))
    ensures Finished(st) == Finished(After(st, NextStep(st)))
  {
    StepIsTaken(st);
  }

  /** What is left of a round from the i-th source on. */
  ghost function RestOfRound(st: State, i: nat): State
    requires WellFormed(st) && i <= |st.order|
  {
    SourcesAreConsistent(st);
    var (r, cursors) := Round(Sources(st)[i..], st.cursors);
    var ended := st.(cursors := cursors, scan := None);
    match r
    case None => ended
    case Some(c) =>
      ended.(delivered := st.delivered[c.sourceId := DeliveredBy(st, c.sourceId) + [c.commit]])
  }

  /** The read comes to the i-th source. */
  ghost predicate At(st: State, i: nat) {
    WellFormed(st) && i < |st.order| && st.scan == Some(Scan(st.order[i..], false))
  }

  /** The state when the read has passed the i-th source, whose cursor is then at `position`. */
  ghost function MovedOn(st: State, i: nat, position: nat): State
    requires i < |st.order|
  {
    st.(cursors := st.cursors[st.order[i] := position], scan := ScanOf(st.order[i + 1..]))
  }

  /** The state when the i-th source has delivered the commit at `p`. */
  ghost function Served(st: State, i: nat, p: nat): State
    requires WellFormed(st) && i < |st.order| && Bound(st, st.order[i]) && 1 <= p <= |LogOf(st, st.order[i]).history|
  {
    var id := st.order[i];
    var commit := Commit(p, LogOf(st, id).history[p - 1]);
    st.(cursors := st.cursors[id := p + 1], scan := None,
        delivered := st.delivered[id := DeliveredBy(st, id) + [commit]])
  }

  lemma VisitOf(st: State, i: nat)
    requires At(st, i) && st.order[i] in st.cursors
    ensures NextStep(st) == Visit && Enabled(st, Visit)
    ensures var id := st.order[i];
            var p, log := st.cursors[id], LogOf(st, id);
            After(st, Visit) ==
              if log.trimmed < p <= |log.history| then Served(st, i, p)
              else if p > |log.history| then MovedOn(st, i, p)
              else st.(scan := Some(Scan(st.order[i..], true)))
  {
    assert st.order[i..][0] == st.order[i] && st.order[i..][1..] == st.order[i + 1..];
  }

  /** Undisturbed, the read treats a source that has a cursor as one step of the round does. */
  lemma KnownSource(st: State, i: nat)
    requires At(st, i) && st.order[i] in st.cursors
    ensures var id := st.order[i];
            var p, log := st.cursors[id], LogOf(st, id);
            if log.trimmed < p <= |log.history| then Finished(st) == Served(st, i, p)
            else
              WellFormed(MovedOn(st, i, Head(log))) && Finished(st) == Finished(MovedOn(st, i, Head(log)))
  {
    hide Finished, Served, MovedOn, After, NextStep;
    VisitOf(st, i);
    FinishedStep(st);
    var id := st.order[i];
    var p, log := st.cursors[id], LogOf(st, id);
    if log.trimmed < p <= |log.history| {
      ServedIsOver(st, i, p);
      FinishedIsOver(After(st, Visit));
    } else if p <= |log.history| {
      var lagging := After(st, Visit);
      FinishedStep(lagging);
      ResyncMovesOn(st, i);
    } else {
      assert p == Head(log);
    }
  }

  lemma ServedIsOver(st: State, i: nat, p: nat)
    requires At(st, i) && Bound(st, st.order[i]) && 1 <= p <= |LogOf(st, st.order[i]).history|
    ensures Served(st, i, p).scan.None?
  {
  }

  lemma ResyncMovesOn(st: State, i: nat)
    requires At(st, i) && st.order[i] in st.cursors
    requires st.cursors[st.order[i]] <= LogOf(st, st.order[i]).trimmed
    ensures var lagging := st.(scan := Some(Scan(st.order[i..], true)));
            && WellFormed(lagging) && NextStep(lagging) == Resync
            && After(lagging, Resync) == MovedOn(st, i, Head(LogOf(st, st.order[i])))
  {
    assert st.order[i..][0] == st.order[i] && st.order[i..][1..] == st.order[i + 1..];
    assert forall id :: id in st.order[i..] ==> id in st.order;
  }

  lemma FinishedIsOver(st: State)
    requires WellFormed(st) && st.scan.None?
    ensures Finished(st) == st
  {
  }

  lemma NewSource(st: State, i: nat)
    requires At(st, i) && st.order[i] !in st.cursors
    ensures var subscribed := st.(cursors := st.cursors[st.order[i] := Head(LogOf(st, st.order[i]))]);
            At(subscribed, i) && Finished(st) == Finished(subscribed)
  {
    hide Finished;
    FinishedStep(st);
  }

  /** What remains of the round after the i-th source, if that delivers nothing. */
  lemma RoundMovesOn(st: State, i: nat)
    requires WellFormed(st) && i < |st.order|
    ensures var id, s := st.order[i], Sources(st)[i];
            var p, log := PositionOf(s, st.cursors), s.log;
            if log.trimmed < p <= |log.history| then RestOfRound(st, i) == Served(st, i, p)
            else
              WellFormed(MovedOn(st, i, Head(log))) ==>
                RestOfRound(st, i) == RestOfRound(MovedOn(st, i, Head(log)), i + 1)
  {
    SourcesAreConsistent(st);
    hide Round;
    var s := Sources(st)[i];
    RoundStep(Sources(st), i, st.cursors);
    FirstReads(s, st.cursors);
    var moved := MovedOn(st, i, Head(s.log));
    if WellFormed(moved) {
      assert Sources(moved) == Sources(st);
    }
  }

  lemma AnySource(st: State, i: nat)
    requires At(st, i)
    ensures var log := LogOf(st, st.order[i]);
            var p := PositionOf(Sources(st)[i], st.cursors);
            if log.trimmed < p <= |log.history| then Finished(st) == Served(st, i, p)
            else WellFormed(MovedOn(st, i, Head(log))) && Finished(st) == Finished(MovedOn(st, i, Head(log)))
  {
    SourceAt(st, i);
    hide Finished, Served, MovedOn, Sources, PositionOf;
    if st.order[i] in st.cursors {
      KnownSource(st, i);
    } else {
      NewSource(st, i);
      SubscribedMovesAlike(st, i);
      KnownSource(st.(cursors := st.cursors[st.order[i] := Head(LogOf(st, st.order[i]))]), i);
    }
  }

  lemma SourceAt(st: State, i: nat)
    requires WellFormed(st) && i < |st.order|
    ensures Bound(st, st.order[i])
    ensures PositionOf(Sources(st)[i], st.cursors)
         == if st.order[i] in st.cursors then st.cursors[st.order[i]] else Head(LogOf(st, st.order[i]))
  {
  }

  lemma SubscribedMovesAlike(st: State, i: nat)
    requires WellFormed(st) && i < |st.order| && Bound(st, st.order[i])
    ensures var subscribed := st.(cursors := st.cursors[st.order[i] := Head(LogOf(st, st.order[i]))]);
            && LogOf(subscribed, st.order[i]) == LogOf(st, st.order[i])
            && forall position :: MovedOn(subscribed, i, position) == MovedOn(st, i, position)
  {
  }

  lemma {:induction false} VisitsFinishRound(st: State, i: nat)
    requires WellFormed(st) && i <= |st.order| && st.scan == ScanOf(st.order[i..])
    ensures Finished(st) == RestOfRound(st, i)
    decreases |st.order| - i
  {
    if i == |st.order| {
      assert Sources(st)[i..] == [];
    } else {
      hide Finished, RestOfRound, Served, PositionOf;
      RoundMovesOn(st, i);
      AnySource(st, i);
      var log, p := LogOf(st, st.order[i]), PositionOf(Sources(st)[i], st.cursors);
      if !(log.trimmed < p <= |log.history|) {
        VisitsFinishRound(MovedOn(st, i, Head(log)), i + 1);
      }
    }
  }

  /** A read that nothing interrupts does what one round over the sources does. */
  lemma UninterruptedReadIsRound(st: State)
    requires WellFormed(st) && st.scan.None?
    ensures Enabled(st, Begin) && WellFormed(After(st, Begin))
    ensures Finished(After(st, Begin)) == AfterRead(st)
  {
    StepKeepsWellFormed(st, Begin);
    var begun := After(st, Begin);
    assert st.order[0..] == st.order;
    VisitsFinishRound(begun, 0);
    assert Sources(begun) == Sources(st) && Sources(begun)[0..] == Sources(begun);
  }

  /** A read that returns nothing leaves every listed source drained. */
  lemma NothingMeansDrained(st: State)
    requires WellFormed(st)
    ensures Consistent(Sources(st), st.cursors)
    ensures Round(Sources(st), st.cursors).0.None? ==>
      var after := Round(Sources(st), st.cursors).1;
      forall i :: 0 <= i < |st.order| ==> PositionOf(Sources(st)[i], after) == Head(Sources(st)[i].log)
  {
    SourcesAreConsistent(st);
    RoundProgress(Sources(st), st.cursors);
    EmptyBacklogIffDrained(Sources(st), Round(Sources(st), st.cursors).1);
  }
}
