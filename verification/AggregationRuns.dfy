/** Runs that interleave publishing, retention, changes of the source list and aggregated reads. A read takes
    the lock of one log at a time, so commits may come in between any two of its steps. Every source name
    stays bound to one reader. */
module AggregationRuns {
  import opened Wrappers
  import opened CommitLogs
  import opened Aggregation

  type LogId = nat

  /** A read under way: the sources it has yet to visit, and whether it found the first of them trimmed. */
  datatype Scan = Scan(rest: seq<SourceId>, lagging: bool)

  datatype State = State(
    logs: map<LogId, Log>,
    binding: map<SourceId, LogId>,
    order: seq<SourceId>,
    cursors: Cursors,
    delivered: map<SourceId, seq<Commit>>,
    scan: Option<Scan>)

  datatype Step =
    | Publish(log: LogId, payload: Payload, kept: nat)
    | SetOrder(order: seq<SourceId>)
    | Begin        // a read starts
    | Subscribe    // it creates the missing cursor of a source, at the head
    | Visit        // it looks for the next commit of a source
    | Resync       // it moves a cursor that it found trimmed behind the head

  ghost predicate UniqueIds(order: seq<SourceId>) {
    forall i, j :: 0 <= i < j < |order| ==> order[i] != order[j]
  }

  ghost predicate Bound(st: State, id: SourceId) {
    id in st.binding && st.binding[id] in st.logs
  }

  ghost function LogOf(st: State, id: SourceId): Log
    requires Bound(st, id)
  {
    st.logs[st.binding[id]]
  }

  ghost predicate ScanOk(st: State) {
    st.scan.Some? ==>
      && st.scan.value.rest != []
      && (forall id :: id in st.scan.value.rest ==> Bound(st, id))
      && (st.scan.value.lagging ==> Lags(st, st.scan.value.rest[0]))
  }

  /** The next commit of a source that has a cursor was trimmed. */
  ghost predicate Lags(st: State, id: SourceId) {
    Bound(st, id) && id in st.cursors && st.cursors[id] <= LogOf(st, id).trimmed
  }

  ghost predicate WellFormed(st: State) {
    && UniqueIds(st.order)
    && (forall id :: id in st.order ==> Bound(st, id))
    && (forall l :: l in st.logs ==> ValidLog(st.logs[l]))
    && (forall id :: id in st.cursors ==> Bound(st, id) && 1 <= st.cursors[id] <= Head(LogOf(st, id)))
    && ScanOk(st)
  }

  ghost function DeliveredBy(st: State, id: SourceId): seq<Commit> {
    if id in st.delivered then st.delivered[id] else []
  }

  /** The source that the read under way comes to next. */
  ghost function Visited(st: State): SourceId
    requires WellFormed(st) && st.scan.Some?
  {
    st.scan.value.rest[0]
  }

  ghost predicate Enabled(st: State, step: Step)
    requires WellFormed(st)
  {
    match step
    case Publish(l, _, kept) => l in st.logs && kept <= |st.logs[l].history| - st.logs[l].trimmed + 1
    case SetOrder(order) => st.scan.None? && UniqueIds(order) && forall id :: id in order ==> Bound(st, id)
    case Begin => st.scan.None?
    case Subscribe => st.scan.Some? && Visited(st) !in st.cursors
    case Visit => st.scan.Some? && Visited(st) in st.cursors && !st.scan.value.lagging
    case Resync => st.scan.Some? && st.scan.value.lagging
  }

  ghost function Published(log: Log, payload: Payload, kept: nat): Log
    requires kept <= |log.history| + 1
  {
    Log(log.history + [payload], |log.history| + 1 - kept)
  }

  /** A read over these sources; over none it is over. */
  ghost function ScanOf(rest: seq<SourceId>): Option<Scan> {
    if rest == [] then None else Some(Scan(rest, false))
  }

  ghost function AfterVisit(st: State): State
    requires WellFormed(st) && Enabled(st, Visit)
  {
    var id, rest := Visited(st), st.scan.value.rest;
    var p, log := st.cursors[id], LogOf(st, id);
    if log.trimmed < p <= |log.history| then
      st.(cursors := st.cursors[id := p + 1], scan := None,
          delivered := st.delivered[id := DeliveredBy(st, id) + [Commit(p, log.history[p - 1])]])
    else if p > |log.history| then st.(scan := ScanOf(rest[1..]))
    else st.(scan := Some(Scan(rest, true)))
  }

  ghost function After(st: State, step: Step): State
    requires WellFormed(st) && Enabled(st, step)
  {
    match step
    case Publish(l, payload, kept) => st.(logs := st.logs[l := Published(st.logs[l], payload, kept)])
    case SetOrder(order) => st.(order := order)
    case Begin => st.(scan := ScanOf(st.order))
    case Subscribe => st.(cursors := st.cursors[Visited(st) := Head(LogOf(st, Visited(st)))])
    case Visit => AfterVisit(st)
    case Resync =>
      st.(cursors := st.cursors[Visited(st) := Head(LogOf(st, Visited(st)))], scan := ScanOf(st.scan.value.rest[1..]))
  }

  lemma StepKeepsWellFormed(st: State, step: Step)
    requires WellFormed(st) && Enabled(st, step)
    ensures WellFormed(After(st, step))
  {
    match step
    case Publish(_, _, _) => PublishKeepsWellFormed(st, step);
    case SetOrder(_) =>
    case Begin =>
    case _ => ReadStepKeepsWellFormed(st, step);
  }

  lemma PublishKeepsWellFormed(st: State, step: Step)
    requires WellFormed(st) && Enabled(st, step) && step.Publish?
    ensures WellFormed(After(st, step))
  {
  }

  lemma ReadStepKeepsWellFormed(st: State, step: Step)
    requires WellFormed(st) && Enabled(st, step) && (step.Subscribe? || step.Visit? || step.Resync?)
    ensures WellFormed(After(st, step))
  {
    var rest := st.scan.value.rest;
    assert rest[0] in rest && forall id :: id in rest[1..] ==> id in rest;
  }

  ghost predicate IsRun(from: State, steps: seq<Step>) {
    WellFormed(from) && (steps == [] ||
      (IsRun(from, steps[..|steps| - 1]) && Enabled(Exec(from, steps[..|steps| - 1]), steps[|steps| - 1])))
  }

  ghost function Exec(from: State, steps: seq<Step>): (r: State)
    requires WellFormed(from)
    ensures WellFormed(r)
  {
    if steps == [] then from
    else
      var before := Exec(from, steps[..|steps| - 1]);
      if Enabled(before, steps[|steps| - 1]) then
        StepKeepsWellFormed(before, steps[|steps| - 1]);
        After(before, steps[|steps| - 1])
      else before
  }

  // ---- what a source delivers over a run ----

  /** Commits `start` up to but not including `end` of a history. */
  ghost function Slice(history: seq<Payload>, start: nat, end: nat): (r: seq<Commit>)
    requires 1 <= start <= end <= |history| + 1
    ensures |r| == end - start
  {
    seq(end - start, i requires 0 <= i < end - start => Commit(start + i, history[start + i - 1]))
  }

  ghost predicate InOrder(cs: seq<Commit>) {
    forall i, j :: 0 <= i < j < |cs| ==> cs[i].revision < cs[j].revision
  }

  /** Delivered commits are genuine, in order, once each, from `start` to the cursor; they are the whole
      log suffix as soon as there are as many of them as positions passed. */
  ghost predicate TracksLog(history: seq<Payload>, mine: seq<Commit>, start: nat, position: nat) {
    && 1 <= start <= position <= |history| + 1
    && |mine| <= position - start
    && InOrder(mine)
    && (forall i :: 0 <= i < |mine| ==>
          start <= mine[i].revision < position && mine[i].payload == history[mine[i].revision - 1])
    && (|mine| == position - start ==> mine == Slice(history, start, position))
  }

  lemma TracksDelivery(history: seq<Payload>, mine: seq<Commit>, start: nat, p: nat)
    requires TracksLog(history, mine, start, p) && p <= |history|
    ensures TracksLog(history, mine + [Commit(p, history[p - 1])], start, p + 1)
  {
    if |mine| == p - start {
      assert Slice(history, start, p + 1) == Slice(history, start, p) + [Commit(p, history[p - 1])];
    }
  }

  lemma TracksSkip(history: seq<Payload>, mine: seq<Commit>, start: nat, p: nat, q: nat)
    requires TracksLog(history, mine, start, p) && p < q <= |history| + 1
    ensures TracksLog(history, mine, start, q)
  {
  }

  lemma TracksGrowth(history: seq<Payload>, mine: seq<Commit>, start: nat, p: nat, payload: Payload)
    requires TracksLog(history, mine, start, p)
    ensures TracksLog(history + [payload], mine, start, p)
  {
    assert Slice(history, start, p) == Slice(history + [payload], start, p);
  }

  ghost predicate Tracks(st: State, id: SourceId, start: nat, before: nat)
    requires WellFormed(st)
  {
    && id in st.cursors && before <= |DeliveredBy(st, id)|
    && TracksLog(LogOf(st, id).history, DeliveredBy(st, id)[before..], start, st.cursors[id])
  }

  /** How many commits between the start and the cursor were skipped. */
  ghost function Lost(st: State, id: SourceId, start: nat, before: nat): int
    requires id in st.cursors
  {
    st.cursors[id] - start - (|DeliveredBy(st, id)| - before)
  }

  lemma TrimmedIsBehind(st: State, id: SourceId)
    requires WellFormed(st) && id in st.cursors
    ensures Bound(st, id) && LogOf(st, id).trimmed < Head(LogOf(st, id))
  {
  }

  /** Steps other than publishing leave the logs as they are. */
  lemma LogsStay(st: State, step: Step, id: SourceId)
    requires WellFormed(st) && Enabled(st, step) && !step.Publish? && Bound(st, id)
    ensures Bound(After(st, step), id) && LogOf(After(st, step), id) == LogOf(st, id)
  {
  }

  /** The step resynchronises this source. */
  ghost predicate Skips(st: State, step: Step, id: SourceId)
    requires WellFormed(st) && Enabled(st, step)
  {
    step.Resync? && Visited(st) == id
  }

  /** What one step does to a source the cursor knows. */
  lemma StepEffect(st: State, step: Step, id: SourceId)
    requires WellFormed(st) && Enabled(st, step) && !step.Publish? && id in st.cursors
    ensures var after := After(st, step);
            var p, log := st.cursors[id], LogOf(st, id);
            && id in after.cursors
            && if Skips(st, step, id) then
                 p <= log.trimmed && after.cursors[id] == Head(log) && DeliveredBy(after, id) == DeliveredBy(st, id)
               else if step.Visit? && Visited(st) == id && log.trimmed < p <= |log.history| then
                 && after.cursors[id] == p + 1
                 && DeliveredBy(after, id) == DeliveredBy(st, id) + [Commit(p, log.history[p - 1])]
               else after.cursors[id] == p && DeliveredBy(after, id) == DeliveredBy(st, id)
  {
  }

  lemma StepKeepsTracks(st: State, step: Step, id: SourceId, start: nat, before: nat)
    requires WellFormed(st) && Enabled(st, step) && Tracks(st, id, start, before)
    ensures WellFormed(After(st, step)) && Tracks(After(st, step), id, start, before)
    ensures Lost(After(st, step), id, start, before) >= Lost(st, id, start, before)
    ensures Lost(After(st, step), id, start, before) == Lost(st, id, start, before) <==> !Skips(st, step, id)
  {
    StepKeepsWellFormed(st, step);
    if step.Publish? {
      PublishKeepsTracks(st, step, id, start, before);
    } else {
      StepEffect(st, step, id);
      LogsStay(st, step, id);
      TrimmedIsBehind(st, id);
      hide After, Enabled, TracksLog, WellFormed, LogOf, DeliveredBy, Bound;
      EffectTracks(LogOf(st, id), DeliveredBy(st, id), DeliveredBy(After(st, step), id), before, start,
                   st.cursors[id], After(st, step).cursors[id], Skips(st, step, id));
    }
  }

  /** One step seen by one source: its log, what it has delivered and where its cursor is. */
  lemma EffectTracks(log: Log, was: seq<Commit>, now: seq<Commit>, before: nat, start: nat, p: nat, q: nat,
                     skipped: bool)
    requires log.trimmed < Head(log) && before <= |was| && TracksLog(log.history, was[before..], start, p)
    requires if skipped then p <= log.trimmed && q == Head(log) && now == was
             else (q == p && now == was)
                  || (log.trimmed < p <= |log.history| && q == p + 1 && now == was + [Commit(p, log.history[p - 1])])
    ensures before <= |now| && TracksLog(log.history, now[before..], start, q)
    ensures q - |now| >= p - |was|
    ensures q - |now| == p - |was| <==> !skipped
  {
    hide TracksLog;
    if skipped {
      TracksSkip(log.history, was[before..], start, p, Head(log));
    } else if q == p + 1 {
      assert now[before..] == was[before..] + [Commit(p, log.history[p - 1])];
      TracksDelivery(log.history, was[before..], start, p);
    }
  }

  lemma PublishKeepsTracks(st: State, step: Step, id: SourceId, start: nat, before: nat)
    requires WellFormed(st) && Enabled(st, step) && step.Publish? && Tracks(st, id, start, before)
    ensures WellFormed(After(st, step)) && Tracks(After(st, step), id, start, before)
    ensures Lost(After(st, step), id, start, before) == Lost(st, id, start, before)
  {
    StepKeepsWellFormed(st, step);
    TracksGrowth(LogOf(st, id).history, DeliveredBy(st, id)[before..], start, st.cursors[id], step.payload);
    hide TracksLog;
  }

  /** No read of the run found the source's next commit trimmed and moved on past it. */
  ghost predicate NeverSkipped(from: State, steps: seq<Step>, id: SourceId)
    requires WellFormed(from)
  {
    steps == [] ||
    (var st := Exec(from, steps[..|steps| - 1]);
     && NeverSkipped(from, steps[..|steps| - 1], id)
     && (Enabled(st, steps[|steps| - 1]) ==> !Skips(st, steps[|steps| - 1], id)))
  }

  lemma {:induction false} RunTracks(from: State, steps: seq<Step>, id: SourceId)
    requires IsRun(from, steps) && id in from.cursors
    ensures var st := Exec(from, steps); var start, before := from.cursors[id], |DeliveredBy(from, id)|;
            && Tracks(st, id, start, before)
            && Lost(st, id, start, before) >= 0
            && (NeverSkipped(from, steps, id) <==> Lost(st, id, start, before) == 0)
  {
    hide After, Enabled, TracksLog, LogOf, DeliveredBy, Skips;
    var start, before := from.cursors[id], |DeliveredBy(from, id)|;
    if steps == [] {
      NothingYet(from, id);
    } else {
      var init, last := steps[..|steps| - 1], steps[|steps| - 1];
      RunTracks(from, init, id);
      StepKeepsTracks(Exec(from, init), last, id, start, before);
    }
  }

  lemma NothingYet(st: State, id: SourceId)
    requires WellFormed(st) && id in st.cursors
    ensures Tracks(st, id, st.cursors[id], |DeliveredBy(st, id)|)
  {
  }

  /** From any point on, a source known to the cursor delivers genuine commits in order and once each. It
      delivers exactly its log suffix up to the cursor if and only if no read of the run resynchronised the
      source, which a read does exactly when it finds the source's next commit trimmed. */
  lemma DeliveryIsLogSuffix(from: State, steps: seq<Step>, id: SourceId)
    requires IsRun(from, steps) && id in from.cursors
    ensures var st := Exec(from, steps); var start, before := from.cursors[id], |DeliveredBy(from, id)|;
            && id in st.cursors && start <= st.cursors[id] <= Head(LogOf(st, id)) && before <= |DeliveredBy(st, id)|
            && var mine := DeliveredBy(st, id)[before..];
               && InOrder(mine)
               && (mine == Slice(LogOf(st, id).history, start, st.cursors[id]) <==> NeverSkipped(from, steps, id))
  {
    RunTracks(from, steps, id);
  }

  /** Retention only ever drops more. */
  lemma TrimmedGrows(st: State, step: Step, id: SourceId)
    requires WellFormed(st) && Enabled(st, step) && Bound(st, id)
    ensures WellFormed(After(st, step)) && Bound(After(st, step), id)
    ensures LogOf(st, id).trimmed <= LogOf(After(st, step), id).trimmed
  {
    StepKeepsWellFormed(st, step);
    if !step.Publish? { LogsStay(st, step, id); }
  }

  /** A read that resynchronises a source has found its next commit trimmed. */
  lemma SkippedIsTrimmed(st: State, step: Step, id: SourceId)
    requires WellFormed(st) && Enabled(st, step) && Skips(st, step, id)
    ensures Lags(st, id)
  {
  }

  /** While the log retains the commit at which the cursor started, nothing can be skipped. */
  lemma {:induction false} RetainedIsNotSkipped(from: State, steps: seq<Step>, id: SourceId)
    requires IsRun(from, steps) && id in from.cursors
    ensures Bound(Exec(from, steps), id)
    ensures LogOf(Exec(from, steps), id).trimmed < from.cursors[id] ==> NeverSkipped(from, steps, id)
  {
    hide After, Enabled, LogOf, Skips;
    if steps != [] {
      var init, last := steps[..|steps| - 1], steps[|steps| - 1];
      RetainedIsNotSkipped(from, init, id);
      TrimmedGrows(Exec(from, init), last, id);
      DeliveryIsLogSuffix(from, init, id);
      if Skips(Exec(from, init), last, id) { SkippedIsTrimmed(Exec(from, init), last, id); }
    }
  }

  /** A log that is never trimmed is delivered whole, from where the cursor started, whatever the
      interleaving; more generally any log that still retains that commit at the end of the run. */
  lemma RetainedLogIsDelivered(from: State, steps: seq<Step>, id: SourceId)
    requires IsRun(from, steps) && id in from.cursors
    requires Bound(Exec(from, steps), id) && LogOf(Exec(from, steps), id).trimmed < from.cursors[id]
    ensures var st := Exec(from, steps); var start, before := from.cursors[id], |DeliveredBy(from, id)|;
            && id in st.cursors && start <= st.cursors[id] <= Head(LogOf(st, id)) && before <= |DeliveredBy(st, id)|
            && DeliveredBy(st, id)[before..] == Slice(LogOf(st, id).history, start, st.cursors[id])
  {
    RetainedIsNotSkipped(from, steps, id);
    DeliveryIsLogSuffix(from, steps, id);
  }

  // ---- reads that return nothing ----

  /** Everything that the listed sources held in `from` has been passed, but for those still to be visited. */
  ghost predicate Passed(from: State, st: State) {
    && WellFormed(from)
    && (forall id :: id in from.order && (st.scan.None? || id !in st.scan.value.rest) ==>
          id in st.cursors && st.cursors[id] >= Head(LogOf(from, id)))
  }

  /** The logs of `from` have only grown since. */
  ghost predicate Grown(from: State, st: State) {
    && WellFormed(from) && WellFormed(st)
    && (forall id :: Bound(from, id) ==> Bound(st, id) && Head(LogOf(from, id)) <= Head(LogOf(st, id)))
  }

  /** A step of the read under way, or another thread's publishing, that delivers nothing. */
  ghost predicate Quiet(st: State, step: Step)
    requires WellFormed(st) && Enabled(st, step)
  {
    !step.SetOrder? && !step.Begin? && After(st, step).delivered == st.delivered
  }

  lemma QuietStep(from: State, st: State, step: Step)
    requires Passed(from, st) && Grown(from, st) && Enabled(st, step) && Quiet(st, step)
    ensures Passed(from, After(st, step)) && Grown(from, After(st, step))
  {
    StepKeepsWellFormed(st, step);
    if step.Visit? || step.Resync? {
      var id, rest := Visited(st), st.scan.value.rest;
      assert rest == [id] + rest[1..];
      if step.Visit? { DeliveryIsNotQuiet(st); }
    }
  }

  lemma DeliveryIsNotQuiet(st: State)
    requires WellFormed(st) && Enabled(st, Visit)
    ensures var id := Visited(st);
            LogOf(st, id).trimmed < st.cursors[id] <= |LogOf(st, id).history| ==>
              After(st, Visit).delivered != st.delivered
  {
    var id := Visited(st);
    var p, log := st.cursors[id], LogOf(st, id);
    if log.trimmed < p <= |log.history| {
      assert |DeliveredBy(After(st, Visit), id)| == |DeliveredBy(st, id)| + 1;
    }
  }

  /** A read from its start to its end without a delivery. */
  ghost predicate EmptyRead(from: State, steps: seq<Step>)
    requires WellFormed(from)
  {
    steps != [] && steps[0].Begin? && from.scan.None? && forall k :: 1 <= k < |steps| ==>
      Enabled(Exec(from, steps[..k]), steps[k]) && Quiet(Exec(from, steps[..k]), steps[k])
  }

  lemma {:induction false} EmptyReadPasses(from: State, steps: seq<Step>)
    requires IsRun(from, steps) && EmptyRead(from, steps)
    ensures Passed(from, Exec(from, steps)) && Grown(from, Exec(from, steps))
  {
    hide Passed, Grown, Quiet, After, Enabled;
    var init, last := steps[..|steps| - 1], steps[|steps| - 1];
    if init == [] {
      assert Exec(from, init) == from;
      BeginPasses(from);
    } else {
      assert forall k :: 0 <= k < |steps| ==> init[..k] == steps[..k] by {
        assert forall k :: 0 <= k <= |init| ==> init[..k] == steps[..k];
      }
      EmptyReadPasses(from, init);
      QuietStep(from, Exec(from, init), last);
    }
  }

  lemma BeginPasses(from: State)
    requires WellFormed(from) && from.scan.None?
    ensures Enabled(from, Begin) && Passed(from, After(from, Begin)) && Grown(from, After(from, Begin))
  {
    StepKeepsWellFormed(from, Begin);
  }

  /** A read that returns nothing, whatever is published meanwhile, has passed every commit that the listed
      sources held when it began. */
  lemma NothingMeansPassed(from: State, steps: seq<Step>)
    requires IsRun(from, steps) && EmptyRead(from, steps) && Exec(from, steps).scan.None?
    ensures forall id :: id in from.order ==>
      id in Exec(from, steps).cursors && Exec(from, steps).cursors[id] >= Head(LogOf(from, id))
  {
    hide Exec;
    EmptyReadPasses(from, steps);
  }
}
