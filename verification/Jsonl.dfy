/** The writer end of the JSONL progress stream: it drops duplicate and stale sequence numbers. */
module JsonlWriting {
  import opened Wrappers

  /** A rendered progress snapshot; records of other producers may carry no sequence number. */
  datatype Record = Record(sequence: Option<nat>, body: string)

  datatype Message = Render(record: Record) | Terminal(record: Record) | Finish

  predicate ShouldWrite(r: Record, last: Option<nat>) {
    r.sequence.None? || last.None? || r.sequence.value > last.value
  }

  datatype Written = Written(last: Option<nat>, output: seq<Record>)

  /** Effect of one received record on the writer. */
  function Write(w: Written, r: Record): Written {
    if ShouldWrite(r, w.last) then
      Written(if r.sequence.Some? then r.sequence else w.last, w.output + [r])
    else w
  }

  class JsonlWriter {
    var last: Option<nat>
    var output: seq<Record>

    ghost function State(): Written
      reads this
    {
      Written(last, output)
    }

    constructor ()
      ensures State() == Written(None, [])
    {
      last, output := None, [];
    }

    method WriteRecord(r: Record)
      modifies this
      ensures State() == Write(old(State()), r)
    {
      if !ShouldWrite(r, last) {
        return;
      }
      output := output + [r];
      if r.sequence.Some? {
        last := r.sequence;
      }
    }

    /** Serves a received message list until its first `Finish`. */
    method RenderJsonl(messages: seq<Message>)
      modifies this
      ensures output == old(output) + Maxima(RecordsBeforeFinish(messages), old(last))
      ensures last == Highest(RecordsBeforeFinish(messages), old(last))
    {
      var i := 0;
      ghost var served: seq<Record> := [];
      while i < |messages|
        invariant 0 <= i <= |messages|
        invariant RecordsBeforeFinish(messages) == served + RecordsBeforeFinish(messages[i..])
        invariant output == old(output) + Maxima(served, old(last))
        invariant last == Highest(served, old(last))
        decreases |messages| - i
      {
        if messages[i].Finish? {
          assert RecordsBeforeFinish(messages) == served;
          return;
        }
        var r := messages[i].record;
        ServeOne(served, r, old(last));
        assert messages[i..][1..] == messages[i + 1..];
        served := served + [r];
        WriteRecord(r);
        i := i + 1;
      }
      assert RecordsBeforeFinish(messages) == served;
    }
  }

  /** The records the writer sees: everything in front of the first `Finish`. */
  ghost function RecordsBeforeFinish(messages: seq<Message>): seq<Record> {
    if messages == [] || messages[0].Finish? then [] else [messages[0].record] + RecordsBeforeFinish(messages[1..])
  }

  /** The greatest sequence number among `from` and the records. */
  ghost function Highest(rs: seq<Record>, from: Option<nat>): Option<nat> {
    if rs == [] then from
    else
      var init, r := Highest(rs[..|rs| - 1], from), rs[|rs| - 1];
      if r.sequence.Some? && (init.None? || r.sequence.value > init.value) then r.sequence else init
  }

  /** Record `i` exceeds every sequence number before it, written or not. */
  ghost predicate ExceedsEarlier(rs: seq<Record>, i: nat, from: Option<nat>)
    requires i < |rs|
  {
    rs[i].sequence.None? ||
    ((from.None? || rs[i].sequence.value > from.value)
     && forall j :: 0 <= j < i && rs[j].sequence.Some? ==> rs[j].sequence.value < rs[i].sequence.value)
  }

  /** The records that exceed everything before them, in order. */
  ghost function Maxima(rs: seq<Record>, from: Option<nat>): seq<Record> {
    if rs == [] then []
    else
      Maxima(rs[..|rs| - 1], from) + if ExceedsEarlier(rs, |rs| - 1, from) then [rs[|rs| - 1]] else []
  }

  lemma {:induction false} HighestBounds(rs: seq<Record>, from: Option<nat>)
    ensures Highest(rs, from).None? <==> from.None? && forall j :: 0 <= j < |rs| ==> rs[j].sequence.None?
    ensures forall j :: 0 <= j < |rs| && rs[j].sequence.Some? ==> rs[j].sequence.value <= Highest(rs, from).value
    ensures from.Some? ==> from.value <= Highest(rs, from).value
    ensures Highest(rs, from) == from || exists j :: 0 <= j < |rs| && rs[j].sequence == Highest(rs, from)
  {
    if rs != [] {
      var init := rs[..|rs| - 1];
      HighestBounds(init, from);
      assert forall j :: 0 <= j < |init| ==> init[j] == rs[j];
    }
  }

  lemma ServeOne(served: seq<Record>, r: Record, from: Option<nat>)
    ensures var more := served + [r];
            && Maxima(more, from) == Maxima(served, from) + (if ShouldWrite(r, Highest(served, from)) then [r] else [])
            && Highest(more, from) == if ShouldWrite(r, Highest(served, from)) && r.sequence.Some?
                                      then r.sequence else Highest(served, from)
  {
    var more := served + [r];
    assert more[..|served|] == served;
    HighestBounds(served, from);
    assert forall j :: 0 <= j < |served| ==> more[j] == served[j];
  }
}

/** Producers, the finishing session and the writer as concurrent steps over one bounded queue. */
module JsonlProtocol {
  import opened Wrappers
  import opened JsonlWriting

  const CAPACITY: nat := 64
  const MAX_REVISION: nat := 0xFFFF_FFFF_FFFF_FFFF

  /** The finishing thread: not finished, about to send the terminal record, terminal record queued,
      stop message queued. */
  datatype Session = Running | Holding(record: Record) | TerminalSent(record: Record) | FinishSent(record: Record)

  datatype WriterStatus = Serving | Stopped | Broken

  /** `history[k]` is what the shared state held after update k + 1; `pending` are snapshots taken
      under the lock by producers that have not yet tried to send them. */
  datatype State = State(
    history: seq<string>,
    pending: map<nat, Record>,
    session: Session,
    queue: seq<Message>,
    status: WriterStatus,
    written: Written)

  const START := State([], map[], Running, [], Serving, Written(None, []))

  datatype Step =
    | Update(producer: nat, body: string)
    | TrySend(producer: nat)
    | Finalize(body: string)
    | SendTerminal
    | SendFinish
    | Receive
    | WriteError

  /** The revision counter after `n` updates saturates at its type's maximum. */
  function Revision(n: nat): nat {
    if n < MAX_REVISION then n else MAX_REVISION
  }

  function Snapshot(history: seq<string>): Record
    requires history != []
  {
    Record(Some(Revision(|history|)), history[|history| - 1])
  }

  predicate HasRoom(st: State) {
    |st.queue| < CAPACITY
  }

  ghost predicate Enabled(st: State, step: Step) {
    match step
    case Update(p, _) => st.session.Running? && p !in st.pending
    case TrySend(p) => p in st.pending
    case Finalize(_) => st.session.Running?
    case SendTerminal => st.session.Holding? && (HasRoom(st) || !st.status.Serving?)
    case SendFinish => st.session.TerminalSent? && (HasRoom(st) || !st.status.Serving?)
    case Receive => st.status.Serving? && st.queue != []
    case WriteError => st.status.Serving? && st.queue != [] && !st.queue[0].Finish?
                       && ShouldWrite(st.queue[0].record, st.written.last)
  }

  /** A message sent to a stopped writer is lost; a render also when the queue is full. */
  function Enqueue(st: State, m: Message): seq<Message> {
    if st.status.Serving? && HasRoom(st) then st.queue + [m] else st.queue
  }

  ghost function After(st: State, step: Step): State
    requires Enabled(st, step)
  {
    match step
    case Update(p, body) =>
      var history := st.history + [body];
      st.(history := history, pending := st.pending[p := Snapshot(history)])
    case TrySend(p) =>
      st.(pending := st.pending - {p}, queue := Enqueue(st, Render(st.pending[p])))
    case Finalize(body) =>
      var history := st.history + [body];
      st.(history := history, session := Holding(Snapshot(history)))
    case SendTerminal =>
      st.(queue := Enqueue(st, Terminal(st.session.record)), session := TerminalSent(st.session.record))
    case SendFinish =>
      st.(queue := Enqueue(st, Finish), session := FinishSent(st.session.record))
    case Receive =>
      if st.queue[0].Finish? then st.(queue := [], status := Stopped)
      else st.(queue := st.queue[1..], written := Write(st.written, st.queue[0].record))
    case WriteError => st.(queue := [], status := Broken)
  }

  ghost predicate IsRun(steps: seq<Step>) {
    steps == [] || (IsRun(steps[..|steps| - 1]) && Enabled(Exec(steps[..|steps| - 1]), steps[|steps| - 1]))
  }

  ghost function Exec(steps: seq<Step>): State {
    if steps == [] then START
    else
      var before := Exec(steps[..|steps| - 1]);
      if Enabled(before, steps[|steps| - 1]) then After(before, steps[|steps| - 1]) else before
  }

  // ---- invariant ----

  /** A record is the snapshot taken at its own revision. */
  ghost predicate IsSnapshot(r: Record, history: seq<string>) {
    r.sequence.Some? && 1 <= r.sequence.value <= |history| && r.body == history[r.sequence.value - 1]
  }

  ghost predicate StrictlyIncreasing(rs: seq<Record>) {
    && (forall i :: 0 <= i < |rs| ==> rs[i].sequence.Some?)
    && (forall i, j :: 0 <= i < j < |rs| ==> rs[i].sequence.value < rs[j].sequence.value)
  }

  ghost predicate OutputOk(w: Written, history: seq<string>) {
    && StrictlyIncreasing(w.output)
    && (forall i :: 0 <= i < |w.output| ==> IsSnapshot(w.output[i], history))
    && w.last == if w.output == [] then None else w.output[|w.output| - 1].sequence
  }

  /** Records other than the terminal one were taken before it. */
  ghost predicate IsEarlier(r: Record, st: State) {
    IsSnapshot(r, st.history) && (!st.session.Running? ==> r.sequence.value < |st.history|)
  }

  ghost predicate WroteLast(w: Written, r: Record) {
    w.output != [] && w.output[|w.output| - 1] == r
  }

  ghost predicate NoneWritten(st: State) {
    st.written.last.Some? && !st.session.Running? ==> st.written.last.value < |st.history|
  }

  /** The terminal record is queued at position `k`, once, and nothing so late was written yet. */
  ghost predicate TerminalAt(st: State, k: nat, r: Record) {
    && NoneWritten(st)
    && k < |st.queue| && st.queue[k] == Terminal(r)
    && forall i :: 0 <= i < |st.queue| && i != k ==> !st.queue[i].Terminal?
  }

  ghost predicate NoTerminalQueued(st: State) {
    forall i :: 0 <= i < |st.queue| ==> !st.queue[i].Terminal?
  }

  ghost predicate NoFinishQueued(st: State) {
    forall i :: 0 <= i < |st.queue| ==> !st.queue[i].Finish?
  }

  /** The terminal record was written, and nothing after it. */
  ghost predicate TerminalDone(st: State, r: Record) {
    NoTerminalQueued(st) && WroteLast(st.written, r)
  }

  ghost predicate FinishAt(st: State, f: nat) {
    f < |st.queue| && st.queue[f].Finish? && forall i :: 0 <= i < |st.queue| && i != f ==> !st.queue[i].Finish?
  }

  ghost predicate QueueOk(st: State) {
    && |st.queue| <= CAPACITY
    && (forall p :: p in st.pending ==> IsEarlier(st.pending[p], st))
    && (forall i :: 0 <= i < |st.queue| && st.queue[i].Render? ==> IsEarlier(st.queue[i].record, st))
  }

  ghost predicate TerminalBefore(st: State, f: nat, r: Record) {
    TerminalDone(st, r) || exists k: nat :: k < f && TerminalAt(st, k, r)
  }

  ghost predicate IsTerminal(r: Record, st: State) {
    st.history != [] && r == Snapshot(st.history)
  }

  ghost predicate TerminalOk(st: State) {
    match st.session
    case Running => NoTerminalQueued(st) && NoFinishQueued(st) && !st.status.Stopped?
    case Holding(r) =>
      IsTerminal(r, st) && NoTerminalQueued(st) && NoFinishQueued(st) && !st.status.Stopped? && NoneWritten(st)
    case TerminalSent(r) =>
      && IsTerminal(r, st) && NoFinishQueued(st) && !st.status.Stopped?
      && (st.status.Serving? ==> TerminalBefore(st, |st.queue|, r))
    case FinishSent(r) =>
      && IsTerminal(r, st)
      && (st.status.Serving? ==> exists f: nat :: FinishAt(st, f) && TerminalBefore(st, f, r))
      && (st.status.Stopped? ==> WroteLast(st.written, r))
  }

  /** While revisions are below saturation the protocol keeps all of this. */
  ghost predicate Inv(st: State) {
    OutputOk(st.written, st.history) && QueueOk(st) && TerminalOk(st)
  }

  lemma UpdateKeepsInv(st: State, step: Step)
    requires Inv(st) && Enabled(st, step) && (step.Update? || step.Finalize?)
    requires |After(st, step).history| <= MAX_REVISION
    ensures Inv(After(st, step))
  {
    var after := After(st, step);
    assert forall i :: 0 <= i < |st.history| ==> after.history[i] == st.history[i];
  }

  lemma SendKeepsQueue(st: State, step: Step)
    requires Inv(st) && Enabled(st, step) && (step.TrySend? || step.SendTerminal? || step.SendFinish?)
    ensures OutputOk(After(st, step).written, st.history) && QueueOk(After(st, step))
  {
  }

  lemma TrySendKeepsInv(st: State, step: Step)
    requires Inv(st) && Enabled(st, step) && step.TrySend?
    ensures Inv(After(st, step))
  {
    hide OutputOk, QueueOk;
    SendKeepsQueue(st, step);
    var after := After(st, step);
    if st.status.Serving? {
      match st.session
      case TerminalSent(r) => RenderKeepsTerminal(st, after, |st.queue|, r);
      case FinishSent(r) =>
        var f: nat :| FinishAt(st, f) && TerminalBefore(st, f, r);
        assert FinishAt(after, f);
        RenderKeepsTerminal(st, after, f, r);
      case _ =>
    }
  }

  lemma RenderKeepsTerminal(st: State, after: State, f: nat, r: Record)
    requires TerminalBefore(st, f, r)
    requires after.history == st.history && after.session == st.session && after.written == st.written
    requires after.queue == st.queue || (|after.queue| == |st.queue| + 1 && after.queue[..|st.queue|] == st.queue
                                         && !after.queue[|st.queue|].Terminal?)
    ensures TerminalBefore(after, f, r)
  {
    assert forall i :: 0 <= i < |st.queue| ==> after.queue[i] == st.queue[i];
    if !TerminalDone(st, r) {
      var k: nat :| k < f && TerminalAt(st, k, r);
      assert TerminalAt(after, k, r);
    }
  }

  lemma SendTerminalKeepsInv(st: State)
    requires Inv(st) && Enabled(st, SendTerminal)
    ensures Inv(After(st, SendTerminal))
  {
    hide OutputOk, QueueOk;
    SendKeepsQueue(st, SendTerminal);
    if st.status.Serving? {
      assert TerminalAt(After(st, SendTerminal), |st.queue|, st.session.record);
    }
  }

  lemma SendFinishKeepsInv(st: State)
    requires Inv(st) && Enabled(st, SendFinish)
    ensures Inv(After(st, SendFinish))
  {
    hide OutputOk, QueueOk;
    SendKeepsQueue(st, SendFinish);
    var after, r := After(st, SendFinish), st.session.record;
    if st.status.Serving? {
      assert FinishAt(after, |st.queue|);
      assert TerminalBefore(st, |st.queue|, r);
      if !TerminalDone(st, r) {
        var k: nat :| k < |st.queue| && TerminalAt(st, k, r);
        assert TerminalAt(after, k, r);
      }
      assert TerminalBefore(after, |st.queue|, r);
    }
  }

  lemma WriteKeepsOutput(w: Written, r: Record, history: seq<string>)
    requires OutputOk(w, history) && IsSnapshot(r, history)
    ensures OutputOk(Write(w, r), history)
  {
  }

  lemma ReceiveKeepsOutput(st: State)
    requires Inv(st) && Enabled(st, Receive) && |st.history| <= MAX_REVISION
    ensures OutputOk(After(st, Receive).written, st.history) && QueueOk(After(st, Receive))
  {
    var m := st.queue[0];
    if !m.Finish? {
      if m.Terminal? {
        TerminalIsSnapshot(st, 0);
      }
      WriteKeepsOutput(st.written, m.record, st.history);
    }
  }

  lemma TerminalIsSnapshot(st: State, i: nat)
    requires Inv(st) && st.status.Serving? && |st.history| <= MAX_REVISION
    requires i < |st.queue| && st.queue[i].Terminal?
    ensures !st.session.Running? && st.queue[i].record == st.session.record
    ensures IsSnapshot(st.queue[i].record, st.history) && st.queue[i].record.sequence == Some(|st.history|)
  {
  }

  /** Receiving one message moves the queued terminal record one place forward, or writes it. */
  lemma ReceiveMovesTerminal(st: State, f: nat, r: Record)
    requires Inv(st) && Enabled(st, Receive) && |st.history| <= MAX_REVISION
    requires st.session.TerminalSent? || st.session.FinishSent?
    requires r == st.session.record && !st.queue[0].Finish? && f <= |st.queue| && TerminalBefore(st, f, r)
    ensures f > 0 ==> TerminalBefore(After(st, Receive), f - 1, r)
    ensures f == 0 ==> TerminalDone(After(st, Receive), r)
  {
    var after := After(st, Receive);
    if !TerminalDone(st, r) {
      var k: nat :| k < f && TerminalAt(st, k, r);
      if k > 0 { assert TerminalAt(after, k - 1, r); }
    }
  }

  lemma ReceiveKeepsInv(st: State)
    requires Inv(st) && Enabled(st, Receive) && |st.history| <= MAX_REVISION
    ensures Inv(After(st, Receive))
  {
    ReceiveKeepsOutput(st);
    hide OutputOk, QueueOk, TerminalAt, TerminalDone;
    var after := After(st, Receive);
    match st.session
    case Running => EarlyReceive(st);
    case Holding(r) => EarlyReceive(st);
    case TerminalSent(r) =>
      ReceiveMovesTerminal(st, |st.queue|, r);
    case FinishSent(r) =>
      var f: nat :| FinishAt(st, f) && TerminalBefore(st, f, r);
      if st.queue[0].Finish? {
        TerminalBeforeFirstIsDone(st, r);
      } else {
        assert FinishAt(after, f - 1);
        ReceiveMovesTerminal(st, f, r);
      }
  }

  lemma TerminalBeforeFirstIsDone(st: State, r: Record)
    requires TerminalBefore(st, 0, r)
    ensures WroteLast(st.written, r)
  {
  }

  lemma EarlyReceive(st: State)
    requires Inv(st) && Enabled(st, Receive) && (st.session.Running? || st.session.Holding?)
    ensures TerminalOk(After(st, Receive))
  {
  }

  lemma StepKeepsInv(st: State, step: Step)
    requires Inv(st) && Enabled(st, step) && |After(st, step).history| <= MAX_REVISION
    ensures Inv(After(st, step))
  {
    hide Inv;
    match step
    case Receive => ReceiveKeepsInv(st);
    case WriteError => WriteErrorKeepsInv(st);
    case Update(_, _) => UpdateKeepsInv(st, step);
    case Finalize(_) => UpdateKeepsInv(st, step);
    case TrySend(_) => TrySendKeepsInv(st, step);
    case SendTerminal => SendTerminalKeepsInv(st);
    case SendFinish => SendFinishKeepsInv(st);
  }

  lemma WriteErrorKeepsInv(st: State)
    requires Inv(st) && Enabled(st, WriteError)
    ensures Inv(After(st, WriteError))
  {
  }

  lemma HistoryGrows(st: State, step: Step)
    requires Enabled(st, step)
    ensures st.history <= After(st, step).history
  {
  }

  lemma {:induction false} RunKeepsInv(steps: seq<Step>)
    requires IsRun(steps) && |Exec(steps).history| <= MAX_REVISION
    ensures Inv(Exec(steps))
  {
    hide Inv, After, Enabled;
    if steps == [] {
      StartInv();
    } else {
      var before := Exec(steps[..|steps| - 1]);
      HistoryGrows(before, steps[|steps| - 1]);
      RunKeepsInv(steps[..|steps| - 1]);
      StepKeepsInv(before, steps[|steps| - 1]);
    }
  }

  lemma StartInv()
    ensures Inv(START)
  {
  }

  ghost predicate IsLast(st: State, i: nat) {
    i == |st.written.output| - 1
  }

  /** In every run below revision saturation, however producers, lossy sends, the session and the
      writer interleave: sequences strictly increase, every record is the snapshot of its own revision,
      the terminal record occurs only as the last one, and a writer that stopped has written it. */
  lemma OutputIsOrderedAndTerminalIsLast(steps: seq<Step>)
    requires IsRun(steps) && |Exec(steps).history| <= MAX_REVISION
    ensures var st := Exec(steps);
            && StrictlyIncreasing(st.written.output)
            && (forall i :: 0 <= i < |st.written.output| ==> IsSnapshot(st.written.output[i], st.history))
            && (!st.session.Running? ==>
                  st.history != [] && st.session.record == Snapshot(st.history)
                  && forall i: nat :: i < |st.written.output| && st.written.output[i] == st.session.record ==>
                    IsLast(st, i))
            && (st.status.Stopped? ==>
                  !st.session.Running? && WroteLast(st.written, st.session.record))
  {
    RunKeepsInv(steps);
    var st := Exec(steps);
    var out := st.written.output;
    assert out != [] ==> IsSnapshot(out[|out| - 1], st.history);
    assert forall i: nat :: i < |out| && !IsLast(st, i) ==> out[i].sequence.value < out[|out| - 1].sequence.value;
  }

  /** Update `n` gets a revision above all earlier ones, so that its record is not taken for a stale one,
      exactly when `n` does not exceed the maximum of the counter. */
  lemma RevisionIsFreshIff(n: nat)
    ensures (forall m: nat :: m < n ==> Revision(m) < Revision(n)) <==> n <= MAX_REVISION
  {
    if n > MAX_REVISION {
      assert Revision(MAX_REVISION) == Revision(n);
    }
  }

  /** Beyond the maximum the guarantee is gone: once a record with the greatest revision has been written, the
      terminal record of a later state is taken for a stale one and dropped. */
  lemma SaturatedTerminalIsDropped(w: Written, history: seq<string>)
    requires w.last == Some(MAX_REVISION) && |history| >= MAX_REVISION
    ensures Write(w, Snapshot(history)) == w
  {
    assert Revision(|history|) == MAX_REVISION;
  }

  lemma Push(steps: seq<Step>, step: Step) returns (more: seq<Step>)
    requires IsRun(steps) && Enabled(Exec(steps), step)
    ensures IsRun(more) && Exec(more) == After(Exec(steps), step)
  {
    more := steps + [step];
    assert more[..|more| - 1] == steps;
  }

  /** All is quiet after `n` updates that left the body `body`: every record with a fresh revision is written. */
  ghost predicate IsQuiet(st: State, n: nat, body: string) {
    && |st.history| == n && st.pending == map[] && st.session.Running? && st.queue == [] && st.status.Serving?
    && st.written.last == (if n == 0 then None else Some(Revision(n)))
    && |st.written.output| == Revision(n)
    && forall i :: 0 <= i < |st.written.output| ==> st.written.output[i] == Record(Some(i + 1), body)
  }

  /** Updates that are each sent and received before the next are all written, in order, up to the maximum. */
  lemma {:induction false} QuietRun(n: nat, body: string) returns (steps: seq<Step>)
    ensures IsRun(steps) && IsQuiet(Exec(steps), n, body)
  {
    if n == 0 {
      steps := [];
    } else {
      var before := QuietRun(n - 1, body);
      var updated := Push(before, Update(0, body));
      var sent := Push(updated, TrySend(0));
      steps := Push(sent, Receive);
      hide Exec, IsRun;
      QuietUpdate(Exec(before), n, body);
    }
  }

  lemma QuietUpdate(st: State, n: nat, body: string)
    requires n > 0 && IsQuiet(st, n - 1, body)
    ensures Enabled(st, Update(0, body))
    ensures var updated := After(st, Update(0, body));
            && Enabled(updated, TrySend(0))
            && var sent := After(updated, TrySend(0));
               Enabled(sent, Receive) && IsQuiet(After(sent, Receive), n, body)
  {
  }

  /** `n` updates have been sent while the writer was busy: the queue holds the first 64 of them. */
  ghost predicate IsBurst(st: State, n: nat, body: string) {
    && |st.history| == n && st.pending == map[] && st.session.Running? && st.status.Serving?
    && st.written == Written(None, [])
    && |st.queue| == (if n < 64 then n else 64)
    && forall i :: 0 <= i < |st.queue| ==> st.queue[i] == Render(Record(Some(i + 1), body))
  }

  /** Updates that are sent while nothing is received fill the queue up to its 64 places in order; those after
      that are lost. */
  lemma {:induction false} BurstRun(n: nat, body: string) returns (steps: seq<Step>)
    ensures IsRun(steps) && IsBurst(Exec(steps), n, body)
  {
    if n == 0 {
      steps := [];
    } else {
      var before := BurstRun(n - 1, body);
      var updated := Push(before, Update(0, body));
      steps := Push(updated, TrySend(0));
      hide Exec, IsRun;
      BurstUpdate(Exec(before), n, body);
    }
  }

  lemma BurstUpdate(st: State, n: nat, body: string)
    requires n > 0 && IsBurst(st, n - 1, body)
    ensures Enabled(st, Update(0, body))
    ensures var updated := After(st, Update(0, body));
            Enabled(updated, TrySend(0)) && IsBurst(After(updated, TrySend(0)), n, body)
  {
  }

  ghost predicate EndsWithTerminal(st: State) {
    !st.session.Running? && WroteLast(st.written, st.session.record)
  }

  /** Shutting down a quiet session whose revisions are used up stops without writing the terminal record. */
  lemma SaturatedShutdown(n: nat) returns (steps: seq<Step>)
    requires n > MAX_REVISION
    ensures IsRun(steps)
    ensures |Exec(steps).history| == n && Exec(steps).status.Stopped? && !EndsWithTerminal(Exec(steps))
  {
    steps := QuietRun(n - 1, "update");
    SaturatedEnd(Exec(steps), n);
    steps := Push(steps, Finalize("end"));
    steps := Push(steps, SendTerminal);
    steps := Push(steps, Receive);
    steps := Push(steps, SendFinish);
    steps := Push(steps, Receive);
  }

  lemma SaturatedEnd(st: State, n: nat)
    requires n > MAX_REVISION && IsQuiet(st, n - 1, "update")
    ensures Enabled(st, Finalize("end"))
    ensures var a := After(st, Finalize("end"));
            && Enabled(a, SendTerminal)
            && var b := After(a, SendTerminal);
               && Enabled(b, Receive)
               && var c := After(b, Receive);
                  && Enabled(c, SendFinish)
                  && var d := After(c, SendFinish);
                     && Enabled(d, Receive)
                     && var e := After(d, Receive);
                        |e.history| == n && e.status.Stopped? && !EndsWithTerminal(e)
  {
    assert "end" != "update" by { assert |"end"| != |"update"|; }
    SaturatedTerminalIsDropped(st.written, st.history + ["end"]);
  }

  /** Every run with `n` updates whose writer stopped normally ends with its terminal record, if and only if
      `n` does not exceed the maximum of the revision counter. */
  lemma StoppedRunsEndWithTerminalIff(n: nat)
    ensures (forall steps :: IsRun(steps) && |Exec(steps).history| == n && Exec(steps).status.Stopped? ==>
               EndsWithTerminal(Exec(steps)))
       <==> n <= MAX_REVISION
  {
    if n <= MAX_REVISION {
      forall steps | IsRun(steps) && |Exec(steps).history| == n && Exec(steps).status.Stopped?
        ensures EndsWithTerminal(Exec(steps))
      {
        OutputIsOrderedAndTerminalIsLast(steps);
      }
    } else {
      var steps := SaturatedShutdown(n);
    }
  }

  /** Messages still to be moved once the session has finalized. */
  ghost function Remaining(st: State): nat {
    var sends :=
      match st.session
      case Running => 3
      case Holding(_) => 2
      case TerminalSent(_) => 1
      case FinishSent(_) => 0;
    2 * |st.pending| + 2 * sends + |st.queue|
  }

  /** After finalizing, every step of any thread uses up remaining work, so shutdown cannot go on forever. */
  lemma ShutdownStepsAreBounded(st: State, step: Step)
    requires !st.session.Running? && Enabled(st, step)
    ensures !After(st, step).session.Running? && Remaining(After(st, step)) < Remaining(st)
  {
    if step.TrySend? {
      assert (st.pending - {step.producer}).Keys == st.pending.Keys - {step.producer};
      assert |st.pending - {step.producer}| == |(st.pending - {step.producer}).Keys|;
    }
  }

  /** ... and it cannot get stuck: as long as the session has not queued the stop message or the writer
      still serves, the session or the writer can take a step. */
  lemma ShutdownNeverBlocks(steps: seq<Step>)
    requires IsRun(steps) && |Exec(steps).history| <= MAX_REVISION
    requires var st := Exec(steps); !st.session.Running? && (!st.session.FinishSent? || st.status.Serving?)
    ensures var st := Exec(steps); Enabled(st, SendTerminal) || Enabled(st, SendFinish) || Enabled(st, Receive)
  {
    RunKeepsInv(steps);
  }

  /** A finalized run in which nothing more can happen has stopped the writer right after the terminal
      record, unless a write failed. */
  lemma FinishedRunEndsWithTerminal(steps: seq<Step>)
    requires IsRun(steps) && |Exec(steps).history| <= MAX_REVISION
    requires !Exec(steps).session.Running? && forall step :: !Enabled(Exec(steps), step)
    ensures var st := Exec(steps); st.status.Broken? || (st.status.Stopped? && WroteLast(st.written, st.session.record))
  {
    hide Enabled;
    var st := Exec(steps);
    if !st.session.FinishSent? || st.status.Serving? {
      ShutdownNeverBlocks(steps);
    }
    OutputIsOrderedAndTerminalIsLast(steps);
  }
}
