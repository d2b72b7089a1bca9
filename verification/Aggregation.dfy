/** Reading several commit logs through one cursor. */
module CommitLogs {
  import opened Wrappers

  type SourceId = string
  type Payload = string

  /** Commit `k` of `history` has revision k + 1; the first `trimmed` commits are no longer retained. */
  datatype Log = Log(history: seq<Payload>, trimmed: nat)

  ghost predicate ValidLog(log: Log) {
    log.trimmed <= |log.history|
  }

  datatype Commit = Commit(revision: nat, payload: Payload)

  /** What a read at `position` (the next expected revision) returns, and the position after it. A
      position whose commit was trimmed is moved behind the head, and the commits in between are lost. */
  ghost function ReadAt(log: Log, position: nat): (r: (Option<Commit>, nat))
    requires ValidLog(log) && position >= 1
    ensures r.1 >= 1
  {
    if log.trimmed < position <= |log.history| then
      (Some(Commit(position, log.history[position - 1])), position + 1)
    else if position > |log.history| then (None, position)
    else (None, |log.history| + 1)
  }

  ghost function Head(log: Log): nat {
    |log.history| + 1
  }

  /** The in-memory log: retained entries, their first revision and the newest revision. */
  class RuntimeReader {
    var entries: seq<Commit>
    var firstRetained: Option<nat>
    var head: Option<nat>
    ghost var log: Log

    ghost predicate Valid()
      reads this
    {
      && ValidLog(log)
      && |entries| == |log.history| - log.trimmed
      && (forall i :: 0 <= i < |entries| ==> entries[i] == Commit(log.trimmed + i + 1, log.history[log.trimmed + i]))
      && firstRetained == (if entries == [] then None else Some(log.trimmed + 1))
      && head == (if log.history == [] then None else Some(|log.history|))
    }

    constructor ()
      ensures Valid() && log == Log([], 0)
    {
      entries, firstRetained, head := [], None, None;
      log := Log([], 0);
    }

    /** Appends a commit, then drops the oldest entries down to `kept`, as the retention limits demand. */
    method Publish(payload: Payload, kept: nat)
      requires Valid() && kept <= |entries| + 1
      modifies this
      ensures Valid()
      ensures log.history == old(log.history) + [payload]
      ensures log.trimmed == |log.history| - kept >= old(log.trimmed)
    {
      var revision := if head.Some? then head.value + 1 else 1;
      head := Some(revision);
      entries := entries + [Commit(revision, payload)];
      log := Log(log.history + [payload], log.trimmed);
      assert forall i :: 0 <= i < |entries| ==> entries[i] == Commit(log.trimmed + i + 1, log.history[log.trimmed + i]);
      Trim(kept);
    }

    method Trim(kept: nat)
      requires ValidLog(log) && |entries| == |log.history| - log.trimmed && kept <= |entries|
      requires forall i :: 0 <= i < |entries| ==>
        entries[i] == Commit(log.trimmed + i + 1, log.history[log.trimmed + i])
      requires log.history != [] && head == Some(|log.history|)
      modifies this`entries, this`firstRetained, this`log
      ensures Valid() && log == Log(old(log).history, |old(log).history| - kept)
    {
      var dropped := |entries| - kept;
      entries := entries[dropped..];
      firstRetained := if entries == [] then None else Some(entries[0].revision);
      log := Log(log.history, log.trimmed + dropped);
      assert forall i :: 0 <= i < |entries| ==> entries[i] == old(entries)[dropped + i];
    }

    /** A new cursor expects the revision after the head. */
    method Cursor() returns (position: nat)
      requires Valid()
      ensures position == Head(log)
    {
      position := if head.Some? then head.value + 1 else 1;
    }

    /** The retained commit of a revision, nothing beyond the head, or a report that it was trimmed. */
    method NextChecked(position: nat) returns (r: Result<Option<Commit>, ()>, after: nat)
      requires Valid() && position >= 1
      ensures r.Err? <==> position <= log.trimmed
      ensures r.Ok? ==> (r.value, after) == ReadAt(log, position)
      ensures r.Err? ==> after == position
    {
      after := position;
      if firstRetained.Some? && position >= firstRetained.value && position - firstRetained.value < |entries|
         && entries[position - firstRetained.value].revision == position {
        r := Ok(Some(entries[position - firstRetained.value]));
        after := position + 1;
      } else if head.None? || position > head.value {
        r := Ok(None);
      } else {
        r := Err(());
      }
    }

    /** The compatible read: a trimmed position is moved behind the head and yields nothing. */
    method Next(position: nat) returns (commit: Option<Commit>, after: nat)
      requires Valid() && position >= 1
      ensures (commit, after) == ReadAt(log, position)
    {
      var r;
      r, after := NextChecked(position);
      match r
      case Ok(c) => commit := c;
      case Err(_) =>
        commit := None;
        after := Cursor();
    }
  }
}

/** The aggregated reader: named sources in order of insertion. */
module Aggregation {
  import opened Wrappers
  import opened CommitLogs

  datatype Source = Source(id: SourceId, reader: RuntimeReader)

  /** A source with the state of its log. */
  datatype SourceLog = SourceLog(id: SourceId, log: Log)

  type Cursors = map<SourceId, nat>

  function Ids(sources: seq<Source>): seq<SourceId> {
    seq(|sources|, i requires 0 <= i < |sources| => sources[i].id)
  }

  ghost predicate Unique(sources: seq<Source>) {
    forall i, j :: 0 <= i < j < |sources| ==> sources[i].id != sources[j].id
  }

  ghost predicate UniqueLogs(sources: seq<SourceLog>) {
    forall i, j :: 0 <= i < j < |sources| ==> sources[i].id != sources[j].id
  }

  ghost predicate ValidLogs(sources: seq<SourceLog>) {
    forall i :: 0 <= i < |sources| ==> ValidLog(sources[i].log)
  }

  ghost predicate ValidCursors(cursors: Cursors) {
    forall id :: id in cursors ==> cursors[id] >= 1
  }

  /** The position a source is read at; a source the cursor does not know yet starts at its head. */
  ghost function PositionOf(s: SourceLog, cursors: Cursors): nat {
    if s.id in cursors then cursors[s.id] else Head(s.log)
  }

  datatype AggregatedCommit = AggregatedCommit(sourceId: SourceId, commit: Commit)

  /** One aggregated read: the first source in order that has a commit delivers it. */
  ghost function Round(sources: seq<SourceLog>, cursors: Cursors): (r: (Option<AggregatedCommit>, Cursors))
    requires ValidLogs(sources) && ValidCursors(cursors)
    ensures ValidCursors(r.1)
    decreases |sources|
  {
    if sources == [] then (None, cursors)
    else
      var s := sources[0];
      var (commit, after) := ReadAt(s.log, PositionOf(s, cursors));
      var moved := cursors[s.id := after];
      if commit.Some? then (Some(AggregatedCommit(s.id, commit.value)), moved) else Round(sources[1..], moved)
  }

  lemma RoundStep(sources: seq<SourceLog>, i: nat, cursors: Cursors)
    requires ValidLogs(sources) && ValidCursors(cursors) && i < |sources|
    ensures var s := sources[i];
            var (commit, after) := ReadAt(s.log, PositionOf(s, cursors));
            Round(sources[i..], cursors) ==
              if commit.Some? then (Some(AggregatedCommit(s.id, commit.value)), cursors[s.id := after])
              else Round(sources[i + 1..], cursors[s.id := after])
  {
    hide ReadAt;
    assert sources[i..][0] == sources[i] && sources[i..][1..] == sources[i + 1..];
  }

  ghost function Logs(sources: seq<Source>): (r: seq<SourceLog>)
    reads set s | s in sources :: s.reader
    ensures |r| == |sources|
    ensures forall i :: 0 <= i < |r| ==> r[i] == SourceLog(sources[i].id, sources[i].reader.log)
  {
    if sources == [] then []
    else
      Logs(sources[..|sources| - 1]) + [SourceLog(sources[|sources| - 1].id, sources[|sources| - 1].reader.log)]
  }

  class AggregatedCursor {
    var cursors: Cursors

    constructor (initial: Cursors)
      ensures cursors == initial
    {
      cursors := initial;
    }
  }

  class AggregatedRuntimeReader {
    var sources: seq<Source>

    ghost predicate Valid()
      reads this, set s | s in sources :: s.reader
    {
      Unique(sources) && forall s :: s in sources ==> s.reader.Valid()
    }

    constructor ()
      ensures Valid() && sources == []
    {
      sources := [];
    }

    /** Replaces the reader of a known source in place, or appends a new source. */
    method InsertSource(id: SourceId, reader: RuntimeReader)
      requires Valid() && reader.Valid()
      modifies this
      ensures Valid()
      ensures id !in Ids(old(sources)) ==> sources == old(sources) + [Source(id, reader)]
      ensures id in Ids(old(sources)) ==> Ids(sources) == Ids(old(sources))
      ensures forall i :: 0 <= i < |old(sources)| ==>
        sources[i] == if old(sources)[i].id == id then Source(id, reader) else old(sources)[i]
    {
      for i := 0 to |sources|
        invariant sources == old(sources)
        invariant forall j :: 0 <= j < i ==> sources[j].id != id
      {
        if sources[i].id == id {
          assert Ids(sources)[i] == id;
          sources := sources[i := Source(id, reader)];
          assert Ids(sources) == Ids(old(sources));
          return;
        }
      }
      assert id !in Ids(sources);
      sources := sources + [Source(id, reader)];
    }

    /** Takes a source out and hands back its reader; the others keep their order. */
    method RemoveSource(id: SourceId) returns (reader: Option<RuntimeReader>)
      requires Valid()
      modifies this
      ensures Valid()
      ensures reader.None? <==> id !in Ids(old(sources))
      ensures reader.None? ==> sources == old(sources)
      ensures reader.Some? ==> exists i :: 0 <= i < |old(sources)| && old(sources)[i] == Source(id, reader.value)
                                        && sources == old(sources)[..i] + old(sources)[i + 1..]
    {
      for i := 0 to |sources|
        invariant sources == old(sources)
        invariant forall j :: 0 <= j < i ==> sources[j].id != id
      {
        if sources[i].id == id {
          reader := Some(sources[i].reader);
          assert Ids(sources)[i] == id;
          sources := sources[..i] + sources[i + 1..];
          return;
        }
      }
      assert id !in Ids(sources);
      reader := None;
    }

    method Cursor() returns (cursor: AggregatedCursor)
      requires Valid()
      ensures fresh(cursor)
      ensures cursor.cursors.Keys == set s | s in sources :: s.id
      ensures forall s :: s in sources ==> cursor.cursors[s.id] == Head(s.reader.log)
    {
      var cursors: Cursors := map[];
      for i := 0 to |sources|
        invariant forall id :: id in cursors <==> exists j :: 0 <= j < i && sources[j].id == id
        invariant forall j :: 0 <= j < i ==> cursors[sources[j].id] == Head(sources[j].reader.log)
      {
        var position := sources[i].reader.Cursor();
        cursors := cursors[sources[i].id := position];
      }
      cursor := new AggregatedCursor(cursors);
    }

    /** Reads one source, starting it at its head if the cursor does not know it. */
    method ReadSource(s: Source, cursor: AggregatedCursor) returns (commit: Option<Commit>)
      requires s.reader.Valid() && ValidCursors(cursor.cursors)
      modifies cursor
      ensures var read := ReadAt(s.reader.log, PositionOf(SourceLog(s.id, s.reader.log), old(cursor.cursors)));
              commit == read.0 && cursor.cursors == old(cursor.cursors)[s.id := read.1]
    {
      hide ReadAt;
      if s.id !in cursor.cursors {
        var start := s.reader.Cursor();
        cursor.cursors := cursor.cursors[s.id := start];
      }
      var after;
      commit, after := s.reader.Next(cursor.cursors[s.id]);
      cursor.cursors := cursor.cursors[s.id := after];
    }

    /** One aggregated read; the cursor is updated for every source that was looked at. */
    method Next(cursor: AggregatedCursor) returns (r: Option<AggregatedCommit>)
      requires Valid() && ValidCursors(cursor.cursors)
      modifies cursor
      ensures ValidLogs(Logs(sources)) && (r, cursor.cursors) == Round(Logs(sources), old(cursor.cursors))
    {
      ghost var logs := Logs(sources);
      hide Logs, ReadAt, Round;
      assert forall i :: 0 <= i < |sources| ==> sources[i] in sources;
      for i := 0 to |sources|
        invariant ValidCursors(cursor.cursors) && Logs(sources) == logs && ValidLogs(logs)
        invariant Round(logs, old(cursor.cursors)) == Round(logs[i..], cursor.cursors)
      {
        var s := sources[i];
        assert s in sources && logs[i] == SourceLog(s.id, s.reader.log);
        ghost var before := cursor.cursors;
        RoundStep(logs, i, before);
        var commit := ReadSource(s, cursor);
        if commit.Some? {
          return Some(AggregatedCommit(s.id, commit.value));
        }
      }
      assert logs[|sources|..] == [];
      RoundOfNone(cursor.cursors);
      r := None;
    }
  }

  lemma RoundOfNone(cursors: Cursors)
    requires ValidCursors(cursors)
    ensures Round([], cursors) == (None, cursors)
  {
  }

  // ---- what one aggregated read achieves ----

  /** Commits a source still has to deliver. */
  ghost function Waiting(s: SourceLog, cursors: Cursors): int {
    Head(s.log) - PositionOf(s, cursors)
  }

  ghost function Backlog(sources: seq<SourceLog>, cursors: Cursors): int {
    if sources == [] then 0 else Waiting(sources[0], cursors) + Backlog(sources[1..], cursors)
  }

  /** The cursor is at a retained commit or behind the head, so nothing would be skipped. */
  ghost predicate KeepsUp(s: SourceLog, cursors: Cursors) {
    PositionOf(s, cursors) > s.log.trimmed
  }

  ghost predicate AllKeepUp(sources: seq<SourceLog>, cursors: Cursors) {
    forall i :: 0 <= i < |sources| ==> KeepsUp(sources[i], cursors)
  }

  ghost predicate Consistent(sources: seq<SourceLog>, cursors: Cursors) {
    && ValidLogs(sources) && UniqueLogs(sources) && ValidCursors(cursors)
    && forall i :: 0 <= i < |sources| ==> PositionOf(sources[i], cursors) <= Head(sources[i].log)
  }

  lemma {:induction false} BacklogDependsOnListed(sources: seq<SourceLog>, a: Cursors, b: Cursors)
    requires forall i :: 0 <= i < |sources| ==> PositionOf(sources[i], a) == PositionOf(sources[i], b)
    ensures Backlog(sources, a) == Backlog(sources, b)
  {
    if sources != [] {
      assert PositionOf(sources[0], a) == PositionOf(sources[0], b);
      assert forall i :: 0 <= i < |sources[1..]| ==> sources[1..][i] == sources[i + 1];
      BacklogDependsOnListed(sources[1..], a, b);
    }
  }

  /** Moving the first source does not move the others. */
  lemma FirstMoves(sources: seq<SourceLog>, cursors: Cursors)
    requires sources != [] && Consistent(sources, cursors)
    ensures var moved := cursors[sources[0].id := ReadAt(sources[0].log, PositionOf(sources[0], cursors)).1];
            && Consistent(sources, moved) && Consistent(sources[1..], moved)
            && Backlog(sources[1..], moved) == Backlog(sources[1..], cursors)
            && (AllKeepUp(sources, cursors) ==> AllKeepUp(sources[1..], moved))
  {
    var s, rest := sources[0], sources[1..];
    var moved := cursors[s.id := ReadAt(s.log, PositionOf(s, cursors)).1];
    assert forall i :: 0 <= i < |rest| ==> rest[i] == sources[i + 1];
    assert forall i :: 0 <= i < |rest| ==> PositionOf(rest[i], moved) == PositionOf(rest[i], cursors);
    BacklogDependsOnListed(rest, moved, cursors);
  }

  lemma {:induction false} UnlistedStay(sources: seq<SourceLog>, cursors: Cursors, id: SourceId)
    requires ValidLogs(sources) && ValidCursors(cursors)
    requires forall i :: 0 <= i < |sources| ==> sources[i].id != id
    ensures id in Round(sources, cursors).1 <==> id in cursors
    ensures id in cursors ==> Round(sources, cursors).1[id] == cursors[id]
    decreases |sources|
  {
    if sources != [] {
      assert sources[0].id != id;
      var moved := cursors[sources[0].id := ReadAt(sources[0].log, PositionOf(sources[0], cursors)).1];
      UnlistedStay(sources[1..], moved, id);
    }
  }

  /** A read that delivers something lowers the backlog, by exactly one when every source keeps up; a
      read that delivers nothing leaves every source drained, and there was nothing to deliver if every
      source kept up. */
  lemma {:induction false} RoundProgress(sources: seq<SourceLog>, cursors: Cursors)
    requires Consistent(sources, cursors)
    ensures var (r, after) := Round(sources, cursors);
            && Consistent(sources, after)
            && (r.Some? ==> Backlog(sources, after) < Backlog(sources, cursors))
            && (r.None? ==> Backlog(sources, after) == 0)
            && (AllKeepUp(sources, cursors) ==>
                  Backlog(sources, after) == Backlog(sources, cursors) - if r.Some? then 1 else 0)
    decreases |sources|
  {
    if sources != [] {
      var s, rest := sources[0], sources[1..];
      var moved := cursors[s.id := ReadAt(s.log, PositionOf(s, cursors)).1];
      FirstMoves(sources, cursors);
      if ReadAt(s.log, PositionOf(s, cursors)).0.None? {
        RoundProgress(rest, moved);
        assert forall i :: 0 <= i < |rest| ==> rest[i] == sources[i + 1] && rest[i].id != s.id;
        UnlistedStay(rest, moved, s.id);
        assert forall i :: 1 <= i < |sources| ==> sources[i] == rest[i - 1];
      }
    }
  }

  lemma {:induction false} EmptyBacklogIffDrained(sources: seq<SourceLog>, cursors: Cursors)
    requires Consistent(sources, cursors)
    ensures Backlog(sources, cursors) >= 0
    ensures Backlog(sources, cursors) == 0 <==>
      forall i :: 0 <= i < |sources| ==> PositionOf(sources[i], cursors) == Head(sources[i].log)
  {
    if sources != [] {
      var rest := sources[1..];
      assert forall i :: 0 <= i < |rest| ==> rest[i] == sources[i + 1];
      assert forall i :: 1 <= i < |sources| ==> sources[i] == rest[i - 1];
      EmptyBacklogIffDrained(rest, cursors);
    }
  }
}
