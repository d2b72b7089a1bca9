/** The content-addressed store of holiday calendars: immutable snapshot files and one active pointer.
    Writers run one at a time, and a process crash may cut a write after any file-system step. */
module CalendarStore {
  import opened Wrappers

  const SCHEMA: nat := 1

  datatype Snapshot = Snapshot(schema: nat, sourceUrl: string, fetchedAt: string, contentHash: string,
                               firstYear: int, lastYear: int, holidays: seq<int>)

  datatype Pointer = Pointer(schema: nat, contentHash: string, activatedAt: string)

  /** Outside functions: the content hash of a holiday list, its textual form, the year of a date, and
      the syntax of timestamps. */
  datatype Env = Env(hash: seq<int> -> string, isHash: string -> bool, year: int -> int, isTimestamp: string -> bool)

  /** A snapshot file while it is written: cut off, without its final line feed, complete. A cut-off
      file does not parse. */
  datatype File = Torn | Body(content: Snapshot) | Full(content: Snapshot)

  function Parse(f: File): Option<Snapshot> {
    if f.Torn? then None else Some(f.content)
  }

  /** The characters with the Unicode property White_Space. */
  predicate IsWhiteSpace(c: char) {
    var n := c as int;
    || 0x9 <= n <= 0xD || n == 0x20 || n == 0x85 || n == 0xA0 || n == 0x1680 || 0x2000 <= n <= 0x200A
    || n == 0x2028 || n == 0x2029 || n == 0x202F || n == 0x205F || n == 0x3000
  }

  predicate IsBlank(s: string) {
    forall i :: 0 <= i < |s| ==> IsWhiteSpace(s[i])
  }

  ghost predicate Valid(env: Env, s: Snapshot) {
    && s.schema == SCHEMA && !IsBlank(s.sourceUrl) && env.isTimestamp(s.fetchedAt)
    && s.holidays != []
    && (forall i, j :: 0 <= i < j < |s.holidays| ==> s.holidays[i] < s.holidays[j])
    && s.firstYear == env.year(s.holidays[0])
    && s.lastYear == env.year(s.holidays[|s.holidays| - 1])
    && s.contentHash == env.hash(s.holidays)
  }

  ghost predicate ValidPointer(env: Env, p: Pointer) {
    p.schema == SCHEMA && env.isHash(p.contentHash) && env.isTimestamp(p.activatedAt)
  }

  datatype ReadError = BadPointer | MissingSnapshot | BadSnapshot | HashMismatch

  datatype Store = Store(snapshots: map<string, File>, active: Option<Pointer>)

  /** What a reader gets. */
  ghost function Read(env: Env, fs: Store): Result<Option<Snapshot>, ReadError> {
    match fs.active
    case None => Ok(None)
    case Some(p) =>
      if !ValidPointer(env, p) then Err(BadPointer)
      else if p.contentHash !in fs.snapshots then Err(MissingSnapshot)
      else
        match Parse(fs.snapshots[p.contentHash])
        case None => Err(BadSnapshot)
        case Some(s) =>
          if !Valid(env, s) then Err(BadSnapshot)
          else if s.contentHash != p.contentHash then Err(HashMismatch)
          else Ok(Some(s))
  }

  /** Where the current writer is. */
  datatype Phase =
    | Idle
    | Validated(s: Snapshot)
    | Created(s: Snapshot)
    | BodyWritten(s: Snapshot)
    | LineWritten(s: Snapshot)
    | Stored(s: Snapshot)
    | Verified(s: Snapshot)
    | TempReady(s: Snapshot, pointer: Pointer)
    | Activated(s: Snapshot)
    | Succeeded(s: Snapshot)

  datatype State = State(fs: Store, phase: Phase)

  const START := State(Store(map[], None), Idle)

  datatype Step =
    | Begin(snapshot: Snapshot)
    | CreateNew
    | WriteBody
    | WriteLine
    | UndoWrite          // a write or file sync failed and the file was removed
    | SyncStored
    | CheckExisting
    | WriteTemp(activatedAt: string)
    | Rename
    | SyncActive
    | GiveUp             // any other error return
    | Crash

  predicate AtRest(phase: Phase) {
    phase.Idle? || phase.Succeeded?
  }

  /** The writer has created the file of this hash and has not finished storing it. */
  predicate IsCreating(phase: Phase, hash: string) {
    (phase.Created? || phase.BodyWritten? || phase.LineWritten?) && phase.s.contentHash == hash
  }

  /** The stored file agrees with the snapshot that is being written. */
  ghost predicate Matches(env: Env, fs: Store, s: Snapshot) {
    && s.contentHash in fs.snapshots
    && Parse(fs.snapshots[s.contentHash]).Some?
    && var existing := Parse(fs.snapshots[s.contentHash]).value;
       && Valid(env, existing) && existing.contentHash == s.contentHash
       && existing.sourceUrl == s.sourceUrl && existing.holidays == s.holidays
  }

  ghost predicate Enabled(env: Env, st: State, step: Step) {
    match step
    case Begin(s) => AtRest(st.phase) && Valid(env, s)
    case CreateNew => st.phase.Validated?
    case WriteBody => st.phase.Created?
    case WriteLine => st.phase.BodyWritten?
    case UndoWrite => st.phase.Created? || st.phase.BodyWritten? || st.phase.LineWritten?
    case SyncStored => st.phase.LineWritten?
    case CheckExisting => st.phase.Stored? && Matches(env, st.fs, st.phase.s)
    case WriteTemp(at) => st.phase.Verified? && ValidPointer(env, Pointer(SCHEMA, st.phase.s.contentHash, at))
    case Rename => st.phase.TempReady?
    case SyncActive => st.phase.Activated?
    case GiveUp => !AtRest(st.phase)
    case Crash => true
  }

  ghost function After(env: Env, st: State, step: Step): State
    requires Enabled(env, st, step)
  {
    match step
    case Begin(s) => st.(phase := Validated(s))
    case CreateNew =>
      var s := st.phase.s;
      if s.contentHash in st.fs.snapshots then st.(phase := Stored(s))
      else State(st.fs.(snapshots := st.fs.snapshots[s.contentHash := Torn]), Created(s))
    case WriteBody =>
      var s := st.phase.s;
      State(st.fs.(snapshots := st.fs.snapshots[s.contentHash := Body(s)]), BodyWritten(s))
    case WriteLine =>
      var s := st.phase.s;
      State(st.fs.(snapshots := st.fs.snapshots[s.contentHash := Full(s)]), LineWritten(s))
    case UndoWrite => State(st.fs.(snapshots := st.fs.snapshots - {st.phase.s.contentHash}), Idle)
    case SyncStored => st.(phase := Stored(st.phase.s))
    case CheckExisting => st.(phase := Verified(st.phase.s))
    case WriteTemp(at) => st.(phase := TempReady(st.phase.s, Pointer(SCHEMA, st.phase.s.contentHash, at)))
    case Rename => State(st.fs.(active := Some(st.phase.pointer)), Activated(st.phase.s))
    case SyncActive => st.(phase := Succeeded(st.phase.s))
    case GiveUp => st.(phase := Idle)
    case Crash => st.(phase := Idle)
  }

  ghost predicate IsRun(env: Env, from: State, steps: seq<Step>)
    decreases |steps|
  {
    steps == [] || (Enabled(env, from, steps[0]) && IsRun(env, After(env, from, steps[0]), steps[1..]))
  }

  ghost function Exec(env: Env, from: State, steps: seq<Step>): State
    requires IsRun(env, from, steps)
    decreases |steps|
  {
    if steps == [] then from else Exec(env, After(env, from, steps[0]), steps[1..])
  }

  // ---- invariant ----

  /** A file that parses holds a valid snapshot under its own hash. */
  ghost predicate FileOk(env: Env, hash: string, f: File) {
    Parse(f).Some? ==> Valid(env, Parse(f).value) && Parse(f).value.contentHash == hash
  }

  ghost predicate ActiveOk(env: Env, fs: Store) {
    fs.active.Some? ==>
      && ValidPointer(env, fs.active.value)
      && fs.active.value.contentHash in fs.snapshots
      && Parse(fs.snapshots[fs.active.value.contentHash]).Some?
  }

  ghost predicate PhaseOk(env: Env, st: State) {
    match st.phase
    case Idle => true
    case Validated(s) => Valid(env, s)
    case Created(s) => Valid(env, s) && s.contentHash in st.fs.snapshots && IsInactive(st, s)
    case BodyWritten(s) => Valid(env, s) && s.contentHash in st.fs.snapshots && IsInactive(st, s)
    case LineWritten(s) => Valid(env, s) && s.contentHash in st.fs.snapshots && IsInactive(st, s)
    case Stored(s) => Valid(env, s)
    case Verified(s) => Matches(env, st.fs, s)
    case TempReady(s, p) => Matches(env, st.fs, s) && ValidPointer(env, p) && p.contentHash == s.contentHash
    case Activated(s) => Matches(env, st.fs, s) && PointsAt(st, s)
    case Succeeded(s) => Matches(env, st.fs, s) && PointsAt(st, s)
  }

  ghost predicate IsInactive(st: State, s: Snapshot) {
    st.fs.active.Some? ==> st.fs.active.value.contentHash != s.contentHash
  }

  ghost predicate PointsAt(st: State, s: Snapshot) {
    st.fs.active.Some? && st.fs.active.value.contentHash == s.contentHash
  }

  ghost predicate Inv(env: Env, st: State) {
    && (forall h :: h in st.fs.snapshots ==> FileOk(env, h, st.fs.snapshots[h]))
    && ActiveOk(env, st.fs)
    && PhaseOk(env, st)
  }

  lemma StepKeepsInv(env: Env, st: State, step: Step)
    requires Inv(env, st) && Enabled(env, st, step)
    ensures Inv(env, After(env, st, step))
  {
    hide Valid, ValidPointer;
  }

  lemma {:induction false} RunKeepsInv(env: Env, from: State, steps: seq<Step>)
    requires Inv(env, from) && IsRun(env, from, steps)
    ensures Inv(env, Exec(env, from, steps))
    decreases |steps|
  {
    hide Inv, Enabled, After;
    if steps != [] {
      StepKeepsInv(env, from, steps[0]);
      RunKeepsInv(env, After(env, from, steps[0]), steps[1..]);
    }
  }

  /** After any sequence of writes, each finished, failed or cut by a crash at any step, a read never
      fails: it finds nothing active, or a valid snapshot with the active hash. */
  lemma ReadsNeverFail(env: Env, steps: seq<Step>)
    requires IsRun(env, START, steps)
    ensures var fs := Exec(env, START, steps).fs;
            && Read(env, fs).Ok?
            && (Read(env, fs).value.Some? <==> fs.active.Some?)
            && (fs.active.Some? ==>
                  && Read(env, fs).value.value.contentHash == fs.active.value.contentHash
                  && Valid(env, Read(env, fs).value.value))
  {
    RunKeepsInv(env, START, steps);
    hide Valid, ValidPointer;
  }

  /** Right after a successful write a read returns the same source and holidays. */
  lemma ReadAfterWrite(env: Env, steps: seq<Step>)
    requires IsRun(env, START, steps) && Exec(env, START, steps).phase.Succeeded?
    ensures var st := Exec(env, START, steps);
            && Read(env, st.fs).Ok? && Read(env, st.fs).value.Some?
            && var got := Read(env, st.fs).value.value;
               got.sourceUrl == st.phase.s.sourceUrl && got.holidays == st.phase.s.holidays
               && got.contentHash == st.phase.s.contentHash
  {
    RunKeepsInv(env, START, steps);
    hide Valid, ValidPointer;
  }

  /** A failed or crashed write before the rename leaves what readers see as it was. */
  lemma OnlyRenameChangesReads(env: Env, st: State, step: Step)
    requires Inv(env, st) && Enabled(env, st, step) && !step.Rename?
    ensures Read(env, After(env, st, step).fs) == Read(env, st.fs)
  {
    hide Valid, ValidPointer;
  }

  /** A file that no writer is creating is never changed or removed, whatever happens later. */
  lemma {:induction false} StoredFilesAreImmutable(env: Env, from: State, steps: seq<Step>, hash: string)
    requires IsRun(env, from, steps)
    requires hash in from.fs.snapshots && !IsCreating(from.phase, hash)
    ensures var st := Exec(env, from, steps);
            hash in st.fs.snapshots && st.fs.snapshots[hash] == from.fs.snapshots[hash] && !IsCreating(st.phase, hash)
    decreases |steps|
  {
    if steps != [] {
      StoredFilesAreImmutable(env, After(env, from, steps[0]), steps[1..], hash);
    }
  }

  ghost predicate PastCheck(phase: Phase, hash: string) {
    (phase.Verified? || phase.TempReady? || phase.Activated? || phase.Succeeded?) && phase.s.contentHash == hash
  }

  /** A crash between creating a snapshot file and completing its body blocks that hash for good: no
      later write of it gets past the check of the existing file, and it is never activated. */
  lemma {:induction false} TornFileBlocksItsHash(env: Env, from: State, steps: seq<Step>, hash: string)
    requires IsRun(env, from, steps) && Inv(env, from)
    requires hash in from.fs.snapshots && from.fs.snapshots[hash].Torn? && !IsCreating(from.phase, hash)
    ensures var st := Exec(env, from, steps);
            !PastCheck(st.phase, hash) && (st.fs.active.Some? ==> st.fs.active.value.contentHash != hash)
  {
    StoredFilesAreImmutable(env, from, steps, hash);
    RunKeepsInv(env, from, steps);
    hide Valid, ValidPointer;
  }

  /** A stored file that is torn, or holds another source or other holidays, keeps every later write of
      `s` from getting past the check. */
  lemma MismatchBlocksWrites(env: Env, from: State, steps: seq<Step>, s: Snapshot)
    requires IsRun(env, from, steps) && Inv(env, from)
    requires s.contentHash in from.fs.snapshots && !IsCreating(from.phase, s.contentHash) && !Matches(env, from.fs, s)
    ensures var phase := Exec(env, from, steps).phase; !(PastCheck(phase, s.contentHash) && phase.s == s)
  {
    StoredFilesAreImmutable(env, from, steps, s.contentHash);
    RunKeepsInv(env, from, steps);
    hide Valid, ValidPointer;
  }

  /** A write that fails before its file is synced removes the file again: the store is as it was. */
  lemma FailedWriteLeavesNoTrace(env: Env, st: State, s: Snapshot, written: nat)
    requires AtRest(st.phase) && Valid(env, s) && s.contentHash !in st.fs.snapshots && written <= 2
    ensures var steps := [Begin(s), CreateNew] + [WriteBody, WriteLine][..written] + [UndoWrite];
            IsRun(env, st, steps) && Exec(env, st, steps) == State(st.fs, Idle)
  {
    hide Valid;
    var rest := [WriteBody, WriteLine][..written] + [UndoWrite];
    var a := After(env, st, Begin(s));
    var b := After(env, a, CreateNew);
    UndoneWrite(env, b, s, written);
    assert b.fs.snapshots - {s.contentHash} == st.fs.snapshots;
    RunCons(env, a, CreateNew, rest);
    RunCons(env, st, Begin(s), [CreateNew] + rest);
    assert [Begin(s)] + ([CreateNew] + rest) == [Begin(s), CreateNew] + [WriteBody, WriteLine][..written] + [UndoWrite];
  }

  lemma UndoneWrite(env: Env, st: State, s: Snapshot, written: nat)
    requires st.phase == Created(s) && written <= 2
    ensures var steps := [WriteBody, WriteLine][..written] + [UndoWrite];
            && IsRun(env, st, steps)
            && Exec(env, st, steps) == State(st.fs.(snapshots := st.fs.snapshots - {s.contentHash}), Idle)
  {
    hide IsRun, Exec;
    var a := After(env, st, WriteBody);
    var b := After(env, a, WriteLine);
    if written == 0 {
      assert [WriteBody, WriteLine][..0] + [UndoWrite] == [UndoWrite];
      UndoNow(env, st, st, s);
    } else if written == 1 {
      assert [WriteBody, WriteLine][..1] + [UndoWrite] == [WriteBody] + [UndoWrite];
      UndoNow(env, st, a, s);
      RunCons(env, st, WriteBody, [UndoWrite]);
    } else {
      assert [WriteBody, WriteLine][..2] + [UndoWrite] == [WriteBody] + ([WriteLine] + [UndoWrite]);
      UndoNow(env, st, b, s);
      RunCons(env, a, WriteLine, [UndoWrite]);
      RunCons(env, st, WriteBody, [WriteLine] + [UndoWrite]);
    }
  }

  lemma UndoNow(env: Env, was: State, st: State, s: Snapshot)
    requires st.phase == Created(s) || st.phase == BodyWritten(s) || st.phase == LineWritten(s)
    requires st.fs.active == was.fs.active
    requires st.fs.snapshots - {s.contentHash} == was.fs.snapshots - {s.contentHash}
    ensures IsRun(env, st, [UndoWrite])
    ensures Exec(env, st, [UndoWrite]) == State(was.fs.(snapshots := was.fs.snapshots - {s.contentHash}), Idle)
  {
    RunCons(env, st, UndoWrite, []);
    assert [UndoWrite] + [] == [UndoWrite];
  }

  /** Every file is complete but the one that is being created. */
  ghost predicate FilesComplete(st: State) {
    forall h :: h in st.fs.snapshots ==> st.fs.snapshots[h].Full? || IsCreating(st.phase, h)
  }

  /** A crash, or an error after which the file cannot be removed, while a file is being created. */
  predicate Disturbs(phase: Phase, step: Step) {
    (step.Crash? || step.GiveUp?) && (phase.Created? || phase.BodyWritten? || phase.LineWritten?)
  }

  ghost predicate Undisturbed(env: Env, from: State, steps: seq<Step>)
    requires IsRun(env, from, steps)
    decreases |steps|
  {
    steps == [] || (!Disturbs(from.phase, steps[0]) && Undisturbed(env, After(env, from, steps[0]), steps[1..]))
  }

  lemma CompleteStep(env: Env, st: State, step: Step)
    requires FilesComplete(st) && LinesWritten(st) && Enabled(env, st, step) && !Disturbs(st.phase, step)
    ensures FilesComplete(After(env, st, step)) && LinesWritten(After(env, st, step))
  {
    hide Valid, ValidPointer, Matches;
  }

  /** A file whose final line feed has been written is complete. */
  ghost predicate LinesWritten(st: State) {
    st.phase.LineWritten? ==> st.phase.s.contentHash in st.fs.snapshots && st.fs.snapshots[st.phase.s.contentHash].Full?
  }

  lemma {:induction false} RunKeepsFilesComplete(env: Env, from: State, steps: seq<Step>)
    requires IsRun(env, from, steps) && FilesComplete(from) && LinesWritten(from)
    requires Undisturbed(env, from, steps)
    ensures FilesComplete(Exec(env, from, steps)) && LinesWritten(Exec(env, from, steps))
    decreases |steps|
  {
    hide FilesComplete, LinesWritten, Enabled, After;
    if steps != [] {
      CompleteStep(env, from, steps[0]);
      RunKeepsFilesComplete(env, After(env, from, steps[0]), steps[1..]);
    }
  }

  /** Unless a crash, or a file that cannot be removed, comes while a file is being created, every file is complete
      whenever the writer is at rest, however many writes failed. */
  lemma FailedWritesLeaveNoTornFile(env: Env, steps: seq<Step>, hash: string)
    requires IsRun(env, START, steps) && Undisturbed(env, START, steps) && AtRest(Exec(env, START, steps).phase)
    requires hash in Exec(env, START, steps).fs.snapshots
    ensures Exec(env, START, steps).fs.snapshots[hash].Full?
  {
    RunKeepsFilesComplete(env, START, steps);
  }

  /** The years of a valid snapshot span its holidays, and its hash determines them. */
  lemma ValidSnapshotsAreDetermined(env: Env, s: Snapshot, t: Snapshot, i: nat)
    requires Valid(env, s) && Valid(env, t) && i < |s.holidays|
    requires forall a, b :: a <= b ==> env.year(a) <= env.year(b)
    requires forall a, b :: env.hash(a) == env.hash(b) ==> a == b
    ensures s.firstYear <= env.year(s.holidays[i]) <= s.lastYear
    ensures s.contentHash == t.contentHash ==>
      s.holidays == t.holidays && s.firstYear == t.firstYear && s.lastYear == t.lastYear
  {
    assert s.holidays[0] <= s.holidays[i] <= s.holidays[|s.holidays| - 1];
  }

  /** A valid snapshot stops being valid when any one of its fields is tampered with. */
  lemma TamperingIsNoticed(env: Env, s: Snapshot, number: nat, text: string, year: int)
    requires Valid(env, s)
    ensures number != 1 ==> !Valid(env, s.(schema := number))
    ensures (forall i :: 0 <= i < |text| ==> text[i] == ' ' || text[i] == '\t') ==> !Valid(env, s.(sourceUrl := text))
    ensures !env.isTimestamp(text) ==> !Valid(env, s.(fetchedAt := text))
    ensures year != s.firstYear ==> !Valid(env, s.(firstYear := year))
    ensures year != s.lastYear ==> !Valid(env, s.(lastYear := year))
    ensures text != s.contentHash ==> !Valid(env, s.(contentHash := text))
    ensures !Valid(env, s.(holidays := []))
  {
  }

  /** Holidays that do not strictly ascend are refused, wherever they fail to. */
  lemma DisorderIsNoticed(env: Env, s: Snapshot, i: nat, j: nat)
    requires i < j < |s.holidays| && s.holidays[i] >= s.holidays[j]
    ensures !Valid(env, s)
  {
  }

  lemma PointerTamperingIsNoticed(env: Env, p: Pointer, number: nat, text: string)
    ensures number != 1 ==> !ValidPointer(env, p.(schema := number))
    ensures !env.isHash(text) ==> !ValidPointer(env, p.(contentHash := text))
    ensures !env.isTimestamp(text) ==> !ValidPointer(env, p.(activatedAt := text))
  {
  }

  /** Whatever is on disk, a read returns nothing but a valid snapshot whose holidays have the active hash, and
      it returns nothing only without an active pointer. */
  lemma ReadsAreGenuine(env: Env, fs: Store)
    ensures Read(env, fs) == Ok(None) <==> fs.active.None?
    ensures Read(env, fs).Ok? && fs.active.Some? ==>
      && Read(env, fs).value.Some?
      && var s := Read(env, fs).value.value;
         && Valid(env, s) && env.hash(s.holidays) == fs.active.value.contentHash && ValidPointer(env, fs.active.value)
         && fs.active.value.contentHash in fs.snapshots
         && Parse(fs.snapshots[fs.active.value.contentHash]) == Some(s)
  {
  }

  /** How a torn file comes about: the process dies right after creating the file. */
  lemma CrashLeavesTornFile(env: Env, st: State, s: Snapshot)
    requires AtRest(st.phase) && Valid(env, s) && s.contentHash !in st.fs.snapshots
    ensures var steps := [Begin(s), CreateNew, Crash];
            && IsRun(env, st, steps)
            && s.contentHash in Exec(env, st, steps).fs.snapshots
            && Exec(env, st, steps).fs.snapshots[s.contentHash].Torn?
            && Exec(env, st, steps).phase.Idle?
  {
    hide Valid;
    var a := After(env, st, Begin(s));
    var b := After(env, a, CreateNew);
    RunCons(env, st, Begin(s), [CreateNew, Crash]);
    RunCons(env, a, CreateNew, [Crash]);
    RunCons(env, b, Crash, []);
    assert [Begin(s)] + [CreateNew, Crash] == [Begin(s), CreateNew, Crash];
    assert [CreateNew] + [Crash] == [CreateNew, Crash] && [Crash] + [] == [Crash];
  }

  /** A valid snapshot can be written by some run, however many attempts that takes, if and only if its
      hash is free or the file there is complete and has the same source and holidays. */
  lemma WriteCanSucceedIff(env: Env, st: State, s: Snapshot, at: string)
    requires Inv(env, st) && AtRest(st.phase) && Valid(env, s)
    requires env.isHash(s.contentHash) && env.isTimestamp(at)
    ensures (exists steps :: IsRun(env, st, steps) && Exec(env, st, steps).phase == Succeeded(s))
       <==> s.contentHash !in st.fs.snapshots || Matches(env, st.fs, s)
  {
    if s.contentHash !in st.fs.snapshots {
      FreshWrite(env, st, s, at);
    } else if Matches(env, st.fs, s) {
      RepeatedWrite(env, st, s, at);
    } else {
      forall steps | IsRun(env, st, steps) ensures Exec(env, st, steps).phase != Succeeded(s) {
        MismatchBlocksWrites(env, st, steps, s);
      }
    }
  }

  lemma RunCons(env: Env, from: State, step: Step, rest: seq<Step>)
    ensures IsRun(env, from, [step] + rest)
       <==> Enabled(env, from, step) && IsRun(env, After(env, from, step), rest)
    ensures IsRun(env, from, [step] + rest) ==>
      Exec(env, from, [step] + rest) == Exec(env, After(env, from, step), rest)
  {
    assert ([step] + rest)[1..] == rest;
  }

  lemma TailRuns(env: Env, st: State, s: Snapshot, at: string)
    requires st.phase == Stored(s) && env.isHash(s.contentHash) && env.isTimestamp(at)
    ensures var steps := [CheckExisting, WriteTemp(at), Rename, SyncActive];
            && (IsRun(env, st, steps) <==> Matches(env, st.fs, s))
            && (Matches(env, st.fs, s) ==> Exec(env, st, steps).phase == Succeeded(s))
  {
    hide Matches;
    RunCons(env, st, CheckExisting, [WriteTemp(at), Rename, SyncActive]);
    assert [CheckExisting] + [WriteTemp(at), Rename, SyncActive] == [CheckExisting, WriteTemp(at), Rename, SyncActive];
    if Matches(env, st.fs, s) {
      var a := After(env, st, CheckExisting);
      RunCons(env, a, WriteTemp(at), [Rename, SyncActive]);
      assert [WriteTemp(at)] + [Rename, SyncActive] == [WriteTemp(at), Rename, SyncActive];
      var b := After(env, a, WriteTemp(at));
      RunCons(env, b, Rename, [SyncActive]);
      assert [Rename] + [SyncActive] == [Rename, SyncActive];
      var c := After(env, b, Rename);
      RunCons(env, c, SyncActive, []);
      assert [SyncActive] + [] == [SyncActive];
    }
  }

  /** An undisturbed write under a taken hash goes through exactly if the stored file agrees with it. */
  lemma RepeatedWrite(env: Env, st: State, s: Snapshot, at: string)
    requires AtRest(st.phase) && Valid(env, s) && env.isHash(s.contentHash) && env.isTimestamp(at)
    requires s.contentHash in st.fs.snapshots
    ensures var steps := [Begin(s), CreateNew, CheckExisting, WriteTemp(at), Rename, SyncActive];
            && (IsRun(env, st, steps) <==> Matches(env, st.fs, s))
            && (Matches(env, st.fs, s) ==> Exec(env, st, steps).phase == Succeeded(s))
  {
    hide Valid, Matches;
    var tail := [CheckExisting, WriteTemp(at), Rename, SyncActive];
    var a := After(env, st, Begin(s));
    var b := After(env, a, CreateNew);
    RunCons(env, st, Begin(s), [CreateNew] + tail);
    RunCons(env, a, CreateNew, tail);
    TailRuns(env, b, s, at);
    assert [Begin(s)] + ([CreateNew] + tail)
        == [Begin(s), CreateNew, CheckExisting, WriteTemp(at), Rename, SyncActive];
  }

  /** An undisturbed write under a free hash goes through. */
  lemma FreshWrite(env: Env, st: State, s: Snapshot, at: string)
    requires AtRest(st.phase) && Valid(env, s) && env.isHash(s.contentHash) && env.isTimestamp(at)
    requires s.contentHash !in st.fs.snapshots
    ensures var steps := [Begin(s), CreateNew, WriteBody, WriteLine, SyncStored,
                          CheckExisting, WriteTemp(at), Rename, SyncActive];
            IsRun(env, st, steps) && Exec(env, st, steps).phase == Succeeded(s)
  {
    hide Valid;
    var a := After(env, st, Begin(s));
    var b := After(env, a, CreateNew);
    var rest := [WriteBody, WriteLine, SyncStored, CheckExisting, WriteTemp(at), Rename, SyncActive];
    FillNewFile(env, b, s, at);
    RunCons(env, a, CreateNew, rest);
    RunCons(env, st, Begin(s), [CreateNew] + rest);
    assert [Begin(s)] + ([CreateNew] + rest)
        == [Begin(s), CreateNew, WriteBody, WriteLine, SyncStored, CheckExisting, WriteTemp(at), Rename, SyncActive];
  }

  lemma FillNewFile(env: Env, st: State, s: Snapshot, at: string)
    requires st.phase == Created(s) && Valid(env, s) && env.isHash(s.contentHash) && env.isTimestamp(at)
    ensures var steps := [WriteBody, WriteLine, SyncStored, CheckExisting, WriteTemp(at), Rename, SyncActive];
            IsRun(env, st, steps) && Exec(env, st, steps).phase == Succeeded(s)
  {
    hide Valid;
    var tail := [CheckExisting, WriteTemp(at), Rename, SyncActive];
    var a := After(env, st, WriteBody);
    var b := After(env, a, WriteLine);
    var c := After(env, b, SyncStored);
    TailRuns(env, c, s, at);
    RunCons(env, b, SyncStored, tail);
    RunCons(env, a, WriteLine, [SyncStored] + tail);
    RunCons(env, st, WriteBody, [WriteLine] + ([SyncStored] + tail));
    assert [WriteBody] + ([WriteLine] + ([SyncStored] + tail))
        == [WriteBody, WriteLine, SyncStored, CheckExisting, WriteTemp(at), Rename, SyncActive];
  }
}
