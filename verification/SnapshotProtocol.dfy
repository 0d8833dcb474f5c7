/**
 The workspace snapshot protocol of one persistent conversation: the rows of the
 snapshot table, the conversation's reference to its latest snapshot, and the object store.
 Each database transaction, upload and object deletion is one step, a crash may follow
 any step, and any number of object deletions may still be pending while others work.
 */
module SnapshotProtocol {
  import opened Common

  /** Uploaded content, told apart by a fingerprint. */
  datatype Blob = Blob(fingerprint: int, size: nat)

  datatype Key = ArchiveKey(generation: nat) | ManifestKey(generation: nat)

  datatype Status = Ready | Superseded | Failed

  datatype Row = Row(generation: nat, status: Status,
                     archiveRef: Option<Key>, manifestRef: Option<Key>, sizeBytes: nat)

  /** The snapshot table by primary key. Generations are not assumed to be distinct. */
  type Table = map<nat, Row>

  datatype Stage = NothingPut | ArchivePut | BothPut

  /** A snapshot under construction: what its transaction read and what it uploads. */
  datatype Flight = Flight(previous: Option<nat>, generation: nat,
                           archive: Blob, manifest: Blob, stage: Stage)

  /**
   Keys are handed out in increasing order, nextId being the next one.
   captured is history only: the archive and manifest of the last committed snapshot.
   doomed holds the objects some procedure has still to delete.
   */
  datatype State = State(rows: Table, latestId: Option<nat>, store: map<Key, Blob>,
                         flight: Option<Flight>, doomed: set<Key>, nextId: nat,
                         captured: Option<(Blob, Blob)>)

  datatype Step =
    | Begin(archive: Blob, manifest: Blob)
    | PutArchive
    | PutManifest
    | Commit
    | Abort
    | RecordFailed
    | ArchiveConversation
    | Delete(key: Key, succeeds: bool)
    | Crash

  const INITIAL := State(map[], None, map[], None, {}, 0, None)

  // ---------------------------------------------------------------- queries

  /** The ready row of highest generation among the keys below n, as the ordered query returns it. */
  function LatestReady(rows: Table, n: nat): (r: Option<nat>)
    ensures r.Some? ==> r.value in rows && r.value < n && rows[r.value].status.Ready?
  {
    if n == 0 then None
    else
      var rest := LatestReady(rows, n - 1);
      if n - 1 in rows && rows[n - 1].status.Ready? &&
         (rest.None? || rows[rest.value].generation <= rows[n - 1].generation)
      then Some(n - 1) else rest
  }

  lemma {:induction false} LatestReadyIsNewest(rows: Table, n: nat)
    ensures var r := LatestReady(rows, n);
      forall i :: i in rows && i < n && rows[i].status.Ready? ==>
        r.Some? && rows[i].generation <= rows[r.value].generation
  {
    if n > 0 {
      LatestReadyIsNewest(rows, n - 1);
    }
  }

  function MaxGeneration(rows: Table, n: nat): nat {
    if n == 0 then 0
    else
      var rest := MaxGeneration(rows, n - 1);
      if n - 1 in rows && rows[n - 1].generation > rest then rows[n - 1].generation else rest
  }

  lemma {:induction false} MaxGenerationIsMax(rows: Table, n: nat)
    ensures var g := MaxGeneration(rows, n);
      && (forall i :: i in rows && i < n ==> rows[i].generation <= g)
      && (g == 0 || exists i :: i in rows && i < n && rows[i].generation == g)
  {
    if n > 0 {
      MaxGenerationIsMax(rows, n - 1);
    }
  }

  function NextGeneration(rows: Table, n: nat): nat {
    match LatestReady(rows, n)
    case None => 1
    case Some(id) => rows[id].generation + 1
  }

  predicate GenerationTaken(rows: Table, generation: nat) {
    exists i :: i in rows && rows[i].generation == generation
  }

  function Refs(row: Row): set<Key> {
    (if row.archiveRef.Some? then {row.archiveRef.value} else {}) +
    (if row.manifestRef.Some? then {row.manifestRef.value} else {})
  }

  function RefsOf(rows: Table): set<Key> {
    set i, k | i in rows && k in Refs(rows[i]) :: k
  }

  /** What a new runtime finds in its work directory. */
  datatype Restored = NoSnapshot | FromArchive(content: Blob) | ObjectMissing

  function Restore(s: State): Restored {
    match LatestReady(s.rows, s.nextId)
    case None => NoSnapshot
    case Some(id) =>
      match s.rows[id].archiveRef
      case None => NoSnapshot
      case Some(key) => if key in s.store then FromArchive(s.store[key]) else ObjectMissing
  }

  // ---------------------------------------------------------------- steps

  function NewRow(f: Flight): Row {
    Row(f.generation, Ready, Some(ArchiveKey(f.generation)), Some(ManifestKey(f.generation)), f.archive.size)
  }

  function Supersede(rows: Table, previous: Option<nat>): Table {
    if previous.Some? && previous.value in rows
    then rows[previous.value := rows[previous.value].(status := Superseded)] else rows
  }

  function PreviousRefs(rows: Table, previous: Option<nat>): set<Key> {
    if previous.Some? && previous.value in rows then Refs(rows[previous.value]) else {}
  }

  /** unique says whether the table has the unique index on (conversation, generation). */
  function CommitFlight(s: State, f: Flight, unique: bool): State {
    if unique && GenerationTaken(s.rows, f.generation) then
      s.(flight := None)
    else
      s.(rows := Supersede(s.rows, f.previous)[s.nextId := NewRow(f)],
         latestId := Some(s.nextId),
         nextId := s.nextId + 1,
         flight := None,
         doomed := s.doomed + PreviousRefs(s.rows, f.previous),
         captured := Some((f.archive, f.manifest)))
  }

  function FailedRow(rows: Table, n: nat): Row {
    Row(MaxGeneration(rows, n) + 1, Failed, None, None, 0)
  }

  function ArchiveRows(s: State): State {
    match LatestReady(s.rows, s.nextId)
    case None => s.(rows := map[], doomed := s.doomed + RefsOf(s.rows))
    case Some(id) =>
      s.(rows := map[id := s.rows[id]],
         doomed := s.doomed + RefsOf(s.rows - {id}),
         latestId := Some(id))
  }

  /** A step that is not enabled changes nothing. */
  function Next(s: State, step: Step, unique: bool): State {
    match step
    case Begin(a, m) =>
      if s.flight.Some? then s
      else
        var f := Flight(LatestReady(s.rows, s.nextId), NextGeneration(s.rows, s.nextId), a, m, NothingPut);
        s.(flight := Some(f))
    case PutArchive =>
      if s.flight.None? || !s.flight.value.stage.NothingPut? then s
      else
        var f := s.flight.value;
        s.(store := s.store[ArchiveKey(f.generation) := f.archive], flight := Some(f.(stage := ArchivePut)))
    case PutManifest =>
      if s.flight.None? || !s.flight.value.stage.ArchivePut? then s
      else
        var f := s.flight.value;
        s.(store := s.store[ManifestKey(f.generation) := f.manifest], flight := Some(f.(stage := BothPut)))
    case Commit =>
      if s.flight.None? || !s.flight.value.stage.BothPut? then s
      else CommitFlight(s, s.flight.value, unique)
    case Abort => s.(flight := None)
    case RecordFailed => s.(rows := s.rows[s.nextId := FailedRow(s.rows, s.nextId)], nextId := s.nextId + 1)
    case ArchiveConversation => ArchiveRows(s)
    case Delete(k, succeeds) =>
      if k !in s.doomed then s
      else s.(doomed := s.doomed - {k}, store := if succeeds then s.store - {k} else s.store)
    case Crash => s.(flight := None, doomed := {})
  }

  function Run(s: State, steps: seq<Step>, unique: bool): State
    decreases |steps|
  {
    if steps == [] then s else Run(Next(s, steps[0], unique), steps[1..], unique)
  }

  lemma RunConcat(s: State, a: seq<Step>, b: seq<Step>, unique: bool)
    ensures Run(s, a + b, unique) == Run(Run(s, a, unique), b, unique)
    decreases |a|
  {
    if a == [] {
      assert a + b == b;
    } else {
      assert (a + b)[1..] == a[1..] + b;
      RunConcat(Next(s, a[0], unique), a[1..], b, unique);
    }
  }

  lemma RunSnoc(s: State, a: seq<Step>, step: Step, unique: bool)
    ensures Run(s, a + [step], unique) == Next(Run(s, a, unique), step, unique)
  {
    RunConcat(s, a, [step], unique);
    var t := Run(s, a, unique);
    assert Run(t, [step], unique) == Run(Next(t, step, unique), [], unique);
  }

  // ---------------------------------------------------------------- safety

  ghost predicate RowsWellFormed(rows: Table, nextId: nat) {
    && (forall i :: i in rows ==> i < nextId)
    && (forall i :: i in rows ==>
          if rows[i].status.Failed? then rows[i].archiveRef.None? && rows[i].manifestRef.None?
          else rows[i].archiveRef == Some(ArchiveKey(rows[i].generation)) &&
               rows[i].manifestRef == Some(ManifestKey(rows[i].generation)))
  }

  ghost predicate AtMostOneReady(rows: Table) {
    forall i, j :: i in rows && j in rows && rows[i].status.Ready? && rows[j].status.Ready? ==> i == j
  }

  /** What holds of the one ready row. */
  ghost predicate ReadyRowSafe(s: State, id: nat)
    requires id in s.rows
  {
    var g := s.rows[id].generation;
    && s.latestId == Some(id)
    && (forall i :: i in s.rows && s.rows[i].status.Superseded? ==> s.rows[i].generation < g)
    && (forall k :: k in s.doomed ==> k.generation < g)
    && s.captured.Some?
    && s.rows[id].sizeBytes == s.captured.value.0.size
    && ArchiveKey(g) in s.store && s.store[ArchiveKey(g)] == s.captured.value.0
    && ManifestKey(g) in s.store && s.store[ManifestKey(g)] == s.captured.value.1
  }

  ghost predicate NothingCaptured(s: State) {
    && s.captured.None? && s.latestId.None? && s.doomed == {}
    && (forall i :: i in s.rows ==> s.rows[i].status.Failed?)
  }

  ghost predicate FlightConsistent(s: State, f: Flight) {
    && f.previous == LatestReady(s.rows, s.nextId)
    && f.generation == NextGeneration(s.rows, s.nextId)
    && (!f.stage.NothingPut? ==>
          ArchiveKey(f.generation) in s.store && s.store[ArchiveKey(f.generation)] == f.archive)
    && (f.stage.BothPut? ==>
          ManifestKey(f.generation) in s.store && s.store[ManifestKey(f.generation)] == f.manifest)
  }

  ghost predicate Safe(s: State) {
    && RowsWellFormed(s.rows, s.nextId)
    && AtMostOneReady(s.rows)
    && (match LatestReady(s.rows, s.nextId)
        case Some(id) => ReadyRowSafe(s, id)
        case None => NothingCaptured(s))
    && (s.flight.Some? ==> FlightConsistent(s, s.flight.value))
  }

  lemma SoleReady(rows: Table, n: nat, id: nat)
    requires id in rows && id < n && rows[id].status.Ready? && AtMostOneReady(rows)
    ensures LatestReady(rows, n) == Some(id)
  {
    LatestReadyIsNewest(rows, n);
  }

  lemma CommitSafe(s: State, f: Flight, unique: bool)
    requires Safe(s) && s.flight == Some(f) && f.stage.BothPut?
    requires !(unique && GenerationTaken(s.rows, f.generation))
    ensures Safe(CommitFlight(s, f, unique))
    ensures LatestReady(CommitFlight(s, f, unique).rows, s.nextId + 1) == Some(s.nextId)
  {
    CommitRowsSafe(s, f, unique);
    hide RowsWellFormed, AtMostOneReady;
  }

  lemma CommitRowsSafe(s: State, f: Flight, unique: bool)
    requires Safe(s) && s.flight == Some(f) && f.stage.BothPut?
    requires !(unique && GenerationTaken(s.rows, f.generation))
    ensures var t := CommitFlight(s, f, unique);
      && RowsWellFormed(t.rows, t.nextId) && AtMostOneReady(t.rows)
      && LatestReady(t.rows, t.nextId) == Some(s.nextId)
      && (forall i :: i in t.rows && t.rows[i].status.Superseded? ==> t.rows[i].generation < f.generation)
  {
    hide Refs;
    var t := CommitFlight(s, f, unique);
    assert forall i :: i in t.rows && i != s.nextId ==> i in s.rows && !t.rows[i].status.Ready?;
    SoleReady(t.rows, t.nextId, s.nextId);
  }

  lemma RecordFailedSafe(s: State, unique: bool)
    requires Safe(s)
    ensures Safe(Next(s, RecordFailed, unique))
    ensures LatestReady(Next(s, RecordFailed, unique).rows, s.nextId + 1) == LatestReady(s.rows, s.nextId)
    ensures Next(s, RecordFailed, unique).captured == s.captured
  {
    var t := Next(s, RecordFailed, unique);
    var r := LatestReady(s.rows, s.nextId);
    if r.Some? {
      SoleReady(t.rows, t.nextId, r.value);
    } else {
      NoReady(t.rows, t.nextId);
    }
  }

  lemma {:induction false} NoReady(rows: Table, n: nat)
    requires forall i :: i in rows ==> !rows[i].status.Ready?
    ensures LatestReady(rows, n).None?
  {
    if n > 0 {
      NoReady(rows, n - 1);
    }
  }

  lemma ArchiveSafe(s: State)
    requires Safe(s)
    ensures Safe(ArchiveRows(s))
    ensures LatestReady(ArchiveRows(s).rows, s.nextId) == LatestReady(s.rows, s.nextId)
  {
    RefsOfOthers(s);
    hide RefsOf;
    var t := ArchiveRows(s);
    match LatestReady(s.rows, s.nextId)
    case None =>
      NoReady(t.rows, t.nextId);
    case Some(id) =>
      SoleReady(t.rows, t.nextId, id);
  }

  /** The objects of the rows that archiving drops are all older than the ready row's. */
  lemma RefsOfOthers(s: State)
    requires Safe(s)
    ensures var r := LatestReady(s.rows, s.nextId);
      if r.None? then RefsOf(s.rows) == {}
      else forall k :: k in RefsOf(s.rows - {r.value}) ==> k.generation < s.rows[r.value].generation
  {
    hide FlightConsistent, NextGeneration;
  }

  lemma NextSafe(s: State, step: Step, unique: bool)
    requires Safe(s)
    ensures Safe(Next(s, step, unique))
  {
    match step
    case Begin(_, _) =>
    case PutArchive =>
    case PutManifest =>
    case Commit =>
      if s.flight.Some? && s.flight.value.stage.BothPut? &&
         !(unique && GenerationTaken(s.rows, s.flight.value.generation)) {
        CommitSafe(s, s.flight.value, unique);
      }
    case Abort =>
    case RecordFailed => RecordFailedSafe(s, unique);
    case ArchiveConversation => ArchiveSafe(s);
    case Delete(_, _) =>
    case Crash =>
  }

  lemma {:induction false} RunSafe(s: State, steps: seq<Step>, unique: bool)
    requires Safe(s)
    ensures Safe(Run(s, steps, unique))
    decreases |steps|
  {
    hide Safe, Next;
    if steps != [] {
      NextSafe(s, steps[0], unique);
      RunSafe(Next(s, steps[0], unique), steps[1..], unique);
    }
  }

  /**
   Main result: after any run from the empty conversation there is at most one ready row, the
   conversation points at it, its generation is above every superseded row's and every object
   still to be deleted, and both of its objects are in the store with the captured bytes.
   */
  lemma SnapshotSafety(steps: seq<Step>, unique: bool)
    ensures var s := Run(INITIAL, steps, unique);
      && AtMostOneReady(s.rows)
      && (match LatestReady(s.rows, s.nextId)
          case Some(id) => ReadyRowSafe(s, id)
          case None => NothingCaptured(s))
  {
    RunSafe(INITIAL, steps, unique);
  }

  /** In a safe state a restore depends on what was captured only. */
  lemma RestoreOfSafe(s: State)
    requires Safe(s)
    ensures Restore(s) == if s.captured.Some? then FromArchive(s.captured.value.0) else NoSnapshot
  {
  }

  /** A restore after any run returns exactly the archive of the last committed snapshot. */
  lemma RestoreFindsCaptured(steps: seq<Step>, unique: bool)
    ensures var s := Run(INITIAL, steps, unique);
      Restore(s) == if s.captured.Some? then FromArchive(s.captured.value.0) else NoSnapshot
  {
    RunSafe(INITIAL, steps, unique);
  }

  // ---------------------------------------------------------------- what one snapshot attempt achieves

  function Attempt(a: Blob, m: Blob): seq<Step> {
    [Begin(a, m), PutArchive, PutManifest, Commit]
  }

  lemma AttemptRun(s: State, a: Blob, m: Blob, unique: bool)
    ensures Run(s, Attempt(a, m), unique) ==
      Next(Next(Next(Next(s, Begin(a, m), unique), PutArchive, unique), PutManifest, unique), Commit, unique)
  {
    RunSnoc(s, [], Begin(a, m), unique);
    RunSnoc(s, [Begin(a, m)], PutArchive, unique);
    RunSnoc(s, [Begin(a, m), PutArchive], PutManifest, unique);
    RunSnoc(s, [Begin(a, m), PutArchive, PutManifest], Commit, unique);
    assert [] + [Begin(a, m)] == [Begin(a, m)];
    assert [Begin(a, m)] + [PutArchive] == [Begin(a, m), PutArchive];
    assert [Begin(a, m), PutArchive] + [PutManifest] == [Begin(a, m), PutArchive, PutManifest];
    assert [Begin(a, m), PutArchive, PutManifest] + [Commit] == Attempt(a, m);
  }

  /** No snapshot can commit under a unique index: the generation it would take is already in the table. */
  predicate Blocked(s: State) {
    GenerationTaken(s.rows, NextGeneration(s.rows, s.nextId))
  }

  /**
   From any safe state with no snapshot in flight, an undisturbed attempt makes its content the
   restorable one if and only if its generation is free or the table has no unique index; when it
   does not, the rows and the restorable content stay as they were.
   */
  lemma AttemptCommitsIff(s: State, a: Blob, m: Blob, unique: bool)
    requires Safe(s) && s.flight.None?
    ensures var t := Run(s, Attempt(a, m), unique);
      if unique && Blocked(s) then
        t.rows == s.rows && t.captured == s.captured && Restore(t) == Restore(s)
      else
        && t.captured == Some((a, m)) && Restore(t) == FromArchive(a)
        && LatestReady(t.rows, t.nextId) == Some(s.nextId)
        && t.rows[s.nextId].generation == NextGeneration(s.rows, s.nextId)
  {
    var s3 := BothUploaded(s, a, m, unique);
    AttemptRun(s, a, m, unique);
    NextSafe(s3, Commit, unique);
    RestoreOfSafe(s);
    RestoreOfSafe(Next(s3, Commit, unique));
    hide Safe, LatestReady, Restore, Run, Next, GenerationTaken;
    if unique && Blocked(s) {
      CommitRefused(s3, s3.flight.value, unique);
    } else {
      CommitAccepted(s3, s3.flight.value, unique);
    }
  }

  lemma CommitAccepted(s: State, f: Flight, unique: bool)
    requires Safe(s) && s.flight == Some(f) && f.stage.BothPut?
    requires !(unique && GenerationTaken(s.rows, f.generation))
    ensures var t := Next(s, Commit, unique);
      && Safe(t) && t.captured == Some((f.archive, f.manifest))
      && LatestReady(t.rows, t.nextId) == Some(s.nextId) && t.rows[s.nextId] == NewRow(f)
  {
    CommitSafe(s, f, unique);
    hide Safe, LatestReady;
  }

  lemma CommitRefused(s: State, f: Flight, unique: bool)
    requires s.flight == Some(f) && f.stage.BothPut? && unique && GenerationTaken(s.rows, f.generation)
    ensures Next(s, Commit, unique) == s.(flight := None)
  {
  }

  /** The state of an attempt just before its commit. */
  lemma BothUploaded(s: State, a: Blob, m: Blob, unique: bool) returns (s3: State)
    requires Safe(s) && s.flight.None?
    ensures s3 == Next(Next(Next(s, Begin(a, m), unique), PutArchive, unique), PutManifest, unique)
    ensures Safe(s3) && s3.rows == s.rows && s3.nextId == s.nextId && s3.captured == s.captured
    ensures s3.flight ==
      Some(Flight(LatestReady(s.rows, s.nextId), NextGeneration(s.rows, s.nextId), a, m, BothPut))
  {
    hide Safe, LatestReady, NextGeneration;
    var s1 := Next(s, Begin(a, m), unique);
    NextSafe(s, Begin(a, m), unique);
    var s2 := Next(s1, PutArchive, unique);
    NextSafe(s1, PutArchive, unique);
    s3 := Next(s2, PutManifest, unique);
    NextSafe(s2, PutManifest, unique);
  }

  // ---------------------------------------------------------------- the unique index and failed rows

  /** Generations above the ready row's start right after it, so that no gap opens. */
  ghost predicate NoGapAboveReady(s: State) {
    (exists i :: i in s.rows && s.rows[i].generation >= NextGeneration(s.rows, s.nextId)) ==> Blocked(s)
  }

  lemma RecordFailedBlocks(s: State)
    requires Safe(s) && NoGapAboveReady(s)
    ensures Blocked(Next(s, RecordFailed, true))
  {
    RecordFailedSafe(s, true);
    MaxGenerationIsMax(s.rows, s.nextId);
    var t := Next(s, RecordFailed, true);
    assert NextGeneration(t.rows, t.nextId) == NextGeneration(s.rows, s.nextId);
    if Blocked(s) {
      var i :| i in s.rows && s.rows[i].generation == NextGeneration(s.rows, s.nextId);
      assert t.rows[i] == s.rows[i];
    } else {
      assert t.rows[s.nextId].generation == NextGeneration(s.rows, s.nextId);
    }
  }

  lemma NoGapKept(s: State, step: Step)
    requires Safe(s) && NoGapAboveReady(s)
    ensures NoGapAboveReady(Next(s, step, true))
  {
    match step
    case Begin(_, _) =>
    case PutArchive =>
    case PutManifest =>
    case Commit =>
      if s.flight.Some? && s.flight.value.stage.BothPut? && !Blocked(s) {
        CommitSafe(s, s.flight.value, true);
      }
    case Abort =>
    case RecordFailed => RecordFailedBlocks(s);
    case ArchiveConversation => ArchiveSafe(s);
    case Delete(_, _) =>
    case Crash =>
  }

  lemma BlockedStep(s: State, step: Step)
    requires Safe(s) && Blocked(s) && !step.ArchiveConversation?
    ensures var t := Next(s, step, true);
      Safe(t) && Blocked(t) && t.captured == s.captured
  {
    NextSafe(s, step, true);
    FlightTakesNext(s);
    if step.RecordFailed? {
      RecordFailedSafe(s, true);
      RecordFailedStaysBlocked(s);
    } else {
      hide Safe, LatestReady, GenerationTaken, NextGeneration, Next;
      BlockedKeepsRows(s, step);
    }
  }

  lemma BlockedKeepsRows(s: State, step: Step)
    requires Blocked(s) && !step.ArchiveConversation? && !step.RecordFailed?
    requires s.flight.Some? ==> s.flight.value.generation == NextGeneration(s.rows, s.nextId)
    ensures var t := Next(s, step, true);
      t.rows == s.rows && t.nextId == s.nextId && t.captured == s.captured
  {
    hide LatestReady, NextGeneration, RefsOf, MaxGeneration;
  }

  lemma FlightTakesNext(s: State)
    requires Safe(s)
    ensures s.flight.Some? ==> s.flight.value.generation == NextGeneration(s.rows, s.nextId)
  {
    hide ReadyRowSafe, NothingCaptured, RowsWellFormed, AtMostOneReady, NextGeneration;
  }

  lemma RecordFailedStaysBlocked(s: State)
    requires Blocked(s)
    requires LatestReady(Next(s, RecordFailed, true).rows, s.nextId + 1) == LatestReady(s.rows, s.nextId)
    requires forall i :: i in s.rows ==> i < s.nextId
    ensures Blocked(Next(s, RecordFailed, true))
  {
    var t := Next(s, RecordFailed, true);
    var i :| i in s.rows && s.rows[i].generation == NextGeneration(s.rows, s.nextId);
    assert t.rows[i] == s.rows[i];
    assert NextGeneration(t.rows, t.nextId) == NextGeneration(s.rows, s.nextId);
  }

  lemma {:induction false} BlockedRun(s: State, steps: seq<Step>)
    requires Safe(s) && Blocked(s)
    requires ArchiveConversation !in steps
    ensures var t := Run(s, steps, true);
      Safe(t) && Blocked(t) && t.captured == s.captured
    decreases |steps|
  {
    hide Safe, Next, Blocked;
    if steps != [] {
      assert steps[0] in steps;
      BlockedStep(s, steps[0]);
      BlockedRun(Next(s, steps[0], true), steps[1..]);
    }
  }

  lemma {:induction false} RunNoGap(s: State, steps: seq<Step>)
    requires Safe(s) && NoGapAboveReady(s)
    ensures Safe(Run(s, steps, true)) && NoGapAboveReady(Run(s, steps, true))
    decreases |steps|
  {
    hide Safe, Next, NoGapAboveReady;
    if steps != [] {
      NextSafe(s, steps[0], true);
      NoGapKept(s, steps[0]);
      RunNoGap(Next(s, steps[0], true), steps[1..]);
    }
  }

  lemma InitiallySafe()
    ensures Safe(INITIAL) && NoGapAboveReady(INITIAL)
  {
  }

  /**
   With the unique index, one recorded failure freezes the restorable snapshot: whatever ran before
   the failure and whatever runs after it short of archiving, a restore keeps returning the content
   that was restorable when the failure was recorded.
   */
  lemma FailureFreezesSnapshot(before: seq<Step>, after: seq<Step>)
    requires ArchiveConversation !in after
    ensures Restore(Run(INITIAL, before + [RecordFailed] + after, true)) == Restore(Run(INITIAL, before, true))
  {
    InitiallySafe();
    hide Safe, Next, Run, Blocked, NoGapAboveReady, INITIAL, LatestReady;
    var s := Run(INITIAL, before, true);
    RunNoGap(INITIAL, before);
    RecordFailedBlocks(s);
    RecordFailedSafe(s, true);
    BlockedRun(Next(s, RecordFailed, true), after);
    RestoreOfSafe(s);
    RestoreOfSafe(Run(Next(s, RecordFailed, true), after, true));
    RunSnoc(INITIAL, before, RecordFailed, true);
    RunConcat(INITIAL, before + [RecordFailed], after, true);
  }

  /** Archiving drops the failed rows and keeps the restorable content, so the next attempt can commit. */
  lemma ArchiveUnblocks(s: State)
    requires Safe(s)
    ensures !Blocked(Next(s, ArchiveConversation, true))
    ensures Restore(Next(s, ArchiveConversation, true)) == Restore(s)
  {
    ArchiveSafe(s);
  }

  // ---------------------------------------------------------------- no object is forgotten

  /** Some row names the object. */
  ghost predicate Named(rows: Table, k: Key) {
    exists i :: i in rows && (rows[i].archiveRef == Some(k) || rows[i].manifestRef == Some(k))
  }

  /** The next attempt will write over the object. */
  predicate Reused(s: State, k: Key) {
    k.generation == NextGeneration(s.rows, s.nextId)
  }

  /** Each stored object is named by a row, about to be deleted, or due to be written over. */
  ghost predicate Accounted(s: State) {
    forall k :: k in s.store ==> Named(s.rows, k) || k in s.doomed || Reused(s, k)
  }

  /** Each stored object is named by a row or due to be written over. */
  ghost predicate AllNamed(s: State) {
    forall k :: k in s.store ==> Named(s.rows, k) || Reused(s, k)
  }

  /** Each stored object belongs to the ready row, is about to be deleted, or is due to be written over. */
  ghost predicate Tidy(s: State) {
    var ready := LatestReady(s.rows, s.nextId);
    forall k :: k in s.store ==>
      (ready.Some? && k.generation == s.rows[ready.value].generation) || k in s.doomed || Reused(s, k)
  }

  /** What a step that is no archiving leaves named. */
  lemma StaysNamed(s: State, step: Step, unique: bool, k: Key)
    requires Safe(s) && !step.ArchiveConversation? && Named(s.rows, k)
    ensures Named(Next(s, step, unique).rows, k)
  {
    var t := Next(s, step, unique);
    var i :| i in s.rows && (s.rows[i].archiveRef == Some(k) || s.rows[i].manifestRef == Some(k));
    hide LatestReady, NextGeneration, GenerationTaken, ReadyRowSafe, NothingCaptured, MaxGeneration;
    assert i in t.rows && t.rows[i].archiveRef == s.rows[i].archiveRef;
    assert t.rows[i].manifestRef == s.rows[i].manifestRef;
  }

  /** A stored object that the next attempt would have written over stays so, or is named by the row of this one. */
  lemma ReusedOrNamed(s: State, step: Step, unique: bool, k: Key)
    requires Safe(s) && !step.ArchiveConversation? && Reused(s, k)
    ensures Named(Next(s, step, unique).rows, k) || Reused(Next(s, step, unique), k)
  {
    var t := Next(s, step, unique);
    if step.Commit? && t.rows != s.rows {
      CommitSafe(s, s.flight.value, unique);
      assert t.rows[s.nextId] == NewRow(s.flight.value) && k.generation == s.flight.value.generation;
      assert k == ArchiveKey(k.generation) || k == ManifestKey(k.generation);
    } else if step.RecordFailed? {
      RecordFailedSafe(s, unique);
    }
  }

  lemma AllNamedStep(s: State, step: Step, unique: bool)
    requires Safe(s) && AllNamed(s) && !step.ArchiveConversation?
    ensures AllNamed(Next(s, step, unique))
  {
    var t := Next(s, step, unique);
    forall k | k in t.store
      ensures Named(t.rows, k) || Reused(t, k)
    {
      NewObjectReused(s, step, unique, k);
      if Named(s.rows, k) {
        StaysNamed(s, step, unique, k);
      } else {
        ReusedOrNamed(s, step, unique, k);
      }
    }
  }

  /** Only uploads store anything, under the next generation. */
  lemma NewObjectReused(s: State, step: Step, unique: bool, k: Key)
    requires Safe(s) && k in Next(s, step, unique).store
    ensures k in s.store || Reused(s, k)
  {
    FlightTakesNext(s);
    hide Safe, NextGeneration, LatestReady, GenerationTaken, MaxGeneration;
  }

  lemma {:induction false} RunAllNamed(s: State, steps: seq<Step>, unique: bool)
    requires Safe(s) && AllNamed(s) && ArchiveConversation !in steps
    ensures Safe(Run(s, steps, unique)) && AllNamed(Run(s, steps, unique))
    decreases |steps|
  {
    hide Safe, Next, AllNamed;
    if steps != [] {
      assert steps[0] in steps;
      NextSafe(s, steps[0], unique);
      AllNamedStep(s, steps[0], unique);
      RunAllNamed(Next(s, steps[0], unique), steps[1..], unique);
    }
  }

  lemma InitiallyNamed()
    ensures Safe(INITIAL) && AllNamed(INITIAL)
  {
  }

  /** Archiving dooms what it no longer names. */
  lemma ArchivingDooms(s: State)
    requires Safe(s)
    ensures forall k :: Named(s.rows, k) ==> Named(ArchiveRows(s).rows, k) || k in ArchiveRows(s).doomed
    ensures forall k :: Reused(s, k) ==> Reused(ArchiveRows(s), k)
  {
    ArchiveSafe(s);
    var t := ArchiveRows(s);
    forall k | Named(s.rows, k)
      ensures Named(t.rows, k) || k in t.doomed
    {
      var i :| i in s.rows && (s.rows[i].archiveRef == Some(k) || s.rows[i].manifestRef == Some(k));
      assert k in Refs(s.rows[i]);
      if i !in t.rows {
        var r := LatestReady(s.rows, s.nextId);
        var gone := if r.Some? then s.rows - {r.value} else s.rows;
        assert i in gone && gone[i] == s.rows[i];
      }
    }
    assert NextGeneration(t.rows, t.nextId) == NextGeneration(s.rows, s.nextId);
  }

  lemma RefsAreNamed(rows: Table)
    ensures forall k :: k in RefsOf(rows) <==> Named(rows, k)
  {
    forall k | Named(rows, k)
      ensures k in RefsOf(rows)
    {
      var i :| i in rows && (rows[i].archiveRef == Some(k) || rows[i].manifestRef == Some(k));
      assert k in Refs(rows[i]);
    }
  }

  lemma ArchiveStep(s: State, unique: bool)
    ensures Next(s, ArchiveConversation, unique) == ArchiveRows(s) && ArchiveRows(s).captured == s.captured
    ensures !Blocked(Next(s, ArchiveConversation, true)) ==> !Blocked(ArchiveRows(s))
  {
    hide LatestReady, RefsOf, Blocked;
  }

  /** The rows that archiving drops. */
  lemma RowsGone(s: State)
    ensures var r := LatestReady(s.rows, s.nextId);
      s.rows - ArchiveRows(s).rows.Keys == if r.Some? then s.rows - {r.value} else s.rows
    ensures |ArchiveRows(s).rows| <= 1
  {
    hide LatestReady, RefsOf;
  }

  /** A crash forgets what was to be deleted, and a deletion may fail. */
  predicate Forgets(step: Step) {
    step.Crash? || (step.Delete? && !step.succeeds)
  }

  lemma AccountedStep(s: State, step: Step, unique: bool)
    requires Safe(s) && Accounted(s) && !Forgets(step)
    ensures Accounted(Next(s, step, unique))
  {
    var t := Next(s, step, unique);
    if step.ArchiveConversation? {
      ArchivingDooms(s);
    } else {
      forall k | k in t.store
        ensures Named(t.rows, k) || k in t.doomed || Reused(t, k)
      {
        NewObjectReused(s, step, unique, k);
        if Named(s.rows, k) {
          StaysNamed(s, step, unique, k);
        } else if Reused(s, k) {
          ReusedOrNamed(s, step, unique, k);
        } else {
          StaysDoomed(s, step, unique, k);
        }
      }
    }
  }

  lemma StaysDoomed(s: State, step: Step, unique: bool, k: Key)
    requires k in s.doomed && k in Next(s, step, unique).store && !Forgets(step)
    ensures k in Next(s, step, unique).doomed
  {
    hide NextGeneration, LatestReady, GenerationTaken, MaxGeneration, RefsOf;
  }

  lemma {:induction false} RunAccounted(s: State, steps: seq<Step>, unique: bool)
    requires Safe(s) && Accounted(s) && forall i :: 0 <= i < |steps| ==> !Forgets(steps[i])
    ensures Safe(Run(s, steps, unique)) && Accounted(Run(s, steps, unique))
    decreases |steps|
  {
    hide Safe, Next, Accounted, Forgets;
    if steps != [] {
      NextSafe(s, steps[0], unique);
      AccountedStep(s, steps[0], unique);
      RunAccounted(Next(s, steps[0], unique), steps[1..], unique);
    }
  }

  /**
   No object is forgotten. Until a conversation is archived, whatever crashes and whatever deletions fail, each stored
   object is named by a row or written over by the next attempt; and from then on, while nothing crashes and deletions
   work, it is that or about to be deleted.
   */
  lemma NothingForgotten(before: seq<Step>, after: seq<Step>, unique: bool)
    requires ArchiveConversation !in before
    requires forall i :: 0 <= i < |after| ==> !Forgets(after[i])
    ensures AllNamed(Run(INITIAL, before, unique))
    ensures Accounted(Run(INITIAL, before + after, unique))
  {
    InitiallyNamed();
    hide Run, Safe, Named, Reused, INITIAL;
    RunAllNamed(INITIAL, before, unique);
    RunConcat(INITIAL, before, after, unique);
    RunAccounted(Run(INITIAL, before, unique), after, unique);
  }

  /**
   After archiving and a crash right behind it, an object some row named is still in the store; it is accounted for
   only when it belongs to the snapshot kept or lies where the next attempt writes.
   */
  lemma CrashAfterArchivingForgets(s: State, unique: bool, k: Key)
    requires Safe(s) && k in s.store && Named(s.rows, k)
    ensures var t := Run(s, [ArchiveConversation, Crash], unique);
      var ready := LatestReady(s.rows, s.nextId);
      && k in t.store
      && (Named(t.rows, k) || Reused(t, k) <==>
            (ready.Some? && k.generation == s.rows[ready.value].generation) || Reused(s, k))
  {
    var t := Next(Next(s, ArchiveConversation, unique), Crash, unique);
    assert [ArchiveConversation] + [Crash] == [ArchiveConversation, Crash];
    assert [] + [ArchiveConversation] == [ArchiveConversation];
    RunSnoc(s, [], ArchiveConversation, unique);
    RunSnoc(s, [ArchiveConversation], Crash, unique);
    assert t == ArchiveRows(s).(flight := None, doomed := {});
    ArchiveSafe(s);
    KeptNames(s, k);
    hide Run, Safe, Named, LatestReady, Next;
  }

  /** The rows archiving keeps name the two objects of their generation. */
  lemma KeptNames(s: State, k: Key)
    requires Safe(s)
    ensures var ready := LatestReady(s.rows, s.nextId);
      Named(ArchiveRows(s).rows, k) <==> ready.Some? && k.generation == s.rows[ready.value].generation
  {
    assert k == ArchiveKey(k.generation) || k == ManifestKey(k.generation);
    var ready := LatestReady(s.rows, s.nextId);
    if ready.Some? && k.generation == s.rows[ready.value].generation {
      assert ready.value in ArchiveRows(s).rows;
    }
  }

  // ---------------------------------------------------------------- the store holds no more than it must

  lemma TidyStep(s: State, step: Step, unique: bool)
    requires Safe(s) && Tidy(s) && !Forgets(step)
    ensures Tidy(Next(s, step, unique))
  {
    if step.Commit? && Next(s, step, unique).rows != s.rows {
      CommitTidy(s, s.flight.value, unique);
    } else {
      OtherTidy(s, step, unique);
    }
  }

  lemma CommitTidy(s: State, f: Flight, unique: bool)
    requires Safe(s) && Tidy(s) && s.flight == Some(f) && f.stage.BothPut?
    requires !(unique && GenerationTaken(s.rows, f.generation))
    ensures Tidy(CommitFlight(s, f, unique))
  {
    CommitSafe(s, f, unique);
    CommitDooms(s, f, unique);
    FlightTakesNext(s);
    hide Safe, LatestReady, NextGeneration, PreviousRefs, GenerationTaken;
  }

  lemma OtherTidy(s: State, step: Step, unique: bool)
    requires Safe(s) && Tidy(s) && !Forgets(step) && !(step.Commit? && Next(s, step, unique).rows != s.rows)
    ensures Tidy(Next(s, step, unique))
  {
    var t := Next(s, step, unique);
    SameReady(s, step, unique);
    var ready := LatestReady(t.rows, t.nextId);
    assert NextGeneration(t.rows, t.nextId) == NextGeneration(s.rows, s.nextId);
    hide Safe, Next, LatestReady, NextGeneration, Forgets;
    forall k | k in t.store
      ensures (ready.Some? && k.generation == t.rows[ready.value].generation) || k in t.doomed || Reused(t, k)
    {
      NewObjectReused(s, step, unique, k);
      if k in s.doomed {
        StaysDoomed(s, step, unique, k);
      }
    }
  }

  lemma SameReady(s: State, step: Step, unique: bool)
    requires Safe(s) && !(step.Commit? && Next(s, step, unique).rows != s.rows)
    ensures var t := Next(s, step, unique);
      var r := LatestReady(s.rows, s.nextId);
      LatestReady(t.rows, t.nextId) == r && (r.Some? ==> t.rows[r.value] == s.rows[r.value])
  {
    if step.RecordFailed? {
      RecordFailedSafe(s, unique);
    } else if step.ArchiveConversation? {
      ArchiveSafe(s);
    }
  }

  /** A commit dooms both objects of the row it supersedes. */
  lemma CommitDooms(s: State, f: Flight, unique: bool)
    requires Safe(s) && s.flight == Some(f)
    requires !(unique && GenerationTaken(s.rows, f.generation))
    ensures var r := LatestReady(s.rows, s.nextId);
      r.Some? ==> forall k: Key :: k.generation == s.rows[r.value].generation ==> k in CommitFlight(s, f, unique).doomed
  {
    var r := LatestReady(s.rows, s.nextId);
    if r.Some? {
      forall k: Key | k.generation == s.rows[r.value].generation
        ensures k in CommitFlight(s, f, unique).doomed
      {
        assert k == ArchiveKey(k.generation) || k == ManifestKey(k.generation);
      }
    }
  }

  lemma {:induction false} RunTidy(s: State, steps: seq<Step>, unique: bool)
    requires Safe(s) && Tidy(s) && forall i :: 0 <= i < |steps| ==> !Forgets(steps[i])
    ensures Safe(Run(s, steps, unique)) && Tidy(Run(s, steps, unique))
    decreases |steps|
  {
    hide Safe, Next, Tidy, Forgets;
    if steps != [] {
      NextSafe(s, steps[0], unique);
      TidyStep(s, steps[0], unique);
      RunTidy(Next(s, steps[0], unique), steps[1..], unique);
    }
  }

  /**
   While nothing crashes and deletions work, the store holds the ready row's two objects, what is about to be deleted,
   and what the next attempt writes over: superseded snapshots cost no space.
   */
  lemma StoreStaysTidy(steps: seq<Step>, unique: bool)
    requires forall i :: 0 <= i < |steps| ==> !Forgets(steps[i])
    ensures Tidy(Run(INITIAL, steps, unique))
  {
    InitiallyNamed();
    RunTidy(INITIAL, steps, unique);
  }

  /** The deletions that follow a commit, of the two objects of the row it superseded. */
  function CleanUp(rows: Table, previous: Option<nat>, work: bool): seq<Step> {
    if previous.None? || previous.value !in rows then []
    else
      var g := rows[previous.value].generation;
      [Delete(ArchiveKey(g), work), Delete(ManifestKey(g), work)]
  }

  lemma CommittedDoomed(s: State, a: Blob, m: Blob, unique: bool)
    requires Safe(s) && s.flight.None? && s.doomed == {} && !(unique && Blocked(s))
    ensures var t := Run(s, Attempt(a, m), unique);
      && t.flight.None? && t.nextId == s.nextId + 1
      && t.doomed == (match LatestReady(s.rows, s.nextId)
                      case None => {}
                      case Some(id) => {ArchiveKey(s.rows[id].generation), ManifestKey(s.rows[id].generation)})
  {
    var s3 := BothUploaded(s, a, m, unique);
    AttemptRun(s, a, m, unique);
    assert s3.doomed == s.doomed by { UploadsDoomNothing(s, a, m, unique); }
    var r := LatestReady(s.rows, s.nextId);
    assert Next(s3, Commit, unique) == CommitFlight(s3, s3.flight.value, unique);
    if r.Some? {
      assert s.rows[r.value].archiveRef == Some(ArchiveKey(s.rows[r.value].generation));
      assert s.rows[r.value].manifestRef == Some(ManifestKey(s.rows[r.value].generation));
    }
    hide Safe, LatestReady, Run, Next, NextGeneration, Blocked, GenerationTaken;
  }

  lemma UploadsDoomNothing(s: State, a: Blob, m: Blob, unique: bool)
    ensures Next(Next(Next(s, Begin(a, m), unique), PutArchive, unique), PutManifest, unique).doomed == s.doomed
  {
    hide LatestReady, NextGeneration;
  }

  lemma DeleteTwo(s: State, k: Key, l: Key, work: bool, unique: bool)
    requires s.doomed == {k, l} && k != l
    ensures Run(s, [Delete(k, work), Delete(l, work)], unique) ==
            s.(doomed := {}, store := if work then s.store - {k} - {l} else s.store)
  {
    assert [] + [Delete(k, work)] == [Delete(k, work)];
    assert [Delete(k, work)] + [Delete(l, work)] == [Delete(k, work), Delete(l, work)];
    RunSnoc(s, [], Delete(k, work), unique);
    RunSnoc(s, [Delete(k, work)], Delete(l, work), unique);
    assert {k, l} - {k} == {l} && {l} - {l} == {};
  }

  /**
   A whole attempt with its deletions: when these work the superseded objects are gone from the store, and when they
   fail they are still there and nothing will delete them.
   */
  lemma AttemptCleansUp(s: State, a: Blob, m: Blob, work: bool, unique: bool)
    requires Safe(s) && s.flight.None? && s.doomed == {} && !(unique && Blocked(s))
    ensures var r := LatestReady(s.rows, s.nextId);
      var u := Run(s, Attempt(a, m), unique);
      var t := Run(u, CleanUp(s.rows, r, work), unique);
      && t.doomed == {} && t.rows == u.rows && t.captured == Some((a, m))
      && forall k :: k in t.store <==>
           k in u.store && !(work && r.Some? && k.generation == s.rows[r.value].generation)
  {
    var r := LatestReady(s.rows, s.nextId);
    CommittedDoomed(s, a, m, unique);
    AttemptCommitsIff(s, a, m, unique);
    var u := Run(s, Attempt(a, m), unique);
    hide Safe, LatestReady, Attempt, Blocked, NextGeneration;
    if r.Some? {
      var g := s.rows[r.value].generation;
      DeleteTwo(u, ArchiveKey(g), ManifestKey(g), work, unique);
      assert CleanUp(s.rows, r, work) == [Delete(ArchiveKey(g), work), Delete(ManifestKey(g), work)];
      hide Run;
      forall k: Key
        ensures k.generation == g <==> k == ArchiveKey(g) || k == ManifestKey(g)
      {
      }
    }
  }

  // ---------------------------------------------------------------- the procedures

  /** Where an attempt goes wrong. A refresh fails after the commit, before the old objects are deleted. */
  datatype Fault =
    | NoFault
    | CleaningFails
    | ArchivePutFails
    | ManifestPutFails
    | CommitFails
    | RefreshFails
    | CrashBeforeCommit
    | CrashAfterCommit

  /** The fault, if any, strikes after the transaction. */
  predicate Commits(fault: Fault) {
    fault.NoFault? || fault.RefreshFails? || fault.CrashAfterCommit?
  }

  datatype Outcome = Created(id: nat) | Raised | Crashed

  /** What the two last deletions of a successful snapshot meet: does each of them succeed? */
  datatype Deletions = Deletions(archive: bool, manifest: bool)

  ghost predicate FailedRowAdded(rows: Table, id: nat) {
    && id in rows && rows[id].sizeBytes == 0 && rows[id].status.Failed?
    && rows[id].archiveRef.None? && rows[id].manifestRef.None?
  }

  lemma RunNothing(s: State, unique: bool)
    ensures Run(s, [], unique) == s
  {
  }

  /** The row a commit supersedes names two different objects. */
  lemma PreviousOfSafe(s: State)
    requires Safe(s)
    ensures var p := LatestReady(s.rows, s.nextId);
      p.Some? ==>
        var row := s.rows[p.value];
        row.archiveRef.Some? && row.manifestRef.Some? && row.archiveRef.value != row.manifestRef.value
  {
  }

  /** The rows and objects of one conversation. flight and doomed are a procedure's local variables. */
  class SnapshotService {
    var rows: Table
    var latestId: Option<nat>
    var store: map<Key, Blob>
    var nextId: nat
    const unique: bool
    ghost var flight: Option<Flight>
    ghost var doomed: set<Key>
    ghost var captured: Option<(Blob, Blob)>

    ghost function View(): State
      reads this
    {
      State(rows, latestId, store, flight, doomed, nextId, captured)
    }

    constructor (unique: bool)
      ensures View() == INITIAL && this.unique == unique
    {
      this.unique := unique;
      rows, latestId, store, nextId := map[], None, map[], 0;
      flight, doomed, captured := None, {}, None;
    }

    method PutObject(key: Key, blob: Blob)
      requires flight.Some?
      requires if key.ArchiveKey? then blob == flight.value.archive && flight.value.stage.NothingPut?
               else blob == flight.value.manifest && flight.value.stage.ArchivePut?
      requires key.generation == flight.value.generation
      modifies this
      ensures View() == Next(old(View()), if key.ArchiveKey? then PutArchive else PutManifest, unique)
    {
      store := store[key := blob];
      flight := Some(flight.value.(stage := if key.ArchiveKey? then ArchivePut else BothPut));
    }

    /** The transaction's end; false when the insert violates the unique index. */
    method CommitRow(previous: Option<nat>, generation: nat, archive: Blob, manifest: Blob) returns (ok: bool)
      requires flight == Some(Flight(previous, generation, archive, manifest, BothPut))
      modifies this
      ensures View() == Next(old(View()), Commit, unique) && flight.None?
      ensures captured == if ok then Some((archive, manifest)) else old(captured)
      ensures ok <==> !(unique && old(GenerationTaken(rows, generation)))
    {
      if unique && GenerationTaken(rows, generation) {
        flight := None;
        return false;
      }
      doomed := doomed + PreviousRefs(rows, previous);
      var row := Row(generation, Ready, Some(ArchiveKey(generation)), Some(ManifestKey(generation)), archive.size);
      rows := Supersede(rows, previous)[nextId := row];
      latestId := Some(nextId);
      nextId := nextId + 1;
      flight, captured := None, Some((archive, manifest));
      ok := true;
    }

    method DeleteObject(key: Key, succeeds: bool)
      requires key in doomed
      modifies this
      ensures View() == Next(old(View()), Delete(key, succeeds), unique)
    {
      if succeeds {
        store := store - {key};
      }
      doomed := doomed - {key};
    }

    /** The deletions after a commit: the two objects of the row it superseded. */
    method DeletePrevious(row: Row, deletions: Deletions) returns (ghost steps: seq<Step>)
      requires row.archiveRef.Some? && row.manifestRef.Some? && Refs(row) == doomed
      requires row.archiveRef.value != row.manifestRef.value
      modifies this
      ensures View() == Run(old(View()), steps, unique)
      ensures doomed == {} && flight == old(flight) && captured == old(captured)
      ensures latestId == old(latestId) && rows == old(rows) && nextId == old(nextId)
    {
      ghost var s := View();
      DeleteObject(row.archiveRef.value, deletions.archive);
      RunSnoc(s, [], Delete(row.archiveRef.value, deletions.archive), unique);
      steps := [] + [Delete(row.archiveRef.value, deletions.archive)];
      DeleteObject(row.manifestRef.value, deletions.manifest);
      RunSnoc(s, steps, Delete(row.manifestRef.value, deletions.manifest), unique);
      steps := steps + [Delete(row.manifestRef.value, deletions.manifest)];
    }

    /** Reads the previous ready row and uploads both objects; an upload that fails ends the attempt. */
    method UploadObjects(archive: Blob, manifest: Blob, fault: Fault) returns (ghost trace: seq<Step>)
      requires flight.None?
      modifies this
      ensures View() == Run(old(View()), trace, unique)
      ensures View() == old(View()).(store := store, flight := flight)
      ensures flight == if fault.ArchivePutFails? || fault.ManifestPutFails? then None else
        Some(Flight(LatestReady(rows, nextId), NextGeneration(rows, nextId), archive, manifest, BothPut))
    {
      ghost var s := View();
      var generation := NextGeneration(rows, nextId);
      flight := Some(Flight(LatestReady(rows, nextId), generation, archive, manifest, NothingPut));
      RunSnoc(s, [], Begin(archive, manifest), unique);
      trace := [] + [Begin(archive, manifest)];
      if !fault.ArchivePutFails? {
        PutObject(ArchiveKey(generation), archive);
        RunSnoc(s, trace, PutArchive, unique);
        trace := trace + [PutArchive];
        if !fault.ManifestPutFails? {
          PutObject(ManifestKey(generation), manifest);
          RunSnoc(s, trace, PutManifest, unique);
          trace := trace + [PutManifest];
          return;
        }
      }
      flight := None;
      RunSnoc(s, trace, Abort, unique);
      trace := trace + [Abort];
    }

    /** Uploads and commits. A raised error or a crash before the commit captures nothing. */
    method StoreSnapshot(archive: Blob, manifest: Blob, fault: Fault)
      returns (outcome: Outcome, ghost trace: seq<Step>)
      requires flight.None? && doomed == {} && !fault.CleaningFails?
      modifies this
      ensures View() == Run(old(View()), trace, unique) && flight.None?
      ensures outcome.Raised? <==>
        fault.ArchivePutFails? || fault.ManifestPutFails? || fault.CommitFails? || fault.RefreshFails? ||
        (unique && Blocked(old(View())) && !fault.CrashBeforeCommit?)
      ensures outcome.Crashed? <==>
        fault.CrashBeforeCommit? || (fault.CrashAfterCommit? && !(unique && Blocked(old(View()))))
      ensures var committed := Commits(fault) && !(unique && Blocked(old(View())));
        && captured == (if committed then Some((archive, manifest)) else old(captured))
        && latestId == (if committed then Some(old(nextId)) else old(latestId))
        && (!committed ==> rows == old(rows))
        && nextId == (if committed then old(nextId) + 1 else old(nextId))
      ensures outcome.Created? ==> outcome.id == old(nextId)
      ensures doomed ==
        if outcome.Created? then PreviousRefs(old(rows), LatestReady(old(rows), old(nextId))) else {}
    {
      ghost var s := View();
      trace := UploadObjects(archive, manifest, fault);
      if fault.ArchivePutFails? || fault.ManifestPutFails? {
        return Raised, trace;
      }
      var previous, generation := LatestReady(rows, nextId), NextGeneration(rows, nextId);
      if fault.CrashBeforeCommit? || fault.CommitFails? {
        flight := None;
        ghost var step := if fault.CrashBeforeCommit? then Crash else Abort;
        RunSnoc(s, trace, step, unique);
        return if fault.CrashBeforeCommit? then Crashed else Raised, trace + [step];
      }
      var id := nextId;
      var ok := CommitRow(previous, generation, archive, manifest);
      RunSnoc(s, trace, Commit, unique);
      trace := trace + [Commit];
      if !ok {
        return Raised, trace;
      }
      if fault.CrashAfterCommit? || fault.RefreshFails? {
        doomed := {};
        RunSnoc(s, trace, Crash, unique);
        return if fault.RefreshFails? then Raised else Crashed, trace + [Crash];
      }
      outcome := Created(id);
    }

    method RecordFailedSnapshot()
      modifies this
      ensures View() == Next(old(View()), RecordFailed, unique)
      ensures old(Safe(View())) ==>
        forall i :: i in old(rows) ==> old(rows)[i].generation < rows[old(nextId)].generation
    {
      MaxGenerationIsMax(rows, nextId);
      rows := rows[nextId := FailedRow(rows, nextId)];
      nextId := nextId + 1;
    }

    /** What follows a stored snapshot: deletions after success, a failed row after a raised error. */
    method AfterStore(outcome: Outcome, previous: Option<Row>, deletions: Deletions) returns (ghost steps: seq<Step>)
      requires flight.None?
      requires outcome.Created? && previous.Some? ==>
        previous.value.archiveRef.Some? && previous.value.manifestRef.Some? && Refs(previous.value) == doomed &&
        previous.value.archiveRef.value != previous.value.manifestRef.value
      requires !(outcome.Created? && previous.Some?) ==> doomed == {}
      modifies this
      ensures View() == Run(old(View()), steps, unique)
      ensures flight.None? && doomed == {} && captured == old(captured) && latestId == old(latestId)
      ensures rows == if outcome.Raised? then old(rows)[old(nextId) := FailedRow(old(rows), old(nextId))] else old(rows)
      ensures nextId == old(nextId) + if outcome.Raised? then 1 else 0
      ensures outcome.Raised? ==> FailedRowAdded(rows, old(nextId))
    {
      ghost var s := View();
      if outcome.Created? && previous.Some? {
        steps := DeletePrevious(previous.value, deletions);
      } else if outcome.Raised? {
        RecordFailedSnapshot();
        RunSnoc(s, [], RecordFailed, unique);
        steps := [] + [RecordFailed];
      } else {
        steps := [];
      }
    }

    /** The cleaning of the workspace, which may raise, and then the snapshot. */
    method CleanAndStore(archive: Blob, manifest: Blob, fault: Fault)
      returns (outcome: Outcome, ghost trace: seq<Step>)
      requires flight.None? && doomed == {}
      modifies this
      ensures View() == Run(old(View()), trace, unique) && flight.None?
      ensures outcome.Created? <==> fault.NoFault? && !(unique && Blocked(old(View())))
      ensures var committed := Commits(fault) && !(unique && Blocked(old(View())));
        && captured == (if committed then Some((archive, manifest)) else old(captured))
        && latestId == (if committed then Some(old(nextId)) else old(latestId))
        && (!committed ==> rows == old(rows))
        && nextId == (if committed then old(nextId) + 1 else old(nextId))
      ensures doomed ==
        if outcome.Created? then PreviousRefs(old(rows), LatestReady(old(rows), old(nextId))) else {}
    {
      if fault.CleaningFails? {
        assert Run(View(), [], unique) == View() by { RunNothing(View(), unique); }
        return Raised, [];
      }
      hide Run, LatestReady, Blocked, PreviousRefs;
      outcome, trace := StoreSnapshot(archive, manifest, fault);
    }

    /** A snapshot attempt: on a raised error a failed row is recorded, a crash records nothing. */
    method SnapshotRuntime(archive: Blob, manifest: Blob, fault: Fault, deletions: Deletions)
      returns (outcome: Outcome, ghost trace: seq<Step>)
      requires Safe(View()) && flight.None? && doomed == {}
      modifies this
      ensures View() == Run(old(View()), trace, unique) && Safe(View()) && flight.None? && doomed == {}
      ensures outcome.Created? <==> fault.NoFault? && !(unique && Blocked(old(View())))
      ensures var committed := Commits(fault) && !(unique && Blocked(old(View())));
        && captured == (if committed then Some((archive, manifest)) else old(captured))
        && latestId == (if committed then Some(old(nextId)) else old(latestId))
        && nextId == old(nextId) + (if committed then 1 else 0) + (if outcome.Raised? then 1 else 0)
        && (outcome.Raised? ==> FailedRowAdded(rows, if committed then old(nextId) + 1 else old(nextId)))
        && (outcome.Raised? && !committed ==> rows == old(rows)[old(nextId) := rows[old(nextId)]])
    {
      ghost var s := View();
      PreviousOfSafe(s);
      hide Safe, Run, Next, LatestReady, GenerationTaken, NextGeneration, Blocked, FailedRow, FailedRowAdded;
      hide PreviousRefs;
      var previous := LatestReady(rows, nextId);
      var previousRow := if previous.Some? then Some(rows[previous.value]) else None;
      hide Commits;
      outcome, trace := CleanAndStore(archive, manifest, fault);
      ghost var steps := AfterStore(outcome, previousRow, deletions);
      assert Run(s, trace + steps, unique) == View() && Safe(View()) by {
        RunConcat(s, trace, steps, unique);
        RunSafe(s, trace + steps, unique);
      }
      trace := trace + steps;
    }

    /** A new runtime's restore: it always finds the object, with the last captured content. */
    method RestoreWorkdir() returns (r: Restored)
      requires Safe(View())
      ensures r == Restore(View())
      ensures r == if captured.Some? then FromArchive(captured.value.0) else NoSnapshot
    {
      var latest := LatestReady(rows, nextId);
      if latest.None? || rows[latest.value].archiveRef.None? {
        return NoSnapshot;
      }
      var key := rows[latest.value].archiveRef.value;
      r := if key in store then FromArchive(store[key]) else ObjectMissing;
    }

    /** Drops every row but the latest ready one, which the conversation then refers to. */
    method DropOtherRows() returns (gone: Table)
      modifies this
      ensures View() == ArchiveRows(old(View())).(doomed := old(doomed))
      ensures gone == old(rows) - rows.Keys && ArchiveRows(old(View())).doomed == old(doomed) + RefsOf(gone)
    {
      RowsGone(View());
      hide LatestReady, RefsOf;
      var keep := LatestReady(rows, nextId);
      if keep.Some? {
        gone := rows - {keep.value};
        rows := map[keep.value := rows[keep.value]];
        latestId := keep;
      } else {
        gone := rows;
        rows := map[];
      }
    }

    /** The lifecycle manager's transaction; the objects it returns are then deleted. */
    method ArchiveConversationRows() returns (refs: set<Key>)
      requires Safe(View())
      modifies this
      ensures View() == Next(old(View()), ArchiveConversation, unique) && Safe(View())
      ensures doomed == old(doomed) + refs && captured == old(captured)
      ensures forall k :: k in refs <==> Named(old(rows) - rows.Keys, k)
      ensures |rows| <= 1 && !Blocked(View())
    {
      hide Safe, Blocked, RefsOf, Named, LatestReady, Next, ArchiveRows, Restore, GenerationTaken, NextGeneration;
      ghost var s := View();
      ArchiveSafe(s);
      ArchiveUnblocks(s);
      RowsGone(s);
      ArchiveStep(s, unique);
      var gone := DropOtherRows();
      refs := RefsOf(gone);
      RefsAreNamed(gone);
      doomed := doomed + refs;
    }
  }
}
