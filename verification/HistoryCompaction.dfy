/**
 Compaction of one conversation's history: the oldest chat messages move from the live table into
 archive objects, by an upload, a summary that may fail, and one database transaction.
 */
module HistoryCompaction {
  import opened Common
  import opened HistoryWindow

  datatype Archive = Archive(ref: nat, startId: nat, endId: nat, count: nat)

  /** A compaction under way: the messages it read, and the object it uploaded them to. */
  datatype Flight = Flight(batch: seq<Message>, ref: Option<nat>)

  /**
   live holds the rows in the order they were added, whatever their times; history is the journal of every chat
   message ever appended.
   */
  datatype State = State(live: seq<Message>, archives: seq<Archive>, store: map<nat, seq<Message>>,
                         compactedCount: nat, rawCount: nat, coversUntil: Option<Message>,
                         nextRef: nat, flight: Option<Flight>, history: seq<Message>)

  /** rows is what the messages query returns. */
  datatype Step =
    | Append(message: Message)
    | BeginCompaction(rows: seq<Message>, window: int, cutoff: int)
    | Upload
    | SummaryFails(deleted: bool)
    | CommitCompaction
    | Crash

  const EMPTY := State([], [], map[], 0, 0, None, 0, None, [])

  // ---------------------------------------------------------------- the order of the query

  ghost predicate SortedByTime(ms: seq<Message>) {
    forall i, j :: 0 <= i < j < |ms| ==> ms[i].createdAt <= ms[j].createdAt
  }

  /** A result the query may return: ordered by creation time only, ties in any order. */
  ghost predicate QueryResult(rows: seq<Message>, ms: seq<Message>) {
    SortedByTime(rows) && multiset(rows) == multiset(ms)
  }

  /** The identifier is the table's primary key. */
  ghost predicate IdsUnique(ms: seq<Message>) {
    forall i, j :: 0 <= i < j < |ms| ==> ms[i].id != ms[j].id
  }

  lemma {:induction false} OnlyOnce(ms: seq<Message>, m: Message)
    requires IdsUnique(ms)
    ensures multiset(ms)[m] <= 1
  {
    if ms != [] {
      assert ms == [ms[0]] + ms[1..];
      OnlyOnce(ms[1..], m);
      assert ms[0] !in ms[1..];
    }
  }

  /** No message of a is later than one of b. */
  ghost predicate NotAfter(a: seq<Message>, b: seq<Message>) {
    forall x, y :: x in a && y in b ==> x.createdAt <= y.createdAt
  }

  lemma SortedConcat(a: seq<Message>, b: seq<Message>)
    ensures SortedByTime(a + b) <==> SortedByTime(a) && SortedByTime(b) && NotAfter(a, b)
  {
    if SortedByTime(a + b) {
      forall i, j | 0 <= i < j < |a|
        ensures a[i].createdAt <= a[j].createdAt
      {
        assert (a + b)[i] == a[i] && (a + b)[j] == a[j];
      }
      forall i, j | 0 <= i < j < |b|
        ensures b[i].createdAt <= b[j].createdAt
      {
        assert (a + b)[|a| + i] == b[i] && (a + b)[|a| + j] == b[j];
      }
      forall x, y | x in a && y in b
        ensures x.createdAt <= y.createdAt
      {
        var i :| 0 <= i < |a| && a[i] == x;
        var j :| 0 <= j < |b| && b[j] == y;
        assert (a + b)[i] == x && (a + b)[|a| + j] == y;
      }
    }
  }

  lemma {:induction false} FilterSortedByTime(keep: Message -> bool, ms: seq<Message>)
    requires SortedByTime(ms)
    ensures SortedByTime(Filter(keep, ms))
  {
    if ms != [] {
      FilterSortedByTime(keep, ms[1..]);
      var rest := Filter(keep, ms[1..]);
      assert ms == [ms[0]] + ms[1..];
      SortedConcat([ms[0]], ms[1..]);
      SortedConcat(if keep(ms[0]) then [ms[0]] else [], rest);
    }
  }

  lemma {:induction false} StrictOrderUnique(rows: seq<Message>, ms: seq<Message>)
    requires StrictTimes(ms) && QueryResult(rows, ms)
    ensures rows == ms
    decreases |ms|
  {
    assert |rows| == |multiset(rows)| == |multiset(ms)| == |ms|;
    if ms != [] {
      SameFirst(rows, ms);
      SameRest(rows, ms);
      assert SortedByTime(rows[1..]) && StrictTimes(ms[1..]);
      StrictOrderUnique(rows[1..], ms[1..]);
      assert rows == [rows[0]] + rows[1..] && ms == [ms[0]] + ms[1..];
    }
  }

  lemma SameFirst(rows: seq<Message>, ms: seq<Message>)
    requires StrictTimes(ms) && SortedByTime(rows) && multiset(rows) == multiset(ms) && ms != [] && rows != []
    ensures rows[0] == ms[0]
  {
    assert ms[0] in multiset(ms) && rows[0] in multiset(rows);
    var i :| 0 <= i < |rows| && rows[i] == ms[0];
    var j :| 0 <= j < |ms| && ms[j] == rows[0];
  }

  lemma SameRest(rows: seq<Message>, ms: seq<Message>)
    requires multiset(rows) == multiset(ms) && ms != [] && rows != [] && rows[0] == ms[0]
    ensures multiset(rows[1..]) == multiset(ms[1..])
  {
    assert rows == [rows[0]] + rows[1..] && ms == [ms[0]] + ms[1..];
    assert multiset(rows) == multiset{rows[0]} + multiset(rows[1..]);
    assert multiset(ms) == multiset{ms[0]} + multiset(ms[1..]);
    assert multiset(rows[1..]) == multiset(rows) - multiset{rows[0]};
    assert multiset(ms[1..]) == multiset(ms) - multiset{ms[0]};
  }

  function Swapped(ms: seq<Message>, i: nat): seq<Message>
    requires i + 1 < |ms|
  {
    ms[i := ms[i + 1]][i + 1 := ms[i]]
  }

  lemma SwapTie(ms: seq<Message>, i: nat)
    requires Sorted(ms) && i + 1 < |ms| && ms[i].createdAt == ms[i + 1].createdAt
    ensures QueryResult(Swapped(ms, i), ms) && Swapped(ms, i) != ms
  {
    assert Before(ms[i], ms[i + 1]) && ms[i] != ms[i + 1];
    var rows := Swapped(ms, i);
    assert forall k :: 0 <= k < |ms| ==> rows[k].createdAt == ms[k].createdAt;
    assert SortedByTime(rows) by {
      forall k, l | 0 <= k < l < |rows|
        ensures rows[k].createdAt <= rows[l].createdAt
      {
        assert Before(ms[k], ms[l]);
      }
    }
  }

  /**
   The compaction query orders by time without a tie-break, unlike the window and page queries.
   It is sure to return their order exactly when no two messages carry the same time.
   */
  lemma CompactionOrderDetermined(ms: seq<Message>)
    requires Sorted(ms)
    ensures (forall rows :: QueryResult(rows, ms) ==> rows == ms) <==> StrictTimes(ms)
  {
    if StrictTimes(ms) {
      forall rows | QueryResult(rows, ms)
        ensures rows == ms
      {
        StrictOrderUnique(rows, ms);
      }
    } else {
      var i := AdjacentTie(ms);
      SwapTie(ms, i);
    }
  }

  lemma AdjacentTie(ms: seq<Message>) returns (i: nat)
    requires Sorted(ms) && !StrictTimes(ms)
    ensures i + 1 < |ms| && ms[i].createdAt == ms[i + 1].createdAt
  {
    var j, k :| 0 <= j < k < |ms| && ms[j].createdAt >= ms[k].createdAt;
    assert Before(ms[j], ms[k]) && Before(ms[j], ms[j + 1]);
    assert j + 1 < k ==> Before(ms[j + 1], ms[k]);
    i := j;
  }

  // ---------------------------------------------------------------- what is compacted

  function OldEnough(ms: seq<Message>, cutoff: int): seq<Message> {
    Filter((m: Message) => m.createdAt <= cutoff, ms)
  }

  /** The window a compaction is asked for; none, or 0, stands for the configured one. */
  function TurnWindow(requested: Option<int>, configured: int): int {
    if requested.None? || requested.value == 0 then configured else requested.value
  }

  function Compactable(chat: seq<Message>, window: int, cutoff: int): seq<Message> {
    OldEnough(chat[..Cut(chat, Max(window, 1))], cutoff)
  }

  function Without(ms: seq<Message>, batch: seq<Message>): seq<Message> {
    Filter((m: Message) => m !in batch, ms)
  }

  lemma {:induction false} OldEnoughIsPrefix(ms: seq<Message>, cutoff: int)
    requires SortedByTime(ms)
    ensures OldEnough(ms, cutoff) <= ms
    ensures forall i :: 0 <= i < |ms| ==> (ms[i].createdAt <= cutoff <==> i < |OldEnough(ms, cutoff)|)
  {
    if ms != [] {
      OldEnoughIsPrefix(ms[1..], cutoff);
      var rest := OldEnough(ms[1..], cutoff);
      if ms[0].createdAt > cutoff {
        FilterNone((m: Message) => m.createdAt <= cutoff, ms);
      } else {
        assert OldEnough(ms, cutoff) == [ms[0]] + rest;
        hide OldEnough, SortedByTime;
        forall i | 0 <= i < |ms|
          ensures ms[i].createdAt <= cutoff <==> i < 1 + |rest|
        {
          assert i > 0 ==> ms[i] == ms[1..][i - 1];
        }
      }
    }
  }

  /** What is compacted is a prefix of what the query returned: the old enough part before the window. */
  lemma CompactableIsPrefix(rows: seq<Message>, window: int, cutoff: int)
    requires SortedByTime(rows)
    ensures Compactable(rows, window, cutoff) <= rows[..Cut(rows, Max(window, 1))] <= rows
    ensures forall i :: 0 <= i < |rows| ==>
      (i < |Compactable(rows, window, cutoff)| <==> i < Cut(rows, Max(window, 1)) && rows[i].createdAt <= cutoff)
  {
    var older := rows[..Cut(rows, Max(window, 1))];
    OldEnoughIsPrefix(older, cutoff);
    assert forall i :: 0 <= i < |older| ==> older[i] == rows[i];
  }

  /** Removing a batch of chat messages takes exactly these from the chat messages, and no other row. */
  lemma WithoutBatch(live: seq<Message>, batch: seq<Message>)
    requires IdsUnique(live) && multiset(batch) <= multiset(Chat(live))
    ensures multiset(Chat(Without(live, batch))) == multiset(Chat(live)) - multiset(batch)
    ensures Filter((m: Message) => !IsChat(m), Without(live, batch)) == Filter((m: Message) => !IsChat(m), live)
    ensures IdsUnique(Without(live, batch))
  {
    var notIn := (m: Message) => m !in batch;
    var other := (m: Message) => !IsChat(m);
    forall x
      ensures multiset(Chat(Without(live, batch)))[x] == (multiset(Chat(live)) - multiset(batch))[x]
    {
      FilterMultiset(IsChat, Without(live, batch), x);
      FilterMultiset(notIn, live, x);
      FilterMultiset(IsChat, live, x);
      OnlyOnce(live, x);
      assert x in batch <==> multiset(batch)[x] > 0;
    }
    forall m: Message
      ensures other(m) ==> notIn(m)
    {
      if m in batch {
        assert m in multiset(batch) && m in multiset(Chat(live));
        assert m in Chat(live);
      }
    }
    FilterTwice(notIn, other, other, live);
    FilterIdsUnique(notIn, live);
  }

  lemma {:induction false} FilterIdsUnique(keep: Message -> bool, ms: seq<Message>)
    requires IdsUnique(ms)
    ensures IdsUnique(Filter(keep, ms))
  {
    if ms != [] {
      FilterIdsUnique(keep, ms[1..]);
      var rest := Filter(keep, ms[1..]);
      forall j | 0 <= j < |rest|
        ensures rest[j].id != ms[0].id
      {
        assert rest[j] in ms[1..];
      }
    }
  }

  /** The rest of what the query returned is, in its order, what is left. */
  lemma RestIsLeft(live: seq<Message>, rows: seq<Message>, batch: seq<Message>)
    requires IdsUnique(live) && QueryResult(rows, Chat(live)) && batch <= rows
    ensures multiset(batch) <= multiset(Chat(live))
    ensures QueryResult(rows[|batch|..], Chat(Without(live, batch)))
  {
    var rest := rows[|batch|..];
    assert rows == batch + rest;
    WithoutBatch(live, batch);
    SortedConcat(batch, rest);
  }

  // ---------------------------------------------------------------- steps

  function CommitFlight(s: State, f: Flight): State
    requires f.batch != [] && f.ref.Some?
  {
    var last := f.batch[|f.batch| - 1];
    s.(live := Without(s.live, f.batch),
       archives := s.archives + [Archive(f.ref.value, f.batch[0].id, last.id, |f.batch|)],
       compactedCount := s.compactedCount + |f.batch|,
       rawCount := s.rawCount + |f.batch|,
       coversUntil := Some(last),
       flight := None)
  }

  predicate NewId(s: State, m: Message) {
    (forall x :: x in s.live ==> x.id != m.id) && (forall x :: x in s.history ==> x.id != m.id)
  }

  /** A step that is not enabled changes nothing. Messages may carry any times, equal ones too. */
  ghost function Next(s: State, step: Step): State {
    match step
    case Append(m) =>
      if !NewId(s, m) then s
      else s.(live := s.live + [m], history := if IsChat(m) then s.history + [m] else s.history)
    case BeginCompaction(rows, window, cutoff) =>
      var batch := Compactable(rows, window, cutoff);
      if s.flight.Some? || batch == [] || !QueryResult(rows, Chat(s.live)) then s
      else s.(flight := Some(Flight(batch, None)))
    case Upload =>
      if s.flight.None? || s.flight.value.ref.Some? then s
      else
        s.(store := s.store[s.nextRef := s.flight.value.batch],
           flight := Some(s.flight.value.(ref := Some(s.nextRef))), nextRef := s.nextRef + 1)
    case SummaryFails(deleted) =>
      if s.flight.None? || s.flight.value.ref.None? then s
      else s.(flight := None, store := if deleted then s.store - {s.flight.value.ref.value} else s.store)
    case CommitCompaction =>
      if s.flight.None? || s.flight.value.ref.None? || s.flight.value.batch == [] then s
      else CommitFlight(s, s.flight.value)
    case Crash => s.(flight := None)
  }

  ghost function Run(s: State, steps: seq<Step>): State
    decreases |steps|
  {
    if steps == [] then s else Run(Next(s, steps[0]), steps[1..])
  }

  lemma {:induction false} RunConcat(s: State, a: seq<Step>, b: seq<Step>)
    ensures Run(s, a + b) == Run(Run(s, a), b)
    decreases |a|
  {
    if a == [] {
      assert a + b == b;
    } else {
      assert (a + b)[1..] == a[1..] + b;
      RunConcat(Next(s, a[0]), a[1..], b);
    }
  }

  lemma RunSnoc(s: State, steps: seq<Step>, step: Step)
    ensures Run(s, steps + [step]) == Next(Run(s, steps), step)
  {
    RunConcat(s, steps, [step]);
    var t := Run(s, steps);
    assert Run(t, [step]) == Run(Next(t, step), []);
  }

  // ---------------------------------------------------------------- conservation

  /** The contents of the committed archives, in commit order. */
  function Archived(archives: seq<Archive>, store: map<nat, seq<Message>>): seq<Message> {
    if archives == [] then []
    else
      var last := archives[|archives| - 1];
      Archived(archives[..|archives| - 1], store) + if last.ref in store then store[last.ref] else []
  }

  function TotalCount(archives: seq<Archive>): nat {
    if archives == [] then 0
    else TotalCount(archives[..|archives| - 1]) + archives[|archives| - 1].count
  }

  ghost predicate ArchivesStored(s: State) {
    forall a :: a in s.archives ==>
      && a.ref < s.nextRef && a.ref in s.store && |s.store[a.ref]| == a.count && a.count > 0
      && s.store[a.ref][0].id == a.startId && s.store[a.ref][a.count - 1].id == a.endId
  }

  ghost predicate FlightConsistent(s: State, f: Flight) {
    && f.batch != [] && SortedByTime(f.batch) && multiset(f.batch) <= multiset(Chat(s.live))
    && (SortedByTime(s.history) ==> NotAfter(f.batch, Without(Chat(s.live), f.batch)))
    && (f.ref.Some? ==>
          && f.ref.value < s.nextRef && f.ref.value in s.store && s.store[f.ref.value] == f.batch
          && forall a :: a in s.archives ==> a.ref != f.ref.value)
  }

  /** Archives and live chat messages together are the messages of the history, each as often as there. */
  ghost predicate Conserved(s: State) {
    && multiset(Archived(s.archives, s.store) + Chat(s.live)) == multiset(s.history)
    && TotalCount(s.archives) == s.compactedCount == s.rawCount
    && |Archived(s.archives, s.store)| == s.compactedCount
  }

  /** Messages that were appended in the order of their times are archived and kept in that order. */
  ghost predicate InOrder(s: State) {
    SortedByTime(s.history) ==> SortedByTime(Archived(s.archives, s.store) + Chat(s.live))
  }

  ghost predicate Consistent(s: State) {
    && IdsUnique(s.live) && IdsUnique(s.history)
    && Conserved(s) && InOrder(s)
    && ArchivesStored(s)
    && (s.flight.Some? ==> FlightConsistent(s, s.flight.value))
    && (match s.coversUntil
        case None => s.archives == []
        case Some(m) =>
          var archived := Archived(s.archives, s.store);
          archived != [] && m == archived[|archived| - 1])
  }

  lemma ChatAppend(ms: seq<Message>, m: Message)
    ensures Chat(ms + [m]) == Chat(ms) + if IsChat(m) then [m] else []
  {
    FilterConcat(IsChat, ms, [m]);
  }

  lemma {:induction false} ArchivedSameStore(archives: seq<Archive>, s1: map<nat, seq<Message>>,
                                             s2: map<nat, seq<Message>>)
    requires forall a :: a in archives ==> a.ref in s1 && a.ref in s2 && s1[a.ref] == s2[a.ref]
    ensures Archived(archives, s1) == Archived(archives, s2)
    decreases |archives|
  {
    if archives != [] {
      assert archives[|archives| - 1] in archives;
      ArchivedSameStore(archives[..|archives| - 1], s1, s2);
    }
  }

  lemma IdsAppend(ms: seq<Message>, m: Message)
    requires IdsUnique(ms) && forall x :: x in ms ==> x.id != m.id
    ensures IdsUnique(ms + [m])
  {
  }

  /** A chat message joins history and live chat at their ends. */
  lemma AppendConserves(archived: seq<Message>, chat: seq<Message>, history: seq<Message>, m: Message)
    requires multiset(archived + chat) == multiset(history)
    requires SortedByTime(history) ==> SortedByTime(archived + chat)
    ensures multiset(archived + (chat + [m])) == multiset(history + [m])
    ensures SortedByTime(history + [m]) ==> SortedByTime(history) && SortedByTime(archived + (chat + [m]))
    ensures SortedByTime(history + [m]) ==> NotAfter(archived + chat, [m])
  {
    var all := archived + chat;
    assert archived + (chat + [m]) == all + [m];
    SortedConcat(history, [m]);
    SortedConcat(all, [m]);
    if SortedByTime(history + [m]) {
      forall x | x in all
        ensures x.createdAt <= m.createdAt
      {
        assert x in multiset(all);
        assert x in history;
      }
    }
  }

  lemma AppendConsistent(s: State, m: Message)
    requires Consistent(s)
    ensures Consistent(Next(s, Append(m)))
  {
    ChatAppend(s.live, m);
    if NewId(s, m) {
      IdsAppend(s.live, m);
      var t := Next(s, Append(m));
      var archived, chat := Archived(s.archives, s.store), Chat(s.live);
      hide SortedByTime, NotAfter, Chat, Archived, ArchivesStored, TotalCount, IdsUnique, NewId;
      if IsChat(m) {
        assert IdsUnique(t.history) by { JournalIds(s, m); }
        AppendConserves(archived, chat, s.history, m);
        if s.flight.Some? {
          AppendFlight(s.flight.value.batch, archived, chat, m);
        }
      } else {
        assert Chat(t.live) == chat;
      }
    }
  }

  lemma JournalIds(s: State, m: Message)
    requires IdsUnique(s.history) && NewId(s, m)
    ensures IdsUnique(s.history + [m])
  {
    IdsAppend(s.history, m);
  }

  lemma AppendFlight(batch: seq<Message>, archived: seq<Message>, chat: seq<Message>, m: Message)
    requires multiset(batch) <= multiset(chat)
    ensures multiset(batch) <= multiset(chat + [m])
    ensures NotAfter(batch, Without(chat, batch)) && NotAfter(archived + chat, [m]) ==>
            NotAfter(batch, Without(chat + [m], batch))
  {
    FilterConcat((x: Message) => x !in batch, chat, [m]);
    forall x | x in batch
      ensures x in archived + chat
    {
      assert x in multiset(batch);
      assert x in multiset(chat);
    }
  }

  lemma BeginConsistent(s: State, rows: seq<Message>, window: int, cutoff: int)
    requires Consistent(s)
    ensures Consistent(Next(s, BeginCompaction(rows, window, cutoff)))
  {
    if QueryResult(rows, Chat(s.live)) {
      var batch := Compactable(rows, window, cutoff);
      CompactableIsPrefix(rows, window, cutoff);
      RestIsLeft(s.live, rows, batch);
      BatchFirst(s.live, rows, batch);
    }
  }

  /** What the query returned before the rest is not later than it. */
  lemma BatchFirst(live: seq<Message>, rows: seq<Message>, batch: seq<Message>)
    requires IdsUnique(live) && QueryResult(rows, Chat(live)) && batch <= rows
    ensures SortedByTime(batch) && NotAfter(batch, Without(Chat(live), batch))
  {
    var rest := rows[|batch|..];
    assert rows == batch + rest;
    SortedConcat(batch, rest);
    forall y | y in Without(Chat(live), batch)
      ensures y in rest
    {
      assert y in multiset(Chat(live));
      assert y in rows;
    }
  }

  /** Objects no archive refers to may come and go. */
  lemma SameArchives(s: State, t: State)
    requires Conserved(s) && InOrder(s) && t.live == s.live && t.history == s.history && t.archives == s.archives
    requires t.compactedCount == s.compactedCount && t.rawCount == s.rawCount
    requires forall a :: a in s.archives ==> a.ref in s.store && a.ref in t.store && t.store[a.ref] == s.store[a.ref]
    ensures Archived(t.archives, t.store) == Archived(s.archives, s.store) && Conserved(t) && InOrder(t)
  {
    hide SortedByTime, Chat, TotalCount;
    ArchivedSameStore(s.archives, s.store, t.store);
    hide Archived;
  }

  lemma StoreChangeConsistent(s: State, step: Step)
    requires Consistent(s) && (step.Upload? || step.SummaryFails?)
    ensures Consistent(Next(s, step))
  {
    hide SortedByTime, NotAfter, Chat, Without, IdsUnique, Archived, Conserved, InOrder;
    var t := Next(s, step);
    SameArchives(s, t);
    assert ArchivesStored(t);
    hide ArchivesStored;
  }

  lemma CommitConsistent(s: State)
    requires Consistent(s)
    ensures Consistent(Next(s, CommitCompaction))
  {
    hide SortedByTime, NotAfter, Chat, Without, Archived, TotalCount, ArchivesStored, Conserved, InOrder, IdsUnique;
    if s.flight.Some? && s.flight.value.ref.Some? {
      var f := s.flight.value;
      CommitParts(s, f);
      hide FlightConsistent;
      var t := CommitFlight(s, f);
      var archived := Archived(t.archives, t.store);
      assert archived[|archived| - 1] == f.batch[|f.batch| - 1];
    }
  }

  lemma CommitParts(s: State, f: Flight)
    requires Consistent(s) && s.flight == Some(f) && f.ref.Some?
    ensures var t := CommitFlight(s, f);
      && IdsUnique(t.live) && Conserved(t) && InOrder(t) && ArchivesStored(t)
      && Archived(t.archives, t.store) == Archived(s.archives, s.store) + f.batch
  {
    hide SortedByTime, NotAfter, Chat, Without, Archived, TotalCount, ArchivesStored, Conserved, InOrder, IdsUnique;
    CommitArchives(s, f);
    CommitConserves(s, f);
    CommitInOrder(s, f);
    CommitStored(s, f);
    WithoutBatch(s.live, f.batch);
  }

  lemma CommitStored(s: State, f: Flight)
    requires ArchivesStored(s) && FlightConsistent(s, f) && f.ref.Some?
    ensures ArchivesStored(CommitFlight(s, f))
  {
    hide Chat, Without, SortedByTime, NotAfter;
  }

  lemma CommitArchives(s: State, f: Flight)
    requires FlightConsistent(s, f) && f.ref.Some?
    ensures var t := CommitFlight(s, f);
      && Archived(t.archives, t.store) == Archived(s.archives, s.store) + f.batch
      && TotalCount(t.archives) == TotalCount(s.archives) + |f.batch|
  {
    hide Chat, Without, SortedByTime, NotAfter;
    var t := CommitFlight(s, f);
    ArchivedAppend(s.archives, t.archives[|s.archives|], s.store);
  }

  /** Moving a batch from one end to the other keeps the messages. */
  lemma MoveConserves(archived: seq<Message>, batch: seq<Message>, chat: seq<Message>, rest: seq<Message>,
                      history: seq<Message>)
    requires multiset(archived + chat) == multiset(history)
    requires multiset(batch) <= multiset(chat) && multiset(rest) == multiset(chat) - multiset(batch)
    ensures multiset((archived + batch) + rest) == multiset(history)
  {
    assert multiset((archived + batch) + rest) == multiset(archived) + multiset(batch) + multiset(rest);
    assert multiset(batch) + (multiset(chat) - multiset(batch)) == multiset(chat);
  }

  lemma CommitConserves(s: State, f: Flight)
    requires Conserved(s) && FlightConsistent(s, f) && f.ref.Some? && IdsUnique(s.live)
    ensures Conserved(CommitFlight(s, f))
  {
    var t := CommitFlight(s, f);
    WithoutBatch(s.live, f.batch);
    CommitArchives(s, f);
    hide Chat, Without, Archived, TotalCount, SortedByTime, NotAfter, IdsUnique;
    MoveConserves(Archived(s.archives, s.store), f.batch, Chat(s.live), Chat(t.live), s.history);
  }

  lemma CommitInOrder(s: State, f: Flight)
    requires InOrder(s) && FlightConsistent(s, f) && f.ref.Some?
    ensures InOrder(CommitFlight(s, f))
  {
    var t := CommitFlight(s, f);
    var archived, chat := Archived(s.archives, s.store), Chat(s.live);
    CommitArchives(s, f);
    ChatWithout(s.live, f.batch);
    hide Chat, Without, Archived, SortedByTime, NotAfter;
    if SortedByTime(s.history) {
      TakeFirst(archived, f.batch, chat);
    }
  }

  lemma ChatWithout(live: seq<Message>, batch: seq<Message>)
    ensures Chat(Without(live, batch)) == Without(Chat(live), batch)
  {
    var notIn := (m: Message) => m !in batch;
    var both := (m: Message) => m !in batch && IsChat(m);
    FilterTwice(notIn, IsChat, both, live);
    FilterTwice(IsChat, notIn, both, live);
  }

  /** Taking from a sorted list a sorted batch that is not later than the rest keeps the order. */
  lemma TakeFirst(archived: seq<Message>, batch: seq<Message>, chat: seq<Message>)
    requires SortedByTime(archived + chat) && SortedByTime(batch) && multiset(batch) <= multiset(chat)
    requires NotAfter(batch, Without(chat, batch))
    ensures SortedByTime((archived + batch) + Without(chat, batch))
  {
    SortedConcat(archived, chat);
    FilterSortedByTime((m: Message) => m !in batch, chat);
    forall x | x in batch
      ensures x in chat
    {
      assert x in multiset(batch);
      assert x in multiset(chat);
    }
    SortedConcat(archived, batch);
    SortedConcat(archived + batch, Without(chat, batch));
  }

  lemma ArchivedAppend(archives: seq<Archive>, a: Archive, store: map<nat, seq<Message>>)
    requires a.ref in store
    ensures Archived(archives + [a], store) == Archived(archives, store) + store[a.ref]
    ensures TotalCount(archives + [a]) == TotalCount(archives) + a.count
  {
    assert (archives + [a])[..|archives|] == archives;
  }

  lemma NextConsistent(s: State, step: Step)
    requires Consistent(s)
    ensures Consistent(Next(s, step))
  {
    match step
    case Append(m) => AppendConsistent(s, m);
    case BeginCompaction(rows, window, cutoff) => BeginConsistent(s, rows, window, cutoff);
    case Upload => StoreChangeConsistent(s, step);
    case SummaryFails(_) => StoreChangeConsistent(s, step);
    case CommitCompaction => CommitConsistent(s);
    case Crash =>
  }

  lemma {:induction false} RunConsistent(s: State, steps: seq<Step>)
    requires Consistent(s)
    ensures Consistent(Run(s, steps))
    decreases |steps|
  {
    hide Consistent, Next;
    if steps != [] {
      NextConsistent(s, steps[0]);
      RunConsistent(Next(s, steps[0]), steps[1..]);
    }
  }

  lemma StartsConsistent()
    ensures Consistent(EMPTY)
  {
  }

  /**
   Main result: whatever is appended, compacted, failed or crashed, with whatever times and tie order, the archives
   in commit order followed by the live chat messages, in any order the query returns, are a rearrangement of the
   history; sorted by time when the messages were appended in that order; and the history itself when no two times
   are equal. The archive counts add up to both counters.
   */
  lemma HistoryConserved(steps: seq<Step>, rows: seq<Message>)
    ensures var s := Run(EMPTY, steps);
      var archived := Archived(s.archives, s.store);
      && TotalCount(s.archives) == s.compactedCount == s.rawCount == |archived|
      && multiset(archived + Chat(s.live)) == multiset(s.history)
      && (SortedByTime(s.history) && QueryResult(rows, Chat(s.live)) ==> QueryResult(archived + rows, s.history))
      && (StrictTimes(s.history) ==> archived + Chat(s.live) == s.history)
  {
    StartsConsistent();
    RunConsistent(EMPTY, steps);
    var s := Run(EMPTY, steps);
    hide Run, Chat, Archived, ArchivesStored, FlightConsistent, IdsUnique;
    var archived, chat := Archived(s.archives, s.store), Chat(s.live);
    if SortedByTime(s.history) && QueryResult(rows, chat) {
      SortedConcat(archived, chat);
      assert forall y :: y in rows <==> y in multiset(rows);
      assert forall y :: y in chat <==> y in multiset(chat);
      SortedConcat(archived, rows);
      assert multiset(archived + rows) == multiset(archived) + multiset(rows) == multiset(archived + chat);
    }
    if StrictTimes(s.history) {
      StrictOrderUnique(archived + chat, s.history);
    }
  }

  /**
   Messages appended in order: no live chat message is earlier than what the summary covers, nor at its time unless
   times tie.
   */
  lemma SummaryCoversArchivesOnly(steps: seq<Step>)
    ensures var s := Run(EMPTY, steps);
      s.coversUntil.Some? && SortedByTime(s.history) ==>
        forall m :: m in Chat(s.live) ==>
          s.coversUntil.value.createdAt <= m.createdAt &&
          (StrictTimes(s.history) ==> s.coversUntil.value.createdAt < m.createdAt)
  {
    StartsConsistent();
    RunConsistent(EMPTY, steps);
    var s := Run(EMPTY, steps);
    hide Run, Chat, Archived, ArchivesStored, FlightConsistent, IdsUnique;
    var archived, chat := Archived(s.archives, s.store), Chat(s.live);
    if s.coversUntil.Some? && SortedByTime(s.history) {
      SortedConcat(archived, chat);
      var last := archived[|archived| - 1];
      forall m | m in chat
        ensures last.createdAt <= m.createdAt && (StrictTimes(s.history) ==> last.createdAt < m.createdAt)
      {
        if StrictTimes(s.history) {
          StrictOrderUnique(archived + chat, s.history);
          var j :| 0 <= j < |chat| && chat[j] == m;
          assert s.history[|archived| - 1] == last && s.history[|archived| + j] == m;
        }
      }
    }
  }

  // ---------------------------------------------------------------- the procedure

  lemma BeginRun(s: State, rows: seq<Message>, window: int, cutoff: int)
    requires s.flight.None? && QueryResult(rows, Chat(s.live)) && Compactable(rows, window, cutoff) != []
    ensures Run(s, [BeginCompaction(rows, window, cutoff)]) ==
            s.(flight := Some(Flight(Compactable(rows, window, cutoff), None)))
  {
    hide QueryResult, Compactable, Chat;
    RunSnoc(s, [], BeginCompaction(rows, window, cutoff));
    assert [] + [BeginCompaction(rows, window, cutoff)] == [BeginCompaction(rows, window, cutoff)];
    assert Run(s, []) == s;
  }

  /** The steps of one compaction, from the query on. */
  function CompactionSteps(rows: seq<Message>, window: int, cutoff: int, last: Step): seq<Step> {
    [BeginCompaction(rows, window, cutoff), Upload, last]
  }

  lemma CompactionRun(s: State, rows: seq<Message>, window: int, cutoff: int, last: Step)
    requires s.flight.None? && QueryResult(rows, Chat(s.live)) && Compactable(rows, window, cutoff) != []
    ensures var batch := Compactable(rows, window, cutoff);
      var uploaded := s.(store := s.store[s.nextRef := batch], nextRef := s.nextRef + 1,
                         flight := Some(Flight(batch, Some(s.nextRef))));
      Run(s, CompactionSteps(rows, window, cutoff, last)) == Next(uploaded, last)
  {
    var begin := BeginCompaction(rows, window, cutoff);
    hide QueryResult, Compactable, Chat;
    RunSnoc(s, [], begin);
    RunSnoc(s, [begin], Upload);
    RunSnoc(s, [begin, Upload], last);
    assert [] + [begin] == [begin] && [begin] + [Upload] == [begin, Upload];
    assert [begin, Upload] + [last] == CompactionSteps(rows, window, cutoff, last);
    assert Run(s, []) == s;
  }

  /** Committed, a compaction takes the batch from the live rows into a new archive object and counts it. */
  lemma CommitEffects(s: State, rows: seq<Message>, window: int, cutoff: int)
    requires s.flight.None? && QueryResult(rows, Chat(s.live)) && Compactable(rows, window, cutoff) != []
    ensures var batch := Compactable(rows, window, cutoff);
      var t := Run(s, CompactionSteps(rows, window, cutoff, CommitCompaction));
      && t.live == Without(s.live, batch) && t.history == s.history
      && t.store == s.store[s.nextRef := batch] && t.flight.None?
      && t.archives == s.archives + [Archive(s.nextRef, batch[0].id, batch[|batch| - 1].id, |batch|)]
      && t.compactedCount == s.compactedCount + |batch| && t.rawCount == s.rawCount + |batch|
      && t.coversUntil == Some(batch[|batch| - 1])
  {
    var batch := Compactable(rows, window, cutoff);
    CompactionRun(s, rows, window, cutoff, CommitCompaction);
    hide Run, QueryResult, Compactable, Chat, CompactionSteps, Without;
    var f := Flight(batch, Some(s.nextRef));
    var uploaded := s.(store := s.store[s.nextRef := batch], nextRef := s.nextRef + 1, flight := Some(f));
    assert Next(uploaded, CommitCompaction) == CommitFlight(uploaded, f);
    hide Next;
  }

  /**
   When the summary fails and the upload is deleted nothing is changed but the next reference; when the process crashes
   after the upload, or the deletion fails, the uploaded object is left over.
   */
  lemma FailureEffects(s: State, rows: seq<Message>, window: int, cutoff: int)
    requires s.flight.None? && s.nextRef !in s.store
    requires QueryResult(rows, Chat(s.live)) && Compactable(rows, window, cutoff) != []
    ensures var batch := Compactable(rows, window, cutoff);
      var left := s.(nextRef := s.nextRef + 1, store := s.store[s.nextRef := batch]);
      && Run(s, CompactionSteps(rows, window, cutoff, SummaryFails(true))) == s.(nextRef := s.nextRef + 1)
      && Run(s, CompactionSteps(rows, window, cutoff, SummaryFails(false))) == left
      && Run(s, CompactionSteps(rows, window, cutoff, Crash)) == left
  {
    CompactionRun(s, rows, window, cutoff, SummaryFails(true));
    CompactionRun(s, rows, window, cutoff, SummaryFails(false));
    CompactionRun(s, rows, window, cutoff, Crash);
    hide Run, QueryResult, Compactable, Chat, CompactionSteps;
    var batch := Compactable(rows, window, cutoff);
    var f := Flight(batch, Some(s.nextRef));
    var uploaded := s.(store := s.store[s.nextRef := batch], nextRef := s.nextRef + 1, flight := Some(f));
    assert s.store[s.nextRef := batch] - {s.nextRef} == s.store;
    assert Next(uploaded, SummaryFails(true)) == s.(nextRef := s.nextRef + 1);
    assert Next(uploaded, SummaryFails(false)) == Next(uploaded, Crash) == uploaded.(flight := None);
    hide Next;
  }

  function Appends(ms: seq<Message>): (steps: seq<Step>)
    ensures |steps| == |ms| && forall i :: 0 <= i < |ms| ==> steps[i] == Append(ms[i])
  {
    seq(|ms|, i requires 0 <= i < |ms| => Append(ms[i]))
  }

  /** Messages with new ids are all added, in order, and the journal takes those of users and assistants. */
  lemma {:induction false} AppendsAdd(ms: seq<Message>)
    requires IdsUnique(ms)
    ensures var s := Run(EMPTY, Appends(ms));
      && s.live == ms && s.history == Filter((m: Message) => m.role != Other, ms)
      && s == EMPTY.(live := s.live, history := s.history)
    decreases |ms|
  {
    hide Next;
    if ms == [] {
      assert Appends(ms) == [];
    } else {
      var init, m := ms[..|ms| - 1], ms[|ms| - 1];
      AppendsAdd(init);
      assert Appends(ms) == Appends(init) + [Append(m)];
      RunSnoc(EMPTY, Appends(init), Append(m));
      var s := Run(EMPTY, Appends(init));
      assert init + [m] == ms;
      FilterConcat((m: Message) => m.role != Other, init, [m]);
      AppendOne(s, m);
    }
  }

  lemma AppendOne(s: State, m: Message)
    requires NewIdSpelled(s.live, m) && NewIdSpelled(s.history, m)
    ensures Next(s, Append(m)) ==
            s.(live := s.live + [m], history := if m.role != Other then s.history + [m] else s.history)
  {
  }

  ghost predicate NewIdSpelled(ms: seq<Message>, m: Message) {
    forall x :: x in ms ==> x.id != m.id
  }

  lemma RunNothing(s: State)
    ensures Run(s, []) == s
  {
  }

  lemma ConsistentIds(s: State)
    requires Consistent(s)
    ensures IdsUnique(s.live)
  {
  }

  datatype SummaryOutcome = Summarised | NoSummary(archiveDeleted: bool) | CrashedBefore

  datatype CompactionResult = Committed(count: nat, ref: nat) | NothingEligible | SummaryGenerationFailed | Interrupted

  class ConversationHistory {
    var live: seq<Message>
    var archives: seq<Archive>
    var store: map<nat, seq<Message>>
    var compactedCount: nat
    var rawCount: nat
    var coversUntil: Option<Message>
    var nextRef: nat
    ghost var flight: Option<Flight>
    ghost var history: seq<Message>

    ghost function View(): State
      reads this
    {
      State(live, archives, store, compactedCount, rawCount, coversUntil, nextRef, flight, history)
    }

    constructor ()
      ensures View() == EMPTY
    {
      live, archives, store, compactedCount, rawCount, coversUntil, nextRef := [], [], map[], 0, 0, None, 0;
      flight, history := None, [];
    }

    method AppendMessage(m: Message)
      requires Consistent(View()) && NewId(View(), m)
      modifies this
      ensures View() == Next(old(View()), Append(m)) && Consistent(View())
    {
      ghost var s := View();
      AppendConsistent(s, m);
      hide Consistent, Chat, NewId;
      ghost var added := if IsChat(m) then s.history + [m] else s.history;
      assert Next(s, Append(m)) == s.(live := s.live + [m], history := added);
      hide Next;
      live := live + [m];
      history := if IsChat(m) then history + [m] else history;
    }

    method UploadArchive(batch: seq<Message>) returns (ref: nat)
      requires flight == Some(Flight(batch, None))
      modifies this`store, this`nextRef, this`flight
      ensures View() == Next(old(View()), Upload) && ref == old(nextRef) && flight == Some(Flight(batch, Some(ref)))
    {
      ref := nextRef;
      store := store[ref := batch];
      nextRef := nextRef + 1;
      flight := Some(Flight(batch, Some(ref)));
    }

    /** The transaction that records the archive, advances the summary and deletes the live rows. */
    method CommitBatch(batch: seq<Message>, ref: nat)
      requires batch != [] && flight == Some(Flight(batch, Some(ref)))
      modifies this
      ensures View() == Next(old(View()), CommitCompaction) && flight.None?
    {
      var last := batch[|batch| - 1];
      archives := archives + [Archive(ref, batch[0].id, last.id, |batch|)];
      coversUntil := Some(last);
      rawCount := rawCount + |batch|;
      live := Without(live, batch);
      compactedCount := compactedCount + |batch|;
      flight := None;
    }

    /** compact_conversation. rows is what the messages query returns; a run that does not commit changes no row. */
    method CompactConversation(rows: seq<Message>, requested: Option<int>, configured: int, cutoff: int,
                               summary: SummaryOutcome)
      returns (result: CompactionResult, ghost trace: seq<Step>)
      requires Consistent(View()) && flight.None? && QueryResult(rows, Chat(live))
      modifies this
      ensures View() == Run(old(View()), trace) && Consistent(View()) && flight.None? && history == old(history)
      ensures var window := if requested.None? || requested == Some(0) then configured else requested.value;
        result.NothingEligible? <==> Compactable(rows, window, cutoff) == []
      ensures result.Committed? <==> summary.Summarised? && !result.NothingEligible?
      ensures result.Committed? ==>
        var window := if requested.None? || requested == Some(0) then configured else requested.value;
        && result.count == |Compactable(rows, window, cutoff)| <= |rows|
        && QueryResult(rows[result.count..], Chat(live))
        && |archives| == |old(archives)| + 1 && archives[|old(archives)|].ref == result.ref
        && result.ref in store && store[result.ref] == rows[..result.count]
      ensures !result.Committed? ==>
        live == old(live) && archives == old(archives) && compactedCount == old(compactedCount)
    {
      hide Consistent, Run, Compactable, Chat, QueryResult;
      result, trace := CompactWindow(rows, TurnWindow(requested, configured), cutoff, summary);
    }

    /** The compaction with a given window. */
    method CompactWindow(rows: seq<Message>, window: int, cutoff: int, summary: SummaryOutcome)
      returns (result: CompactionResult, ghost trace: seq<Step>)
      requires Consistent(View()) && flight.None? && QueryResult(rows, Chat(live))
      modifies this
      ensures View() == Run(old(View()), trace) && Consistent(View()) && flight.None? && history == old(history)
      ensures result.NothingEligible? <==> Compactable(rows, window, cutoff) == []
      ensures result.Committed? <==> summary.Summarised? && !result.NothingEligible?
      ensures result.Committed? ==>
        && result.count == |Compactable(rows, window, cutoff)| <= |rows|
        && QueryResult(rows[result.count..], Chat(live))
        && |archives| == |old(archives)| + 1 && archives[|old(archives)|].ref == result.ref
        && result.ref in store && store[result.ref] == rows[..result.count]
      ensures !result.Committed? ==>
        live == old(live) && archives == old(archives) && compactedCount == old(compactedCount)
    {
      ghost var before := live;
      assert IdsUnique(live) by { ConsistentIds(View()); }
      hide Consistent, Run, Compactable, Chat, Without;
      var batch := ReadBatch(rows, window, cutoff);
      trace := [];
      if batch == [] {
        assert Run(View(), []) == View() by { RunNothing(View()); }
        return NothingEligible, trace;
      }
      result, trace := CompactBatch(rows, window, cutoff, batch, summary);
      RestIsLeft(before, rows, batch);
    }

    /** What follows once something is eligible. */
    method CompactBatch(rows: seq<Message>, window: int, cutoff: int, batch: seq<Message>, summary: SummaryOutcome)
      returns (result: CompactionResult, ghost trace: seq<Step>)
      requires Consistent(View()) && flight.None? && QueryResult(rows, Chat(live))
      requires batch == Compactable(rows, window, cutoff) && batch != []
      modifies this
      ensures View() == Run(old(View()), trace) && Consistent(View()) && flight.None? && history == old(history)
      ensures !result.NothingEligible? && (result.Committed? <==> summary.Summarised?)
      ensures result.Committed? ==>
        && result.count == |batch| && live == Without(old(live), batch)
        && |archives| == |old(archives)| + 1 && archives[|old(archives)|].ref == result.ref
        && result.ref in store && store[result.ref] == batch
      ensures !result.Committed? ==>
        live == old(live) && archives == old(archives) && compactedCount == old(compactedCount)
    {
      ghost var s := View();
      BeginRun(s, rows, window, cutoff);
      hide *;
      flight := Some(Flight(batch, None));
      ghost var first := [BeginCompaction(rows, window, cutoff)];
      ghost var rest;
      result, rest := ArchiveBatch(batch, summary);
      RunConcat(s, first, rest);
      trace := first + rest;
      RunConsistent(s, trace);
    }

    /** The split of the query's rows and the age filter. */
    method ReadBatch(rows: seq<Message>, window: int, cutoff: int) returns (batch: seq<Message>)
      requires SortedByTime(rows)
      ensures batch == Compactable(rows, window, cutoff) && batch <= rows
      ensures forall i :: 0 <= i < |rows| ==>
        (i < |batch| <==> i < Cut(rows, Max(window, 1)) && rows[i].createdAt <= cutoff)
    {
      CompactableIsPrefix(rows, window, cutoff);
      var older, recent := SplitMessagesByTurnWindow(rows, Max(window, 1));
      assert older == rows[..Cut(rows, Max(window, 1))];
      batch := OldEnough(older, cutoff);
    }

    /** Upload, summary, then the transaction or the clean-up. */
    method ArchiveBatch(batch: seq<Message>, summary: SummaryOutcome)
      returns (result: CompactionResult, ghost trace: seq<Step>)
      requires flight == Some(Flight(batch, None)) && batch != []
      modifies this
      ensures View() == Run(old(View()), trace) && flight.None? && history == old(history)
      ensures !result.NothingEligible? && (result.Committed? <==> summary.Summarised?)
      ensures result.Committed? ==>
        && result.count == |batch| && live == Without(old(live), batch)
        && |archives| == |old(archives)| + 1 && archives[|old(archives)|].ref == result.ref
        && result.ref in store && store[result.ref] == batch
      ensures !result.Committed? ==>
        live == old(live) && archives == old(archives) && compactedCount == old(compactedCount)
    {
      ghost var s := View();
      RunSnoc(s, [], Upload);
      assert Run(s, []) == s;
      hide Run, Without, NewId, Compactable, QueryResult, Chat;
      var ref := UploadArchive(batch);
      trace := [] + [Upload];
      match summary
      case Summarised =>
        CommitBatch(batch, ref);
        RunSnoc(s, trace, CommitCompaction);
        trace := trace + [CommitCompaction];
        result := Committed(|batch|, ref);
      case NoSummary(deleted) =>
        DiscardUpload(ref, deleted);
        RunSnoc(s, trace, SummaryFails(deleted));
        trace := trace + [SummaryFails(deleted)];
        result := SummaryGenerationFailed;
      case CrashedBefore =>
        flight := None;
        RunSnoc(s, trace, Crash);
        trace := trace + [Crash];
        result := Interrupted;
    }

    method DiscardUpload(ref: nat, deleted: bool)
      requires flight.Some? && flight.value.ref == Some(ref)
      modifies this`store, this`flight
      ensures View() == Next(old(View()), SummaryFails(deleted)) && flight.None?
    {
      if deleted {
        store := store - {ref};
      }
      flight := None;
    }
  }
}
