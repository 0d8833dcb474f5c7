/** What a compaction changes in the window the agent runtime loads. */
module CompactionVisibility {
  import opened Common
  import opened HistoryWindow
  import opened HistoryCompaction

  /** The live rows after compacting with a given window and age limit what the query returned. */
  function AfterCompaction(live: seq<Message>, rows: seq<Message>, window: int, cutoff: int): seq<Message> {
    Without(live, Compactable(rows, window, cutoff))
  }

  // ---------------------------------------------------------------- removing any batch

  lemma {:induction false} WithoutUsers(ms: seq<Message>, batch: seq<Message>)
    ensures Users(Without(ms, batch)) <= Users(ms)
  {
    if ms != [] {
      WithoutUsers(ms[1..], batch);
      UsersConcat(if ms[0] in batch then [] else [ms[0]], Without(ms[1..], batch));
    }
  }

  /** Whatever precedes it, the loaded window starts at the same message. */
  lemma WindowAfterHead(chat: seq<Message>, loader: nat, head: seq<Message>)
    requires loader > 0
    requires Users(head) <= Users(chat[..WindowStart(chat, loader)])
    requires |head| <= WindowStart(chat, loader)
    ensures WindowStart(head + chat[WindowStart(chat, loader)..], loader) == |head|
  {
    var a := WindowStart(chat, loader);
    var kept := chat[a..];
    var rest := head + kept;
    UsersSplit(chat, a);
    UsersConcat(head, kept);
    if Users(chat) > 0 {
      var turns := Min(loader, Users(chat));
      assert rest[|head|..] == kept && rest[|head|] == chat[a];
      assert StartsTurn(rest, turns, |head|);
      TurnStartUnique(rest, turns, |head|, WindowStart(rest, loader));
    }
  }

  /** What is left when nothing is taken from the window: some head, and the window. */
  lemma LeftOfHead(chat: seq<Message>, batch: seq<Message>, loader: nat)
    requires loader > 0 && forall m :: m in chat[WindowStart(chat, loader)..] ==> m !in batch
    ensures var rest := Without(chat, batch);
      rest[WindowStart(rest, loader)..] == chat[WindowStart(chat, loader)..]
  {
    var notIn := (m: Message) => m !in batch;
    var a := WindowStart(chat, loader);
    hide WindowStart;
    assert chat[..a] + chat[a..] == chat;
    FilterConcat(notIn, chat[..a], chat[a..]);
    FilterAll(notIn, chat[a..]);
    var head := Without(chat[..a], batch);
    WithoutUsers(chat[..a], batch);
    FilterShorter(notIn, chat[..a]);
    WindowAfterHead(chat, loader, head);
    assert Without(chat, batch) == head + chat[a..];
  }

  /** The two have no message in common. */
  ghost predicate Apart(a: seq<Message>, b: seq<Message>) {
    forall m :: m in a ==> m !in b
  }

  /** Removing rows leaves the loaded window unchanged exactly when none of them is in it. */
  lemma DropInvisibleIff(live: seq<Message>, batch: seq<Message>, loader: nat)
    requires Sorted(live) && loader > 0
    ensures RuntimeWindow(Without(live, batch), loader) == RuntimeWindow(live, loader) <==>
            Apart(RuntimeWindow(live, loader), batch)
  {
    var notIn := (m: Message) => m !in batch;
    var chat := Chat(live);
    var rest := Without(chat, batch);
    ChatWithout(live, batch);
    FilterSorted(notIn, live);
    RuntimeWindowIsSuffix(live, loader);
    RuntimeWindowIsSuffix(Without(live, batch), loader);
    hide RuntimeWindow, Chat, WindowStart, Sorted;
    var a, b := WindowStart(chat, loader), WindowStart(rest, loader);
    assert forall m :: m in rest[b..] ==> m in rest;
    assert forall m :: m in rest ==> m !in batch;
    if forall m :: m in chat[a..] ==> m !in batch {
      LeftOfHead(chat, batch, loader);
    }
  }

  lemma {:induction false} FilterShorter(keep: Message -> bool, ms: seq<Message>)
    ensures |Filter(keep, ms)| <= |ms|
  {
    if ms != [] {
      FilterShorter(keep, ms[1..]);
    }
  }

  // ---------------------------------------------------------------- when the query breaks ties as the loader does

  lemma ChatSorted(live: seq<Message>)
    requires Sorted(live)
    ensures Sorted(Chat(live)) && SortedByTime(Chat(live))
  {
    FilterSorted(IsChat, live);
  }

  /** A prefix of a sorted list meets one of its suffixes exactly when it is longer than what precedes that. */
  lemma PrefixMeetsSuffix(chat: seq<Message>, n: nat, a: nat)
    requires Sorted(chat) && n <= |chat| && a <= |chat|
    ensures Apart(chat[a..], chat[..n]) <==> n <= a
  {
    if n > a {
      assert chat[a..][0] == chat[a] && chat[..n][a] == chat[a];
      assert chat[a] in chat[a..];
    } else {
      forall m | m in chat[a..]
        ensures m !in chat[..n]
      {
        var j :| 0 <= j < |chat| - a && chat[a..][j] == m;
        assert chat[a + j] == m;
        forall i | 0 <= i < n
          ensures chat[..n][i] != m
        {
          assert Before(chat[i], chat[a + j]);
        }
      }
    }
  }

  lemma {:induction false} CutAgainstWindow(chat: seq<Message>, w: nat, loader: nat)
    requires w > 0 && loader > 0 && Users(chat) > w
    ensures Cut(chat, w) <= WindowStart(chat, loader) <==> w >= loader
  {
    var a, c := WindowStart(chat, loader), Cut(chat, w);
    var turns := Min(loader, Users(chat));
    if a < c {
      UsersFromLater(chat, a, c);
    } else if c < a {
      UsersFromLater(chat, c, a);
    }
  }

  /**
   When the query happens to break ties as the loader does, compacting with window turns leaves what the runtime
   loads with loader turns unchanged exactly when one of three things holds: the compaction window is at least the
   loader's, there are no more turns than the compaction window, or the oldest message loaded is younger than the
   age limit.
   */
  lemma CompactionInvisibleIff(live: seq<Message>, window: int, cutoff: int, loader: nat)
    requires Sorted(live) && loader > 0
    ensures var chat := Chat(live);
      RuntimeWindow(AfterCompaction(live, chat, window, cutoff), loader) == RuntimeWindow(live, loader) <==>
        (|| Max(window, 1) >= loader
         || Users(chat) <= Max(window, 1)
         || chat[WindowStart(chat, loader)].createdAt > cutoff)
  {
    var chat := Chat(live);
    var batch := Compactable(chat, window, cutoff);
    assert AfterCompaction(live, chat, window, cutoff) == Without(live, batch);
    hide *;
    ChatSorted(live);
    DropInvisibleIff(live, batch, loader);
    RuntimeWindowIsSuffix(live, loader);
    HeadReachesWindowIff(chat, window, cutoff, loader);
    BatchMeetsWindow(chat, window, cutoff, WindowStart(chat, loader));
  }

  lemma BatchMeetsWindow(chat: seq<Message>, window: int, cutoff: int, a: nat)
    requires Sorted(chat) && SortedByTime(chat) && a <= |chat|
    ensures Apart(chat[a..], Compactable(chat, window, cutoff)) <==> |Compactable(chat, window, cutoff)| <= a
  {
    hide *;
    var batch := Compactable(chat, window, cutoff);
    CompactableIsPrefix(chat, window, cutoff);
    assert batch == chat[..|batch|];
    PrefixMeetsSuffix(chat, |batch|, a);
  }

  /** How far the compacted head reaches. */
  lemma HeadReachesWindowIff(chat: seq<Message>, window: int, cutoff: int, loader: nat)
    requires Sorted(chat) && SortedByTime(chat) && loader > 0
    ensures |Compactable(chat, window, cutoff)| <= WindowStart(chat, loader) <==>
      (|| Max(window, 1) >= loader
       || Users(chat) <= Max(window, 1)
       || chat[WindowStart(chat, loader)].createdAt > cutoff)
  {
    CompactableIsPrefix(chat, window, cutoff);
    hide Compactable, Sorted;
    if Users(chat) > Max(window, 1) {
      CutAgainstWindow(chat, Max(window, 1), loader);
      hide WindowStart, Cut;
    }
  }

  /** Archiving compacts with ten turns whatever the loader's window is, and so can be seen. */
  lemma ArchivingCanShow(live: seq<Message>, cutoff: int, loader: nat)
    requires Sorted(live) && loader > 10 && Users(Chat(live)) > 10
    ensures RuntimeWindow(AfterCompaction(live, Chat(live), 10, cutoff), loader) == RuntimeWindow(live, loader) <==>
      Chat(live)[WindowStart(Chat(live), loader)].createdAt > cutoff
  {
    CompactionInvisibleIff(live, 10, cutoff, loader);
  }

  // ---------------------------------------------------------------- whatever way the query breaks ties

  function LateUser(t: int): Message -> bool {
    (m: Message) => IsUser(m) && m.createdAt >= t
  }

  /** Among messages all at or after a time the late users are the users. */
  lemma LateUsersAreUsers(ms: seq<Message>, t: int)
    requires forall m :: m in ms ==> m.createdAt >= t
    ensures |Filter(LateUser(t), ms)| == Users(ms)
  {
    FilterAgrees(LateUser(t), IsUser, ms);
    UsersAreFiltered(ms);
  }

  lemma UsersPermuted(rows: seq<Message>, ms: seq<Message>)
    requires multiset(rows) == multiset(ms)
    ensures Users(rows) == Users(ms)
  {
    UsersAreFiltered(rows);
    UsersAreFiltered(ms);
    FilterPermuted(IsUser, rows, ms);
  }

  /** Cutting where only late messages follow splits off just the users there. */
  lemma LateUsersSplit(rows: seq<Message>, c: nat, t: int)
    requires c <= |rows| && forall j :: c <= j < |rows| ==> rows[j].createdAt >= t
    ensures |Filter(LateUser(t), rows)| == |Filter(LateUser(t), rows[..c])| + Users(rows[c..])
  {
    hide LateUser;
    assert rows == rows[..c] + rows[c..];
    FilterConcat(LateUser(t), rows[..c], rows[c..]);
    forall m | m in rows[c..]
      ensures m.createdAt >= t
    {
      var j :| 0 <= j < |rows| - c && rows[c..][j] == m;
      assert rows[c + j] == m;
    }
    LateUsersAreUsers(rows[c..], t);
  }

  lemma LateUsersKept(rows: seq<Message>, c: nat, t: int)
    requires c <= |rows|
    ensures forall l :: 0 <= l < c && LateUser(t)(rows[l]) ==> rows[l] in Filter(LateUser(t), rows[..c])
  {
    forall l | 0 <= l < c && LateUser(t)(rows[l])
      ensures rows[l] in Filter(LateUser(t), rows[..c])
    {
      assert rows[..c][l] == rows[l];
    }
  }

  /** Some message loaded has the time of the oldest one loaded and is not a user's. */
  predicate OtherTied(chat: seq<Message>, a: nat)
    requires a < |chat|
  {
    exists i :: a <= i < |chat| && chat[i].createdAt == chat[a].createdAt && !IsUser(chat[i])
  }

  /**
   The most turns that can follow a message loaded, in any order the query may return: all user messages that are
   not before the oldest one loaded, without that message itself.
   */
  function TurnsBehind(chat: seq<Message>, a: nat): int
    requires a < |chat|
  {
    |Filter(LateUser(chat[a].createdAt), chat)| - if OtherTied(chat, a) then 0 else 1
  }

  /** No order puts more turns behind a message loaded. */
  lemma BehindAtMost(chat: seq<Message>, rows: seq<Message>, a: nat, i: nat, k: nat)
    requires SortedByTime(chat) && QueryResult(rows, chat) && a <= i < |chat|
    requires k < |rows| && rows[k] == chat[i]
    ensures Users(rows[k + 1..]) <= TurnsBehind(chat, a)
  {
    var t := chat[a].createdAt;
    assert forall j :: k <= j < |rows| ==> rows[j].createdAt >= rows[k].createdAt >= t;
    FilterPermuted(LateUser(t), rows, chat);
    LateUsersSplit(rows, k + 1, t);
    LateUsersKept(rows, k + 1, t);
    hide Filter, Users, QueryResult;
    if !OtherTied(chat, a) {
      var l := LateUserNotAfter(chat, rows, a, i, k);
      assert rows[l] in Filter(LateUser(t), rows[..k + 1]);
    }
  }

  /** Unless the message is tied, it or the oldest one loaded is a late user up to its place. */
  lemma LateUserNotAfter(chat: seq<Message>, rows: seq<Message>, a: nat, i: nat, k: nat) returns (l: nat)
    requires SortedByTime(chat) && QueryResult(rows, chat) && a <= i < |chat| && !OtherTied(chat, a)
    requires k < |rows| && rows[k] == chat[i]
    ensures l <= k && LateUser(chat[a].createdAt)(rows[l])
  {
    if IsUser(chat[i]) {
      l := k;
    } else {
      assert IsUser(chat[a]) && chat[i].createdAt > chat[a].createdAt;
      assert chat[a] in multiset(chat) && chat[a] in rows;
      l :| 0 <= l < |rows| && rows[l] == chat[a];
    }
  }

  /** The list with one element moved forward. */
  function MoveBack(ms: seq<Message>, from: nat, to: nat): seq<Message>
    requires to <= from < |ms|
  {
    ms[..to] + [ms[from]] + ms[to..from] + ms[from + 1..]
  }

  lemma MoveBackIsResult(ms: seq<Message>, from: nat, to: nat)
    requires SortedByTime(ms) && to <= from < |ms| && ms[to].createdAt == ms[from].createdAt
    ensures QueryResult(MoveBack(ms, from, to), ms)
  {
    var rows := MoveBack(ms, from, to);
    assert ms == ms[..to] + ms[to..from] + [ms[from]] + ms[from + 1..];
    forall i, j | 0 <= i < j < |rows|
      ensures rows[i].createdAt <= rows[j].createdAt
    {
      var i' := if i < to then i else if i == to then from else if i <= from then i - 1 else i;
      var j' := if j < to then j else if j == to then from else if j <= from then j - 1 else j;
      assert rows[i] == ms[i'] && rows[j] == ms[j'];
    }
  }

  /** A row with at least w users after it lies before the cut. */
  lemma BeforeCut(rows: seq<Message>, p: nat, w: nat)
    requires p < |rows| && w > 0 && Users(rows) > w && Users(rows[p + 1..]) >= w
    ensures p < Cut(rows, w)
  {
    var c := Cut(rows, w);
    if c <= p {
      UsersFromLater(rows, c, p + 1);
    }
  }

  /** A message moved forward with enough users behind it is compacted. */
  lemma MovedIsCompacted(chat: seq<Message>, window: int, cutoff: int, from: nat, to: nat)
    requires SortedByTime(chat) && Users(chat) > Max(window, 1) && to <= from < |chat|
    requires chat[to].createdAt == chat[from].createdAt <= cutoff
    requires Users(MoveBack(chat, from, to)[to + 1..]) >= Max(window, 1)
    ensures QueryResult(MoveBack(chat, from, to), chat)
    ensures chat[from] in Compactable(MoveBack(chat, from, to), window, cutoff)
  {
    var rows := MoveBack(chat, from, to);
    MoveBackIsResult(chat, from, to);
    UsersPermuted(rows, chat);
    BeforeCut(rows, to, Max(window, 1));
    CompactableIsPrefix(rows, window, cutoff);
    hide Compactable, Cut, Users;
    assert rows[to] == chat[from];
    assert Compactable(rows, window, cutoff)[to] == chat[from];
  }

  /** Where the messages with the time of the oldest one loaded begin. */
  lemma FirstOfTime(chat: seq<Message>, a: nat) returns (to: nat)
    requires SortedByTime(chat) && a < |chat|
    ensures to <= a && chat[to].createdAt == chat[a].createdAt
    ensures forall j :: 0 <= j < to ==> chat[j].createdAt < chat[a].createdAt
  {
    to := a;
    while to > 0 && chat[to - 1].createdAt == chat[a].createdAt
      invariant to <= a && chat[to].createdAt == chat[a].createdAt
    {
      to := to - 1;
    }
  }

  /** And some order puts as many behind one of that time. */
  lemma BehindAttained(chat: seq<Message>, a: nat) returns (from: nat, to: nat)
    requires SortedByTime(chat) && a < |chat|
    ensures to <= a <= from < |chat| && chat[to].createdAt == chat[from].createdAt == chat[a].createdAt
    ensures Users(MoveBack(chat, from, to)[to + 1..]) == TurnsBehind(chat, a)
  {
    var t := chat[a].createdAt;
    from := a;
    to := FirstOfTime(chat, a);
    if OtherTied(chat, a) {
      from :| a <= from < |chat| && chat[from].createdAt == t && !IsUser(chat[from]);
    }
    BehindMoved(chat, from, to);
    assert IsUser(chat[from]) <==> !OtherTied(chat, a);
    hide OtherTied, MoveBack, Users, Filter;
  }

  /** Behind a message moved to the front of its time come all other users from that time on. */
  lemma BehindMoved(chat: seq<Message>, from: nat, to: nat)
    requires SortedByTime(chat) && to <= from < |chat| && chat[to].createdAt == chat[from].createdAt
    requires forall j :: 0 <= j < to ==> chat[j].createdAt < chat[from].createdAt
    ensures Users(MoveBack(chat, from, to)[to + 1..]) ==
            |Filter(LateUser(chat[from].createdAt), chat)| - if IsUser(chat[from]) then 1 else 0
  {
    var t := chat[from].createdAt;
    var rows := MoveBack(chat, from, to);
    MoveBackIsResult(chat, from, to);
    MovedTo(chat, from, to);
    FilterPermuted(LateUser(t), rows, chat);
    LateHead(chat, to, chat[from], t);
    assert forall j :: to < j < |rows| ==> rows[j].createdAt >= rows[to].createdAt;
    hide MoveBack, Users, Filter, QueryResult, SortedByTime, LateUser;
    LateUsersSplit(rows, to + 1, t);
  }

  lemma MovedTo(ms: seq<Message>, from: nat, to: nat)
    requires to <= from < |ms|
    ensures MoveBack(ms, from, to)[to] == ms[from] && MoveBack(ms, from, to)[..to + 1] == ms[..to] + [ms[from]]
  {
  }

  lemma LateHead(chat: seq<Message>, to: nat, m: Message, t: int)
    requires to <= |chat| && m.createdAt == t && forall j :: 0 <= j < to ==> chat[j].createdAt < t
    ensures |Filter(LateUser(t), chat[..to] + [m])| == if IsUser(m) then 1 else 0
  {
    FilterConcat(LateUser(t), chat[..to], [m]);
    FilterNone(LateUser(t), chat[..to]);
  }

  /** Compaction with a window never shows to a loader with another, whatever order the query returns. */
  ghost predicate NeverShows(live: seq<Message>, window: int, cutoff: int, loader: nat) {
    forall rows :: QueryResult(rows, Chat(live)) ==>
      RuntimeWindow(AfterCompaction(live, rows, window, cutoff), loader) == RuntimeWindow(live, loader)
  }

  /**
   Main result, for any two windows and every order of ties the query may return. Compaction never shows exactly when
   there are no more turns than its window, or the oldest message loaded is too young, or fewer turns than its window
   can follow a message loaded.
   */
  lemma InvisibleIff(live: seq<Message>, window: int, cutoff: int, loader: nat)
    requires Sorted(live) && loader > 0
    ensures var chat := Chat(live);
      var w := Max(window, 1);
      NeverShows(live, window, cutoff, loader) <==>
        (|| Users(chat) <= w
         || chat[WindowStart(chat, loader)].createdAt > cutoff
         || TurnsBehind(chat, WindowStart(chat, loader)) < w)
  {
    var chat := Chat(live);
    var w := Max(window, 1);
    ChatSorted(live);
    RuntimeWindowIsSuffix(live, loader);
    hide RuntimeWindow, Chat, Without, Compactable, TurnsBehind, QueryResult, SortedByTime;
    if Users(chat) <= w {
      FewTurnsHide(live, window, cutoff, loader);
    } else {
      var a := WindowStart(chat, loader);
      if chat[a].createdAt > cutoff || TurnsBehind(chat, a) < w {
        forall rows | QueryResult(rows, chat)
          ensures RuntimeWindow(AfterCompaction(live, rows, window, cutoff), loader) == RuntimeWindow(live, loader)
        {
          HiddenFrom(live, rows, window, cutoff, loader, a);
        }
      } else {
        var rows, m := EnoughBehindShows(chat, window, cutoff, a);
        DropInvisibleIff(live, Compactable(rows, window, cutoff), loader);
        assert m in RuntimeWindow(live, loader);
      }
    }
  }

  lemma EnoughBehindShows(chat: seq<Message>, window: int, cutoff: int, a: nat)
    returns (rows: seq<Message>, m: Message)
    requires SortedByTime(chat) && Users(chat) > Max(window, 1) && a < |chat|
    requires TurnsBehind(chat, a) >= Max(window, 1) && chat[a].createdAt <= cutoff
    ensures QueryResult(rows, chat) && m in chat[a..] && m in Compactable(rows, window, cutoff)
  {
    hide Compactable, QueryResult, MoveBack, TurnsBehind;
    var from, to := BehindAttained(chat, a);
    rows := MoveBack(chat, from, to);
    m := chat[from];
    MovedIsCompacted(chat, window, cutoff, from, to);
    assert chat[a..][from - a] == m;
  }

  lemma FewTurnsHide(live: seq<Message>, window: int, cutoff: int, loader: nat)
    requires Sorted(live) && loader > 0 && Users(Chat(live)) <= Max(window, 1)
    ensures NeverShows(live, window, cutoff, loader)
  {
    forall rows | QueryResult(rows, Chat(live))
      ensures RuntimeWindow(AfterCompaction(live, rows, window, cutoff), loader) == RuntimeWindow(live, loader)
    {
      UsersPermuted(rows, Chat(live));
      CompactableIsPrefix(rows, window, cutoff);
      hide RuntimeWindow, Chat, Without;
      DropInvisibleIff(live, Compactable(rows, window, cutoff), loader);
    }
  }

  lemma HiddenFrom(live: seq<Message>, rows: seq<Message>, window: int, cutoff: int, loader: nat, a: nat)
    requires Sorted(live) && loader > 0 && QueryResult(rows, Chat(live)) && Users(Chat(live)) > Max(window, 1)
    requires a == WindowStart(Chat(live), loader) && a < |Chat(live)|
    requires Chat(live)[a].createdAt > cutoff || TurnsBehind(Chat(live), a) < Max(window, 1)
    ensures RuntimeWindow(AfterCompaction(live, rows, window, cutoff), loader) == RuntimeWindow(live, loader)
  {
    var chat := Chat(live);
    ChatSorted(live);
    RuntimeWindowIsSuffix(live, loader);
    DropInvisibleIff(live, Compactable(rows, window, cutoff), loader);
    hide RuntimeWindow, Chat, Without, Compactable, WindowStart, TurnsBehind;
    forall m | m in chat[a..]
      ensures m !in Compactable(rows, window, cutoff)
    {
      LoadedNotCompacted(chat, rows, window, cutoff, a, m);
    }
  }

  lemma LoadedNotCompacted(chat: seq<Message>, rows: seq<Message>, window: int, cutoff: int, a: nat, m: Message)
    requires SortedByTime(chat) && QueryResult(rows, chat) && Users(chat) > Max(window, 1) && a < |chat|
    requires m in chat[a..] && (chat[a].createdAt > cutoff || TurnsBehind(chat, a) < Max(window, 1))
    ensures m !in Compactable(rows, window, cutoff)
  {
    var w := Max(window, 1);
    var i :| 0 <= i < |chat| - a && chat[a..][i] == m;
    assert chat[a + i] == m && chat[a].createdAt <= m.createdAt && w > 0;
    assert multiset(rows) == multiset(chat) && SortedByTime(rows);
    hide *;
    CompactableIsPrefix(rows, window, cutoff);
    UsersPermuted(rows, chat);
    var batch := Compactable(rows, window, cutoff);
    forall k | 0 <= k < |batch|
      ensures batch[k] != m
    {
      assert batch[k] == rows[k] && rows[k].createdAt <= cutoff;
      if rows[k] == m {
        BehindAtMost(chat, rows, a, a + i, k);
        BehindCut(rows, k, w);
      }
    }
  }

  /** A row before the cut has all the turns of the window behind it. */
  lemma BehindCut(rows: seq<Message>, k: nat, w: nat)
    requires w > 0 && Users(rows) > w && k < Cut(rows, w)
    ensures Users(rows[k + 1..]) >= w
  {
    UsersFromEarlier(rows, k + 1, Cut(rows, w));
  }

  // ---------------------------------------------------------------- the scheduled compaction

  /**
   No tie reaches across the start of the window: no user message before it has its time, and no assistant message
   after it has.
   */
  predicate CleanStart(chat: seq<Message>, a: nat)
    requires a < |chat|
  {
    && (forall i :: 0 <= i < a && chat[i].createdAt == chat[a].createdAt ==> !IsUser(chat[i]))
    && (forall i :: a < i < |chat| && chat[i].createdAt == chat[a].createdAt ==> IsUser(chat[i]))
  }

  /** Fewer turns than the window has can follow a message loaded exactly when the start is clean. */
  lemma CleanStartIff(chat: seq<Message>, w: nat, a: nat)
    requires SortedByTime(chat) && w > 0 && StartsTurn(chat, w, a)
    ensures TurnsBehind(chat, a) < w <==> CleanStart(chat, a)
  {
    var t := chat[a].createdAt;
    LateUsersSplit(chat, a, t);
    LateUsersKept(chat, a, t);
    var early := Filter(LateUser(t), chat[..a]);
    assert OtherTied(chat, a) <==>
           !forall i :: a < i < |chat| && chat[i].createdAt == chat[a].createdAt ==> IsUser(chat[i]);
    if early != [] {
      assert early[0] in chat[..a];
      var i :| 0 <= i < a && chat[..a][i] == early[0];
      assert chat[i].createdAt == t && IsUser(chat[i]);
    }
  }

  /**
   The scheduled compaction uses the loader's own window. It never shows exactly when there are no more turns than
   that, the oldest message loaded is too young, or no tie reaches across the start of what is loaded.
   */
  lemma ScheduledInvisibleIff(live: seq<Message>, cutoff: int, window: nat)
    requires Sorted(live) && window > 0
    ensures var chat := Chat(live);
      NeverShows(live, window, cutoff, window) <==>
        (|| Users(chat) <= window
         || chat[WindowStart(chat, window)].createdAt > cutoff
         || CleanStart(chat, WindowStart(chat, window)))
  {
    var chat := Chat(live);
    ChatSorted(live);
    InvisibleIff(live, window, cutoff, window);
    hide NeverShows, Chat, CleanStart, TurnsBehind;
    if Users(chat) > window {
      CleanStartIff(chat, window, WindowStart(chat, window));
    }
  }

  /** In particular it never shows when no two messages have equal times. */
  lemma ScheduledCompactionInvisible(live: seq<Message>, cutoff: int, window: nat)
    requires Sorted(live) && StrictTimes(Chat(live)) && window > 0
    ensures NeverShows(live, window, cutoff, window)
  {
    ScheduledInvisibleIff(live, cutoff, window);
    hide RuntimeWindow, Without, Compactable;
  }
}
