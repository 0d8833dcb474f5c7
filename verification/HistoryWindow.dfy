/**
 The live messages of one conversation as the queries see them: the turn-window split, the
 window the agent runtime loads, and the pages a client scrolls through.
 */
module HistoryWindow {
  import opened Common

  datatype Role = User | Assistant | Other

  datatype Message = Message(id: nat, role: Role, createdAt: int, content: string)

  predicate IsUser(m: Message) { m.role.User? }

  predicate IsChat(m: Message) { m.role.User? || m.role.Assistant? }

  /** The order of the window and page queries: by time, then by identifier. */
  predicate Before(a: Message, b: Message) {
    a.createdAt < b.createdAt || (a.createdAt == b.createdAt && a.id < b.id)
  }

  /** Of two messages the earlier comes first, and at the same time the one with the smaller identifier. */
  lemma BeforeTotal(a: Message, b: Message)
    ensures a.createdAt < b.createdAt ==> Before(a, b) && !Before(b, a)
    ensures a.createdAt == b.createdAt && a.id < b.id ==> Before(a, b) && !Before(b, a)
    ensures a.createdAt == b.createdAt && a.id == b.id ==> !Before(a, b)
  {
  }

  ghost predicate Sorted(ms: seq<Message>) {
    forall i, j :: 0 <= i < j < |ms| ==> Before(ms[i], ms[j])
  }

  ghost predicate StrictTimes(ms: seq<Message>) {
    forall i, j :: 0 <= i < j < |ms| ==> ms[i].createdAt < ms[j].createdAt
  }

  function Chat(ms: seq<Message>): seq<Message> {
    Filter(IsChat, ms)
  }

  function Users(ms: seq<Message>): nat {
    if ms == [] then 0 else (if ms[0].role == User then 1 else 0) + Users(ms[1..])
  }

  lemma UsersConcat(a: seq<Message>, b: seq<Message>)
    ensures Users(a + b) == Users(a) + Users(b)
  {
    if a == [] {
      assert a + b == b;
    } else {
      assert (a + b)[1..] == a[1..] + b;
      UsersConcat(a[1..], b);
    }
  }

  lemma UsersSplit(ms: seq<Message>, k: nat)
    requires k <= |ms|
    ensures Users(ms) == Users(ms[..k]) + Users(ms[k..])
  {
    UsersConcat(ms[..k], ms[k..]);
    assert ms[..k] + ms[k..] == ms;
  }

  // ---------------------------------------------------------------- turns

  /** k is where the n-th last turn starts: at a user message with n user messages from there on. */
  ghost predicate StartsTurn(ms: seq<Message>, n: nat, k: nat) {
    k < |ms| && IsUser(ms[k]) && Users(ms[k..]) == n
  }

  lemma TurnStartUnique(ms: seq<Message>, n: nat, k: nat, l: nat)
    requires StartsTurn(ms, n, k) && StartsTurn(ms, n, l)
    ensures k == l
  {
    if k < l {
      UsersFromLater(ms, k, l);
    } else if l < k {
      UsersFromLater(ms, l, k);
    }
  }

  lemma UsersFromLater(ms: seq<Message>, k: nat, l: nat)
    requires k < l <= |ms| && IsUser(ms[k])
    ensures Users(ms[l..]) < Users(ms[k..])
  {
    UsersSplit(ms[k..], l - k);
    assert ms[k..][l - k..] == ms[l..];
    assert ms[k..][..l - k][0] == ms[k];
  }

  function TurnStart(ms: seq<Message>, n: nat): (k: nat)
    requires 1 <= n <= Users(ms)
    ensures StartsTurn(ms, n, k)
  {
    if IsUser(ms[0]) && Users(ms) == n then
      assert ms[0..] == ms;
      0
    else
      var k := TurnStart(ms[1..], n);
      assert ms[1..][k..] == ms[k + 1..];
      k + 1
  }

  /** Where the split cuts: everything is recent unless there are more turns than the window holds. */
  function Cut(ms: seq<Message>, window: nat): (k: nat)
    ensures k <= |ms|
  {
    if Users(ms) <= window then 0
    else if window == 0 then |ms|
    else TurnStart(ms, window)
  }

  /** Each message's turn is the number of user messages up to and including it. */
  method NumberTurns(messages: seq<Message>) returns (turnIndexes: seq<nat>, currentTurn: nat)
    ensures |turnIndexes| == |messages| && currentTurn == Users(messages)
    ensures forall j :: 0 <= j < |messages| ==> turnIndexes[j] == Users(messages[..j + 1])
  {
    currentTurn, turnIndexes := 0, [];
    for i := 0 to |messages|
      invariant |turnIndexes| == i && currentTurn == Users(messages[..i])
      invariant forall j :: 0 <= j < i ==> turnIndexes[j] == Users(messages[..j + 1])
    {
      UsersConcat(messages[..i], [messages[i]]);
      assert messages[..i] + [messages[i]] == messages[..i + 1];
      if IsUser(messages[i]) {
        currentTurn := currentTurn + 1;
      }
      turnIndexes := turnIndexes + [currentTurn];
    }
    assert messages[..|messages|] == messages;
  }

  /** _split_messages_by_turn_window: numbers the turns, then deals the messages out. */
  method SplitMessagesByTurnWindow(messages: seq<Message>, turnWindow: nat)
    returns (older: seq<Message>, recent: seq<Message>)
    ensures older + recent == messages && |older| == Cut(messages, turnWindow)
    ensures Users(messages) <= turnWindow ==> older == []
    ensures Users(messages) > turnWindow ==>
      Users(recent) == turnWindow && (turnWindow > 0 ==> recent != [] && IsUser(recent[0]))
  {
    if messages == [] {
      return [], [];
    }
    var turnIndexes, currentTurn := NumberTurns(messages);
    if currentTurn <= turnWindow {
      return [], messages;
    }
    var cutoffTurn := Max(currentTurn - turnWindow, 0);
    ghost var cut := Cut(messages, turnWindow);
    older, recent := [], [];
    for i := 0 to |messages|
      invariant older + recent == messages[..i]
      invariant |older| == Min(i, cut)
    {
      SplitSide(messages, turnWindow, i);
      assert messages[..i + 1] == messages[..i] + [messages[i]];
      if turnIndexes[i] <= cutoffTurn {
        assert recent == [];
        older := older + [messages[i]];
      } else {
        recent := recent + [messages[i]];
      }
    }
    assert messages[..|messages|] == messages;
    assert recent == messages[cut..];
  }

  /** A message is in the older half exactly when its turn number is at most the cutoff turn. */
  lemma {:induction false} SplitSide(ms: seq<Message>, window: nat, i: nat)
    requires i < |ms| && Users(ms) > window
    ensures Users(ms[..i + 1]) <= Users(ms) - window <==> i < Cut(ms, window)
  {
    UsersSplit(ms, i + 1);
    if window > 0 {
      var k := Cut(ms, window);
      if k <= i {
        UsersFromLater(ms, k, i + 1);
      } else {
        UsersFromEarlier(ms, i + 1, k);
      }
    }
  }

  lemma UsersFromEarlier(ms: seq<Message>, j: nat, k: nat)
    requires j <= k <= |ms|
    ensures Users(ms[k..]) <= Users(ms[j..])
  {
    UsersSplit(ms[j..], k - j);
    assert ms[j..][k - j..] == ms[k..];
  }

  // ---------------------------------------------------------------- the runtime window

  function LastN(ms: seq<Message>, n: nat): seq<Message> {
    if |ms| <= n then ms else ms[|ms| - n..]
  }

  /** The recent_messages of load_runtime_window, from rows in query order. */
  function RuntimeWindow(live: seq<Message>, window: nat): seq<Message> {
    var anchors := LastN(Filter(IsUser, live), window);
    if anchors != [] then
      From(Chat(live), anchors[0])
    else
      LastN(Chat(live), window)
  }

  lemma FilterSorted(keep: Message -> bool, ms: seq<Message>)
    requires Sorted(ms)
    ensures Sorted(Filter(keep, ms))
  {
    if ms != [] {
      FilterSorted(keep, ms[1..]);
      forall j | 0 < j < |Filter(keep, ms)| && keep(ms[0])
        ensures Before(ms[0], Filter(keep, ms)[j])
      {
        assert Filter(keep, ms)[j] == Filter(keep, ms[1..])[j - 1];
        assert Filter(keep, ms[1..])[j - 1] in ms[1..];
      }
    }
  }

  function From(ms: seq<Message>, oldest: Message): seq<Message> {
    Filter((m: Message) => !Before(m, oldest), ms)
  }

  function EarlierThan(ms: seq<Message>, cursor: Message): seq<Message> {
    Filter((m: Message) => Before(m, cursor), ms)
  }

  /** Filtering a sorted list from one of its elements on is taking a suffix. */
  lemma {:induction false} FilterFrom(ms: seq<Message>, k: nat)
    requires Sorted(ms) && k < |ms|
    ensures From(ms, ms[k]) == ms[k..]
  {
    var keep := (m: Message) => !Before(m, ms[k]);
    if k == 0 {
      forall m | m in ms ensures keep(m) {
        var i :| 0 <= i < |ms| && ms[i] == m;
      }
      FilterAll(keep, ms);
    } else {
      assert !keep(ms[0]);
      FilterFrom(ms[1..], k - 1);
      assert ms[1..][k - 1..] == ms[k..];
    }
  }

  lemma {:induction false} FilterBefore(ms: seq<Message>, k: nat)
    requires Sorted(ms) && k < |ms|
    ensures EarlierThan(ms, ms[k]) == ms[..k]
  {
    var keep := (m: Message) => Before(m, ms[k]);
    if k == 0 {
      forall m | m in ms ensures !keep(m) {
        var i :| 0 <= i < |ms| && ms[i] == m;
      }
      FilterNone(keep, ms);
    } else {
      assert keep(ms[0]);
      FilterBefore(ms[1..], k - 1);
      assert [ms[0]] + ms[1..][..k - 1] == ms[..k];
    }
  }

  lemma {:induction false} UsersAreFiltered(ms: seq<Message>)
    ensures |Filter(IsUser, ms)| == Users(ms)
    ensures Filter(IsUser, Chat(ms)) == Filter(IsUser, ms)
  {
    if ms != [] {
      UsersAreFiltered(ms[1..]);
    }
    FilterTwice(IsChat, IsUser, IsUser, ms);
  }

  /** The n-th last user message is where the n-th last turn starts. */
  lemma NthLastUser(ms: seq<Message>, n: nat)
    requires 1 <= n <= Users(ms)
    ensures |Filter(IsUser, ms)| == Users(ms)
    ensures Filter(IsUser, ms)[Users(ms) - n] == ms[TurnStart(ms, n)]
  {
    UsersAreFiltered(ms);
    var k := TurnStart(ms, n);
    assert ms[..k] + ms[k..] == ms;
    FilterConcat(IsUser, ms[..k], ms[k..]);
    UsersConcat(ms[..k], ms[k..]);
    UsersAreFiltered(ms[..k]);
  }

  /** What the loader returns, read off the chat messages alone. */
  function WindowStart(chat: seq<Message>, window: nat): (k: nat)
    requires window > 0
    ensures k <= |chat|
  {
    if Users(chat) == 0 then Max(|chat| - window, 0) else TurnStart(chat, Min(window, Users(chat)))
  }

  lemma RuntimeWindowIsSuffix(live: seq<Message>, window: nat)
    requires Sorted(live) && window > 0
    ensures RuntimeWindow(live, window) == Chat(live)[WindowStart(Chat(live), window)..]
  {
    var chat := Chat(live);
    UsersAreFiltered(live);
    UsersAreFiltered(chat);
    FilterSorted(IsChat, live);
    if Users(chat) > 0 {
      var n := Min(window, Users(chat));
      var k := TurnStart(chat, n);
      NthLastUser(chat, n);
      hide Filter, Users, TurnStart, Sorted, From, Chat, IsUser, IsChat;
      var oldest := LastN(Filter(IsUser, live), window)[0];
      assert oldest == chat[k];
      FilterFrom(chat, k);
    }
  }

  /** With more user turns than the window, the loader returns the recent half of the split. */
  lemma WindowIsRecentHalf(live: seq<Message>, window: nat)
    requires Sorted(live) && window > 0 && Users(Chat(live)) > window
    ensures RuntimeWindow(live, window) == Chat(live)[Cut(Chat(live), window)..]
  {
    RuntimeWindowIsSuffix(live, window);
  }

  // ---------------------------------------------------------------- pages

  function Reverse(ms: seq<Message>): (r: seq<Message>)
    ensures |r| == |ms|
  {
    seq(|ms|, i requires 0 <= i < |ms| => ms[|ms| - 1 - i])
  }

  datatype Page = Page(messages: seq<Message>, hasOlder: bool)

  function Eligible(chat: seq<Message>, cursor: Option<Message>): seq<Message> {
    if cursor.None? then chat else EarlierThan(chat, cursor.value)
  }

  /** list_live_message_page over the conversation's chat messages: newest first, one row more than asked for. */
  function LiveMessagePage(chat: seq<Message>, limit: int, cursor: Option<Message>): Page {
    var effective := Max(limit, 1);
    var newestFirst := Reverse(Eligible(chat, cursor));
    var rows := newestFirst[..Min(effective + 1, |newestFirst|)];
    Page(Reverse(rows[..Min(effective, |rows|)]), |rows| > effective)
  }

  /** A page is the newest part of what is eligible, and its oldest message leads to exactly the rest. */
  lemma PageLeavesRest(chat: seq<Message>, limit: int, cursor: Option<Message>) returns (rest: seq<Message>)
    requires Sorted(chat) && Eligible(chat, cursor) <= chat
    ensures var page := LiveMessagePage(chat, limit, cursor);
      && Eligible(chat, cursor) == rest + page.messages
      && (page.hasOlder <==> rest != [])
      && (page.hasOlder ==> |page.messages| == Max(limit, 1) && Eligible(chat, Some(page.messages[0])) == rest)
      && rest <= chat
  {
    var q := Eligible(chat, cursor);
    var e := Max(limit, 1);
    NewestOf(q, e);
    var n := |q| - Min(e, |q|);
    rest := q[..n];
    assert rest + q[n..] == q;
    if n > 0 {
      assert q[n] == chat[n];
      FilterBefore(chat, n);
    }
  }

  lemma NewestOf(ms: seq<Message>, e: nat)
    requires e > 0
    ensures var newestFirst := Reverse(ms);
      var rows := newestFirst[..Min(e + 1, |ms|)];
      && Reverse(rows[..Min(e, |rows|)]) == ms[|ms| - Min(e, |ms|)..]
      && (|rows| > e <==> |ms| > e)
  {
    var n := Min(e, |ms|);
    var rows := Reverse(ms)[..Min(e + 1, |ms|)];
    assert rows[..n] == Reverse(ms)[..n];
    ReverseTake(ms, n);
  }

  lemma ReverseTake(ms: seq<Message>, n: nat)
    requires n <= |ms|
    ensures Reverse(Reverse(ms)[..n]) == ms[|ms| - n..]
  {
  }

  /** The chat messages that are live when the k-th request is answered. */
  type Timeline = nat -> seq<Message>

  /** A client that keeps asking for the page before the oldest message it has, from the k-th request on. */
  function Scroll(chats: Timeline, k: nat, limit: int, cursor: Option<Message>, fuel: nat): seq<Page>
    decreases fuel
  {
    var page := LiveMessagePage(chats(k), limit, cursor);
    if !page.hasOlder || page.messages == [] || fuel == 0 then [page]
    else [page] + Scroll(chats, k + 1, limit, Some(page.messages[0]), fuel - 1)
  }

  function JoinOldestFirst(pages: seq<Page>): seq<Message> {
    if pages == [] then [] else JoinOldestFirst(pages[1..]) + pages[0].messages
  }

  /** Every page but the last says that something older is left, and the last that nothing is. */
  ghost predicate OlderExceptLast(pages: seq<Page>) {
    pages != [] && forall i :: 0 <= i < |pages| ==> (pages[i].hasOlder <==> i < |pages| - 1)
  }

  /** At all times in order, and what is added while the client scrolls comes after what was there. */
  ghost predicate Grows(chats: Timeline) {
    && (forall k: nat :: Sorted(chats(k)))
    && forall k: nat, m: Message, x: Message :: m in chats(k + 1) && m !in chats(k) && x in chats(k) ==> Before(x, m)
  }

  /** The k-th page was followed by another request, and until then nothing before its oldest message was deleted. */
  ghost predicate KeptBelow(chats: Timeline, k: nat, page: Page) {
    page.messages != [] &&
    forall m :: m in chats(k) && Before(m, page.messages[0]) ==> m in chats(k + 1)
  }

  ghost predicate NothingLost(chats: Timeline, k: nat, pages: seq<Page>) {
    forall i :: 0 <= i < |pages| - 1 ==> KeptBelow(chats, k + i, pages[i])
  }

  lemma {:induction false} SortedSubset(a: seq<Message>, b: seq<Message>)
    requires Sorted(a) && Sorted(b) && forall m :: m in a ==> m in b
    ensures |a| <= |b|
    ensures a == b <==> forall m :: m in b ==> m in a
    decreases |b|
  {
    if a == [] {
      assert b != [] ==> b[0] in b;
    } else {
      assert a[0] in a && a[0] in b;
      var a', b' := a[1..], b[1..];
      assert a == [a[0]] + a' && b == [b[0]] + b';
      assert forall m :: m in a <==> m == a[0] || m in a';
      assert forall m :: m in b <==> m == b[0] || m in b';
      if a[0] == b[0] {
        FirstOnce(a);
        FirstOnce(b);
        assert forall m :: m in a' ==> m in a && m != a[0];
        SortedSubset(a', b');
      } else {
        FirstMissing(a, b);
        SortedSubset(a, b');
        assert b[0] in b;
      }
    }
  }

  lemma FirstOnce(ms: seq<Message>)
    requires Sorted(ms) && ms != []
    ensures ms[0] !in ms[1..]
  {
    forall i | 0 <= i < |ms[1..]|
      ensures ms[1..][i] != ms[0]
    {
      assert Before(ms[0], ms[i + 1]);
    }
  }

  /** A sorted part of a list that starts later does not have the first element. */
  lemma FirstMissing(a: seq<Message>, b: seq<Message>)
    requires Sorted(a) && Sorted(b) && a != [] && b != [] && a[0] != b[0] && forall m :: m in a ==> m in b
    ensures b[0] !in a && forall m :: m in a ==> m in b[1..]
  {
    assert a[0] in a;
    var j :| 0 <= j < |b| && b[j] == a[0];
    assert j > 0 && Before(b[0], b[j]);
    forall m | m in a
      ensures m != b[0] && m in b[1..]
    {
      var i :| 0 <= i < |a| && a[i] == m;
      assert i > 0 ==> Before(a[0], a[i]);
      assert m in b && b == [b[0]] + b[1..];
    }
  }

  /** What the next request can return is what is left of the rest. */
  lemma NextEligible(chats: Timeline, k: nat, page: Page, rest: seq<Message>)
    requires Grows(chats) && page.messages != [] && page.messages[0] in chats(k)
    requires EarlierThan(chats(k), page.messages[0]) == rest
    ensures var next := EarlierThan(chats(k + 1), page.messages[0]);
      && Sorted(next) && next <= chats(k + 1) && |next| <= |rest|
      && (forall m :: m in next ==> m in rest)
      && (next == rest <==> KeptBelow(chats, k, page))
  {
    var c := page.messages[0];
    var next := EarlierThan(chats(k + 1), c);
    EarlierIsPrefix(chats(k + 1), c);
    EarlierIsPrefix(chats(k), c);
    SortedSubset(next, rest);
  }

  lemma {:induction false} EarlierIsPrefix(ms: seq<Message>, c: Message)
    requires Sorted(ms)
    ensures EarlierThan(ms, c) <= ms && Sorted(EarlierThan(ms, c))
  {
    FilterSorted((m: Message) => Before(m, c), ms);
    if ms != [] {
      EarlierIsPrefix(ms[1..], c);
      if !Before(ms[0], c) {
        forall m | m in ms
          ensures !Before(m, c)
        {
          var i :| 0 <= i < |ms| && ms[i] == m;
        }
      } else {
        assert EarlierThan(ms, c) == [ms[0]] + EarlierThan(ms[1..], c);
      }
    }
  }

  /** What pages from here on show: in order, messages that are eligible now, and all of them when nothing is lost. */
  ghost predicate Covers(chats: Timeline, k: nat, eligible: seq<Message>, pages: seq<Page>) {
    var joined := JoinOldestFirst(pages);
    && OlderExceptLast(pages) && |pages| <= |eligible| + 1
    && Sorted(joined) && (forall m :: m in joined ==> m in eligible)
    && (joined == eligible <==> NothingLost(chats, k, pages))
  }

  lemma {:induction false} ScrollCovers(chats: Timeline, k: nat, limit: int, cursor: Option<Message>, fuel: nat)
    requires Grows(chats) && Eligible(chats(k), cursor) <= chats(k) && |Eligible(chats(k), cursor)| <= fuel
    ensures Covers(chats, k, Eligible(chats(k), cursor), Scroll(chats, k, limit, cursor, fuel))
    decreases fuel
  {
    hide LiveMessagePage, EarlierThan, Before;
    var eligible := Eligible(chats(k), cursor);
    var page := LiveMessagePage(chats(k), limit, cursor);
    var rest := PageLeavesRest(chats(k), limit, cursor);
    var pages := Scroll(chats, k, limit, cursor, fuel);
    if page.hasOlder {
      var c := page.messages[0];
      assert eligible[|rest|] == c && chats(k)[|rest|] == c;
      NextEligible(chats, k, page, rest);
      ScrollCovers(chats, k + 1, limit, Some(c), fuel - 1);
      var more := Scroll(chats, k + 1, limit, Some(c), fuel - 1);
      assert pages == [page] + more;
      OneMorePage(chats, k, page, rest, more);
    } else {
      assert pages == [page] && JoinOldestFirst(pages[1..]) == [];
      assert JoinOldestFirst(pages) == page.messages == eligible;
    }
  }

  lemma OneMorePage(chats: Timeline, k: nat, page: Page, rest: seq<Message>, more: seq<Page>)
    requires Sorted(rest + page.messages) && page.hasOlder && page.messages != []
    requires var next := EarlierThan(chats(k + 1), page.messages[0]);
      && Covers(chats, k + 1, next, more) && Sorted(next) && |next| <= |rest|
      && (forall m :: m in next ==> m in rest)
      && (next == rest <==> KeptBelow(chats, k, page))
    ensures Covers(chats, k, rest + page.messages, [page] + more)
  {
    hide EarlierThan, Before, KeptBelow;
    var next := EarlierThan(chats(k + 1), page.messages[0]);
    var pages := [page] + more;
    var shown := JoinOldestFirst(more);
    assert pages[1..] == more;
    assert JoinOldestFirst(pages) == shown + page.messages;
    JoinSorted(shown, rest, page.messages);
    SortedSubset(shown, rest);
    LostHereOrLater(chats, k, page, more);
    if shown == rest {
      SortedSubset(next, rest);
    }
    assert shown + page.messages == rest + page.messages <==> shown == rest by {
      SameEnd(shown, rest, page.messages);
    }
  }

  lemma SameEnd<T>(a: seq<T>, b: seq<T>, c: seq<T>)
    ensures a + c == b + c <==> a == b
  {
    if a + c == b + c {
      assert (a + c)[..|a|] == a && (b + c)[..|b|] == b;
    }
  }

  lemma LostHereOrLater(chats: Timeline, k: nat, page: Page, more: seq<Page>)
    requires more != []
    ensures NothingLost(chats, k, [page] + more) <==> KeptBelow(chats, k, page) && NothingLost(chats, k + 1, more)
  {
    hide KeptBelow;
    var pages := [page] + more;
    assert pages[0] == page && forall i :: 0 <= i < |more| ==> pages[i + 1] == more[i];
    if NothingLost(chats, k, pages) {
      forall i | 0 <= i < |more| - 1
        ensures KeptBelow(chats, k + 1 + i, more[i])
      {
        assert KeptBelow(chats, k + (i + 1), pages[i + 1]);
      }
    }
    if KeptBelow(chats, k, page) && NothingLost(chats, k + 1, more) {
      forall i | 0 <= i < |pages| - 1
        ensures KeptBelow(chats, k + i, pages[i])
      {
        assert i > 0 ==> KeptBelow(chats, k + 1 + (i - 1), more[i - 1]);
      }
    }
  }

  /** A sorted selection of a head, before the tail it had. */
  lemma JoinSorted(part: seq<Message>, head: seq<Message>, tail: seq<Message>)
    requires Sorted(head + tail) && Sorted(part) && forall m :: m in part ==> m in head
    ensures Sorted(head) && Sorted(part + tail)
  {
    var all, joined := head + tail, part + tail;
    assert forall i :: 0 <= i < |head| ==> all[i] == head[i];
    assert forall j :: 0 <= j < |tail| ==> all[|head| + j] == tail[j];
    forall i, j | 0 <= i < j < |joined|
      ensures Before(joined[i], joined[j])
    {
      if j >= |part| {
        if i < |part| {
          assert part[i] in head;
          var l :| 0 <= l < |head| && head[l] == part[i];
          assert Before(all[l], all[|head| + (j - |part|)]);
        } else {
          assert Before(all[|head| + (i - |part|)], all[|head| + (j - |part|)]);
        }
      }
    }
  }

  /**
   Scrolling back while messages are added and deleted, with any limit: it ends within one request per message there
   was at first; only the last page says that nothing older is left; and the pages joined oldest first show messages
   that were there at first, each at most once and in order. They show all of them exactly when none was deleted
   before the client came to it.
   */
  lemma PagingExactIff(chats: Timeline, limit: int)
    requires Grows(chats)
    ensures var pages := Scroll(chats, 0, limit, None, |chats(0)|);
      var joined := JoinOldestFirst(pages);
      && OlderExceptLast(pages) && |pages| <= |chats(0)| + 1
      && Sorted(joined) && (forall m :: m in joined ==> m in chats(0))
      && (joined == chats(0) <==> NothingLost(chats, 0, pages))
  {
    ScrollCovers(chats, 0, limit, None, |chats(0)|);
  }

  /** In particular the pages are exactly the chat messages when these stay as they are. */
  lemma PagingExact(live: seq<Message>, limit: int)
    requires Sorted(live)
    ensures var pages := Scroll(_ => Chat(live), 0, limit, None, |Chat(live)|);
      JoinOldestFirst(pages) == Chat(live) && OlderExceptLast(pages) && |pages| <= |Chat(live)| + 1
  {
    FilterSorted(IsChat, live);
    var chats: Timeline := _ => Chat(live);
    hide Chat, Scroll, Before, LiveMessagePage;
    PagingExactIff(chats, limit);
    var pages := Scroll(chats, 0, limit, None, |Chat(live)|);
    forall i | 0 <= i < |pages| - 1
      ensures KeptBelow(chats, i, pages[i])
    {
      assert pages[i].messages != [] by { PageBeforeLast(chats, 0, limit, None, |Chat(live)|, i); }
    }
  }

  /** A page that is followed by another is not empty. */
  lemma {:induction false} PageBeforeLast(chats: Timeline, k: nat, limit: int, cursor: Option<Message>, fuel: nat,
                                          i: nat)
    requires i + 1 < |Scroll(chats, k, limit, cursor, fuel)|
    ensures Scroll(chats, k, limit, cursor, fuel)[i].messages != []
    decreases fuel
  {
    hide LiveMessagePage;
    var page := LiveMessagePage(chats(k), limit, cursor);
    if i > 0 {
      PageBeforeLast(chats, k + 1, limit, Some(page.messages[0]), fuel - 1, i - 1);
    }
  }
}
