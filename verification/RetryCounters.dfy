/**
 The retry counters of a run: one dictionary whose keys join a tool name and an error category, a
 counter per kind of parse error beside them, and what the counters mean.
 */
module RetryCounters {
  import opened Common

  type Counts = map<string, nat>

  datatype Event =
    | Succeeded(tool: string)
    | Failed(tool: string, category: string)
    | Misparsed(kind: string)

  function ToolPrefix(tool: string): string {
    "tool_" + tool
  }

  /** _build_tool_retry_key for a tool that ran */
  function FailureKey(tool: string, category: string): string {
    ToolPrefix(tool) + "_" + category
  }

  function ParseKey(kind: string): string {
    "parse_error_" + kind
  }

  /** The test by which counters are read and cleared. */
  predicate Matches(key: string, tool: string) {
    key == ToolPrefix(tool) || ToolPrefix(tool) + "_" <= key
  }

  /** The largest matching counter, 0 when there is none. */
  ghost predicate IsCurrent(counts: Counts, tool: string, r: nat) {
    && (forall k :: k in counts && Matches(k, tool) ==> counts[k] <= r)
    && (r == 0 || exists k :: k in counts && Matches(k, tool) && counts[k] == r)
  }

  lemma CurrentExists(counts: Counts, tool: string, keys: set<string>) returns (r: nat)
    requires keys <= counts.Keys
    ensures forall k :: k in keys && Matches(k, tool) ==> counts[k] <= r
    ensures r == 0 || exists k :: k in keys && Matches(k, tool) && counts[k] == r
    decreases |keys|
  {
    hide Matches;
    if keys == {} {
      r := 0;
    } else {
      var x :| x in keys;
      var rest := keys - {x};
      var s := CurrentExists(counts, tool, rest);
      r := if Matches(x, tool) && counts[x] > s then counts[x] else s;
      assert forall k :: k in keys ==> k == x || k in rest;
    }
  }

  lemma HasCurrent(counts: Counts, tool: string)
    ensures exists r :: IsCurrent(counts, tool, r)
  {
    hide Matches;
    var r := CurrentExists(counts, tool, counts.Keys);
    assert IsCurrent(counts, tool, r);
  }

  /** _current_retry_count_for_tool */
  ghost function Current(counts: Counts, tool: string): (r: nat)
    ensures IsCurrent(counts, tool, r)
  {
    HasCurrent(counts, tool);
    var r :| IsCurrent(counts, tool, r);
    r
  }

  lemma CurrentUnique(counts: Counts, tool: string, r: nat)
    requires IsCurrent(counts, tool, r)
    ensures Current(counts, tool) == r
  {
    hide Matches;
  }

  /** _clear_tool_retry_counts */
  function Cleared(counts: Counts, tool: string): Counts {
    map k | k in counts && !Matches(k, tool) :: counts[k]
  }

  ghost function Apply(counts: Counts, e: Event): Counts {
    match e
    case Succeeded(tool) => Cleared(counts, tool)
    case Failed(tool, category) => counts[FailureKey(tool, category) := Current(counts, tool) + 1]
    case Misparsed(kind) =>
      counts[ParseKey(kind) := (if ParseKey(kind) in counts then counts[ParseKey(kind)] else 0) + 1]
  }

  /** The counters after a history of events, oldest first. */
  ghost function Replay(events: seq<Event>): Counts {
    if events == [] then map[] else Apply(Replay(events[..|events| - 1]), events[|events| - 1])
  }

  /** How often a tool has failed since it last succeeded. */
  function Streak(events: seq<Event>, tool: string): nat {
    if events == [] then 0
    else
      var before := Streak(events[..|events| - 1], tool);
      match events[|events| - 1]
      case Succeeded(t) => if t == tool then 0 else before
      case Failed(t, _) => if t == tool then before + 1 else before
      case Misparsed(_) => before
  }

  function Misparses(events: seq<Event>, kind: string): nat {
    if events == [] then 0
    else
      Misparses(events[..|events| - 1], kind) +
      if events[|events| - 1] == Misparsed(kind) then 1 else 0
  }

  /** No name is another one followed by an underscore. */
  ghost predicate PrefixFree(names: set<string>) {
    forall a, b :: a in names && b in names ==> !(a + "_" <= b)
  }

  ghost predicate Uses(events: seq<Event>, names: set<string>) {
    forall e :: e in events ==> e.Misparsed? || e.tool in names
  }

  // ---------------------------------------------------------------- which keys match which tools

  lemma OwnKeyMatches(tool: string, category: string)
    ensures Matches(FailureKey(tool, category), tool)
  {
    assert ToolPrefix(tool) + "_" <= FailureKey(tool, category);
  }

  lemma ParseKeyNeverMatches(kind: string, tool: string)
    ensures !Matches(ParseKey(kind), tool)
  {
    assert ParseKey(kind)[0] == 'p' && ToolPrefix(tool)[0] == 't';
  }

  lemma ParseKeyDiffers(kind: string, tool: string, category: string)
    ensures ParseKey(kind) != FailureKey(tool, category)
  {
    assert ParseKey(kind)[0] == 'p' && FailureKey(tool, category)[0] == 't';
  }

  lemma ParseKeyInjective(a: string, b: string)
    requires ParseKey(a) == ParseKey(b)
    ensures a == b
  {
    assert ParseKey(a)[12..] == a && ParseKey(b)[12..] == b;
  }

  /** A key of one tool matches another tool exactly when one name extends the other. */
  lemma KeyMatchesOther(a: string, b: string, category: string)
    requires !(a + "_" <= b) && !(b + "_" <= a)
    ensures Matches(FailureKey(b, category), a) ==> a == b
  {
    var key := FailureKey(b, category);
    var s := b + "_" + category;
    assert key == "tool_" + s && key[5..] == s;
    assert b + "_" <= s && ToolPrefix(a)[5..] == a;
    if Matches(key, a) && a != b {
      if key != ToolPrefix(a) {
        assert ToolPrefix(a) + "_" == "tool_" + (a + "_");
        PrefixAfter("tool_", a + "_", s);
        NameSplit(a, b, s);
      }
    }
  }

  lemma PrefixAfter(p: string, x: string, y: string)
    requires p + x <= p + y
    ensures x <= y
  {
    assert (p + y)[..|p + x|] == p + x;
    assert forall i :: 0 <= i < |x| ==> x[i] == (p + x)[|p| + i] == (p + y)[|p| + i] == y[i];
  }

  lemma NameSplit(a: string, b: string, s: string)
    requires a + "_" <= s && b + "_" <= s
    ensures a == b || a + "_" <= b || b + "_" <= a
  {
    assert s[..|a|] == (a + "_")[..|a|] == a;
    assert s[..|b|] == (b + "_")[..|b|] == b;
    if |a| < |b| {
      assert b[..|a| + 1] == s[..|a| + 1] == a + "_";
    } else if |b| < |a| {
      assert a[..|b| + 1] == s[..|b| + 1] == b + "_";
    }
  }

  // ---------------------------------------------------------------- counters are streaks

  ghost predicate KeysKnown(counts: Counts, names: set<string>) {
    forall k :: k in counts ==>
      (exists kind :: k == ParseKey(kind)) || (exists t, c :: t in names && k == FailureKey(t, c))
  }

  lemma KnownKeyMatches(counts: Counts, names: set<string>, k: string, t: string, u: string)
    requires PrefixFree(names) && KeysKnown(counts, names) && k in counts
    requires t in names && u in names && Matches(k, t) && Matches(k, u)
    ensures t == u
  {
    hide Matches, FailureKey, ParseKey;
    if kind :| k == ParseKey(kind) {
      ParseKeyNeverMatches(kind, t);
      assert false;
    } else {
      var b, c :| b in names && k == FailureKey(b, c);
      KeyMatchesOther(t, b, c);
      KeyMatchesOther(u, b, c);
    }
  }

  lemma ClearedCurrent(counts: Counts, names: set<string>, t: string, u: string)
    requires PrefixFree(names) && KeysKnown(counts, names) && t in names && u in names
    ensures Current(Cleared(counts, t), u) == if t == u then 0 else Current(counts, u)
  {
    hide Matches, KeysKnown, PrefixFree, Current;
    var after := Cleared(counts, t);
    if t == u {
      CurrentUnique(after, u, 0);
    } else {
      var r := Current(counts, u);
      forall k | k in counts && Matches(k, u)
        ensures k in after
      {
        if Matches(k, t) {
          KnownKeyMatches(counts, names, k, t, u);
        }
      }
      CurrentUnique(after, u, r);
    }
  }

  lemma FailedCurrent(counts: Counts, names: set<string>, t: string, c: string, u: string)
    requires PrefixFree(names) && t in names && u in names
    ensures Current(counts[FailureKey(t, c) := Current(counts, t) + 1], u) ==
            Current(counts, u) + if t == u then 1 else 0
  {
    hide Matches, FailureKey, Current;
    var key := FailureKey(t, c);
    var after := counts[key := Current(counts, t) + 1];
    OwnKeyMatches(t, c);
    if t == u {
      CurrentUnique(after, u, Current(counts, u) + 1);
    } else {
      KeyMatchesOther(u, t, c);
      CurrentUnique(after, u, Current(counts, u));
    }
  }

  lemma MisparsedCurrent(counts: Counts, kind: string, n: nat, u: string)
    ensures Current(counts[ParseKey(kind) := n], u) == Current(counts, u)
  {
    hide Matches, ParseKey, Current;
    ParseKeyNeverMatches(kind, u);
    CurrentUnique(counts[ParseKey(kind) := n], u, Current(counts, u));
  }

  lemma ApplyKeepsKeys(counts: Counts, names: set<string>, e: Event)
    requires KeysKnown(counts, names) && (e.Misparsed? || e.tool in names)
    ensures KeysKnown(Apply(counts, e), names)
  {
    hide Matches, FailureKey, ParseKey, Current;
  }

  /** In every history over names that do not extend each other, a tool's counter is its streak. */
  lemma {:induction false} CountsAreStreaks(events: seq<Event>, names: set<string>)
    requires PrefixFree(names) && Uses(events, names)
    ensures KeysKnown(Replay(events), names)
    ensures forall t :: t in names ==> Current(Replay(events), t) == Streak(events, t)
  {
    hide KeysKnown, PrefixFree, Current, FailureKey, ParseKey, Cleared;
    if events == [] {
      assert KeysKnown(map[], names) by { NoKeys(names); }
      forall t | t in names
        ensures Current(map[], t) == 0
      {
        CurrentUnique(map[], t, 0);
      }
    } else {
      var before, e := events[..|events| - 1], events[|events| - 1];
      CountsAreStreaks(before, names);
      var counts := Replay(before);
      ApplyKeepsKeys(counts, names, e);
      forall t | t in names
        ensures Current(Apply(counts, e), t) == Streak(events, t)
      {
        match e
        case Succeeded(u) => ClearedCurrent(counts, names, u, t);
        case Failed(u, c) => FailedCurrent(counts, names, u, c, t);
        case Misparsed(kind) => MisparsedCurrent(counts, kind, Apply(counts, e)[ParseKey(kind)], t);
      }
    }
  }

  lemma NoKeys(names: set<string>)
    ensures KeysKnown(map[], names)
  {
  }

  /** A counter of one tool is read as another's as soon as the other's name extends it. */
  lemma ExtendingNameMiscounts(a: string, b: string, category: string)
    requires a + "_" <= b
    ensures Current(Replay([Failed(b, category)]), a) != Streak([Failed(b, category)], a)
  {
    var e := Failed(b, category);
    assert [e][..0] == [];
    var key := FailureKey(b, category);
    assert Matches(key, a) by {
      assert ToolPrefix(a) + "_" == "tool_" + (a + "_");
      assert key == "tool_" + (b + "_" + category);
    }
    assert a != b;
    var counts := Replay([e]);
    hide Matches, FailureKey, Current, ToolPrefix;
    var none: Counts := map[];
    CurrentUnique(none, b, 0);
    assert counts == Apply(Replay([]), e);
    assert Replay([]) == map[];
    assert counts == map[key := 1];
    CurrentUnique(counts, a, 1);
  }

  /** The counters mean what they are read as exactly when no registered name extends another. */
  lemma CountsAreStreaksIff(names: set<string>)
    ensures PrefixFree(names) <==>
            forall events, t :: Uses(events, names) && t in names ==> Current(Replay(events), t) == Streak(events, t)
  {
    hide Current, Replay, Streak;
    if PrefixFree(names) {
      forall events, t | Uses(events, names) && t in names
        ensures Current(Replay(events), t) == Streak(events, t)
      {
        CountsAreStreaks(events, names);
      }
    } else {
      var a, b :| a in names && b in names && a + "_" <= b;
      ExtendingNameMiscounts(a, b, "generic");
      assert Uses([Failed(b, "generic")], names);
    }
  }

  /** Whatever the names, the counter of a kind of parse error is the number of such errors. */
  lemma {:induction false} ParseCountsExact(events: seq<Event>, kind: string)
    ensures var counts := Replay(events);
      (if ParseKey(kind) in counts then counts[ParseKey(kind)] else 0) == Misparses(events, kind)
  {
    hide Matches, FailureKey, ParseKey, Current;
    if events != [] {
      var before, e := events[..|events| - 1], events[|events| - 1];
      ParseCountsExact(before, kind);
      match e
      case Succeeded(t) => ParseKeyNeverMatches(kind, t);
      case Failed(t, c) => ParseKeyDiffers(kind, t, c);
      case Misparsed(k) =>
        if ParseKey(k) == ParseKey(kind) {
          ParseKeyInjective(k, kind);
        }
    }
  }

  /** The counter of one key after failures of its own tool: the streak at the last failure under it. */
  lemma {:induction false} KeyHoldsStreak(before: seq<Event>, e: Event, later: seq<Event>, names: set<string>)
    requires PrefixFree(names) && Uses(before, names) && e.Failed? && e.tool in names
    requires forall i :: 0 <= i < |later| ==>
      later[i].Failed? && FailureKey(later[i].tool, later[i].category) != FailureKey(e.tool, e.category)
    ensures var key := FailureKey(e.tool, e.category);
      var counts := Replay(before + [e] + later);
      key in counts && counts[key] == Streak(before + [e], e.tool)
    decreases |later|
  {
    hide PrefixFree, Current, FailureKey, Replay, Streak, Uses;
    var key := FailureKey(e.tool, e.category);
    if later == [] {
      assert before + [e] + later == before + [e];
      ReplaySnoc(before, e);
      CountsAreStreaks(before, names);
    } else {
      var init, x := later[..|later| - 1], later[|later| - 1];
      KeyHoldsStreak(before, e, init, names);
      assert before + [e] + later == before + [e] + init + [x];
      ReplaySnoc(before + [e] + init, x);
    }
  }

  lemma ReplaySnoc(events: seq<Event>, e: Event)
    ensures Replay(events + [e]) == Apply(Replay(events), e)
    ensures e.Failed? ==> Streak(events + [e], e.tool) == Streak(events, e.tool) + 1
  {
    hide Apply;
    assert (events + [e])[..|events|] == events;
  }
}
