/**
 Cleaning a conversation workspace before it is stored: scratch files first, then inputs past their
 time, then, only while the workspace is over a soft limit, the remaining inputs from the oldest on.
 Every unlink may fail.
 */
module WorkspaceDecay {
  import opened Common
  import opened WorkspacePaths

  datatype File = File(path: Path, size: nat, mtime: int)

  /** The files in the order a recursive listing yields them, and the directories. */
  datatype Workspace = Workspace(files: seq<File>, dirs: set<Path>)

  datatype Limit = Limit(bytes: nat, files: nat)

  datatype Settings = Settings(enabled: bool, rebuildableTtl: nat, soft: Limit, hard: Limit)

  /** The paths whose removal succeeds in each pass: files by unlink, empty directories by rmdir. */
  datatype Unlinks = Unlinks(scratch: set<Path>, expired: set<Path>, pressure: set<Path>)

  datatype Outcome =
    | Cleaned(totalBytes: nat, totalFiles: nat, deleted: set<Path>, excluded: set<Path>)
    | LimitExceeded

  function PathSet(files: seq<File>): (r: set<Path>)
    ensures forall f :: f in files ==> f.path in r
  {
    set f | f in files :: f.path
  }

  ghost predicate PathsUnique(files: seq<File>) {
    forall i, j :: 0 <= i < j < |files| ==> files[i].path != files[j].path
  }

  /** Every directory on the way to a file or directory is there. */
  ghost predicate Closed(w: Workspace) {
    && (forall f :: f in w.files ==> f.path != [])
    && (forall d :: d in w.dirs ==> d != [])
    && (forall f, k :: f in w.files && 0 < k < |f.path| ==> f.path[..k] in w.dirs)
    && (forall d, k :: d in w.dirs && 0 < k < |d| ==> d[..k] in w.dirs)
  }

  function Without(files: seq<File>, gone: set<Path>): (r: seq<File>)
    ensures forall f :: f in r <==> f in files && f.path !in gone
  {
    if files == [] then []
    else (if files[0].path in gone then [] else [files[0]]) + Without(files[1..], gone)
  }

  lemma {:induction false} WithoutTwice(files: seq<File>, a: set<Path>, b: set<Path>)
    ensures Without(Without(files, a), b) == Without(files, a + b)
  {
    if files != [] {
      WithoutTwice(files[1..], a, b);
      var rest := Without(files[1..], a);
      assert Without(files, a) == if files[0].path in a then rest else [files[0]] + rest;
      assert ([files[0]] + rest)[1..] == rest;
    }
  }

  lemma {:induction false} WithoutUnknown(files: seq<File>, gone: set<Path>)
    requires forall f :: f in files ==> f.path !in gone
    ensures Without(files, gone) == files
  {
    if files != [] {
      WithoutUnknown(files[1..], gone);
    }
  }

  /** Only the paths that are there matter. */
  lemma {:induction false} WithoutSame(files: seq<File>, a: set<Path>, b: set<Path>)
    requires forall f :: f in files ==> (f.path in a <==> f.path in b)
    ensures Without(files, a) == Without(files, b)
  {
    if files != [] {
      WithoutSame(files[1..], a, b);
    }
  }

  function Bytes(files: seq<File>): nat {
    if files == [] then 0 else files[0].size + Bytes(files[1..])
  }

  lemma {:induction false} BytesSnoc(files: seq<File>, f: File)
    ensures Bytes(files + [f]) == Bytes(files) + f.size
  {
    if files != [] {
      assert (files + [f])[1..] == files[1..] + [f];
      BytesSnoc(files[1..], f);
    }
  }

  predicate Within(files: seq<File>, limit: Limit) {
    Bytes(files) <= limit.bytes && |files| <= limit.files
  }

  lemma BytesCons(f: File, rest: seq<File>)
    ensures Bytes([f] + rest) == f.size + Bytes(rest)
  {
    assert ([f] + rest)[1..] == rest;
  }

  /** Removing more leaves no more bytes and no more files. */
  lemma {:induction false} WithoutShrinks(files: seq<File>, a: set<Path>, b: set<Path>)
    requires forall f :: f in files && f.path in b ==> f.path in a
    ensures Bytes(Without(files, a)) <= Bytes(Without(files, b))
    ensures |Without(files, a)| <= |Without(files, b)|
  {
    hide Bytes;
    if files != [] {
      WithoutShrinks(files[1..], a, b);
      BytesCons(files[0], Without(files[1..], a));
      BytesCons(files[0], Without(files[1..], b));
      assert [] + Without(files[1..], a) == Without(files[1..], a);
      assert [] + Without(files[1..], b) == Without(files[1..], b);
    }
  }

  // ---------------------------------------------------------------- deleting one path

  function Parent(p: Path): Path
    requires p != []
  {
    p[..|p| - 1]
  }

  predicate HasEntry(w: Workspace, d: Path) {
    (exists f :: f in w.files && f.path != [] && Parent(f.path) == d) ||
    (exists e :: e in w.dirs && e != [] && Parent(e) == d)
  }

  /** From d up: directories are removed while they are empty and rmdir works, the root never. */
  function PruneUp(w: Workspace, d: Path, can: set<Path>): Workspace
    decreases |d|
  {
    if d == [] || HasEntry(w, d) || d !in can then w
    else PruneUp(w.(dirs := w.dirs - {d}), Parent(d), can)
  }

  function Unlinked(w: Workspace, p: Path, can: set<Path>): Workspace
    requires p != []
  {
    PruneUp(w.(files := Without(w.files, {p})), Parent(p), can)
  }

  lemma {:induction false} PruneUpKeeps(w: Workspace, d: Path, can: set<Path>)
    requires Closed(w)
    ensures var v := PruneUp(w, d, can); v.files == w.files && v.dirs <= w.dirs && Closed(v)
    decreases |d|
  {
    if d != [] && !HasEntry(w, d) && d in can {
      var v := w.(dirs := w.dirs - {d});
      EmptyIsNoAncestor(w, d);
      PruneUpKeeps(v, Parent(d), can);
    }
  }

  /** Nothing lies below a directory without entries. */
  lemma EmptyIsNoAncestor(w: Workspace, d: Path)
    requires Closed(w) && !HasEntry(w, d)
    ensures forall f, k :: f in w.files && 0 < k < |f.path| ==> f.path[..k] != d
    ensures forall e, k :: e in w.dirs && 0 < k < |e| ==> e[..k] != d
  {
    forall f, k | f in w.files && 0 < k < |f.path|
      ensures f.path[..k] != d
    {
      NextIsEntry(w, f.path, k);
    }
    forall e, k | e in w.dirs && 0 < k < |e|
      ensures e[..k] != d
    {
      NextIsEntry(w, e, k);
    }
  }

  lemma NextIsEntry(w: Workspace, p: Path, k: nat)
    requires Closed(w) && 0 < k < |p| && (p in w.dirs || exists f :: f in w.files && f.path == p)
    ensures HasEntry(w, p[..k])
  {
    if k + 1 == |p| {
      assert Parent(p) == p[..k];
    } else {
      assert p[..k + 1] in w.dirs;
      assert Parent(p[..k + 1]) == p[..k];
    }
  }

  lemma UnlinkedKeeps(w: Workspace, p: Path, can: set<Path>)
    requires Closed(w) && p != []
    ensures var v := Unlinked(w, p, can); v.files == Without(w.files, {p}) && v.dirs <= w.dirs && Closed(v)
  {
    hide PruneUp;
    PruneUpKeeps(w.(files := Without(w.files, {p})), Parent(p), can);
  }

  // ---------------------------------------------------------------- the passes

  /** One attempt at a path: gone when the unlink succeeds. */
  function Attempt(w: Workspace, p: Path, can: set<Path>): Workspace {
    if p != [] && p in PathSet(w.files) && p in can then Unlinked(w, p, can) else w
  }

  /** Attempts at the targets in order. */
  function Sweep(w: Workspace, targets: seq<File>, can: set<Path>): Workspace
    decreases |targets|
  {
    if targets == [] then w else Sweep(Attempt(w, targets[0].path, can), targets[1..], can)
  }

  /** Attempts at the targets in order, stopping at the first state within the limit. */
  function Trim(w: Workspace, targets: seq<File>, can: set<Path>, limit: Limit): Workspace
    decreases |targets|
  {
    if targets == [] then w
    else
      var next := Attempt(w, targets[0].path, can);
      if Within(next.files, limit) then next else Trim(next, targets[1..], can, limit)
  }

  lemma AttemptKeeps(w: Workspace, p: Path, can: set<Path>)
    requires Closed(w)
    ensures Closed(Attempt(w, p, can)) && Attempt(w, p, can).dirs <= w.dirs
    ensures Attempt(w, p, can).files == Without(w.files, {p} * can)
  {
    hide Closed, Unlinked;
    if p != [] && p in PathSet(w.files) && p in can {
      UnlinkedKeeps(w, p, can);
      assert {p} * can == {p};
    } else {
      assert forall f :: f in w.files ==> f.path != [] by { ClosedPaths(w); }
      WithoutUnknown(w.files, {p} * can);
    }
  }

  lemma ClosedPaths(w: Workspace)
    requires Closed(w)
    ensures forall f :: f in w.files ==> f.path != []
  {
  }

  /** A sweep removes exactly the targets whose unlink succeeds. */
  lemma {:induction false} SweepRemoves(w: Workspace, targets: seq<File>, can: set<Path>)
    requires Closed(w)
    ensures Closed(Sweep(w, targets, can)) && Sweep(w, targets, can).dirs <= w.dirs
    ensures Sweep(w, targets, can).files == Without(w.files, PathSet(targets) * can)
    decreases |targets|
  {
    hide Closed, Attempt;
    if targets == [] {
      WithoutUnknown(w.files, PathSet(targets) * can);
    } else {
      var p := targets[0].path;
      var next := Attempt(w, p, can);
      AttemptKeeps(w, p, can);
      SweepRemoves(next, targets[1..], can);
      WithoutTwice(w.files, {p} * can, PathSet(targets[1..]) * can);
      assert targets == [targets[0]] + targets[1..];
      assert {p} * can + PathSet(targets[1..]) * can == PathSet(targets) * can;
    }
  }

  /** How many targets a trim attempts. */
  function Attempts(w: Workspace, targets: seq<File>, can: set<Path>, limit: Limit): (k: nat)
    ensures k <= |targets|
    decreases |targets|
  {
    if targets == [] then 0
    else
      var next := Attempt(w, targets[0].path, can);
      if Within(next.files, limit) then 1 else 1 + Attempts(next, targets[1..], can, limit)
  }

  /** A trim is the sweep of the shortest nonempty part of its list that reaches the limit. */
  lemma {:induction false} TrimIsShortestSweep(w: Workspace, targets: seq<File>, can: set<Path>, limit: Limit)
    ensures var k := Attempts(w, targets, can, limit);
      && Trim(w, targets, can, limit) == Sweep(w, targets[..k], can)
      && (forall j :: 0 < j < k ==> !Within(Sweep(w, targets[..j], can).files, limit))
      && (k == |targets| || Within(Trim(w, targets, can, limit).files, limit))
      && (targets != [] ==> k > 0)
    decreases |targets|
  {
    hide Attempt, Within;
    if targets != [] {
      var next := Attempt(w, targets[0].path, can);
      var k := Attempts(w, targets, can, limit);
      if !Within(next.files, limit) {
        var rest := targets[1..];
        TrimIsShortestSweep(next, rest, can, limit);
        forall j | 0 < j <= k
          ensures Sweep(w, targets[..j], can) == Sweep(next, rest[..j - 1], can)
        {
          assert targets[..j][1..] == rest[..j - 1];
        }
      } else {
        assert targets[..1][1..] == [];
      }
    }
  }

  // ---------------------------------------------------------------- oldest first

  /** The sort key: modification time, then the path's text. */
  predicate Older(a: File, b: File) {
    a.mtime < b.mtime || (a.mtime == b.mtime && TextLeq(PathText(a.path), PathText(b.path)))
  }

  lemma OlderTotal(a: File, b: File)
    ensures Older(a, b) || Older(b, a)
  {
    TextTotal(PathText(a.path), PathText(b.path));
  }

  lemma OlderTransitive(a: File, b: File, c: File)
    requires Older(a, b) && Older(b, c)
    ensures Older(a, c)
  {
    if a.mtime == b.mtime == c.mtime {
      TextTransitive(PathText(a.path), PathText(b.path), PathText(c.path));
    }
  }

  ghost predicate OldestFirst(files: seq<File>) {
    forall i, j :: 0 <= i < j < |files| ==> Older(files[i], files[j])
  }

  function InsertByAge(f: File, files: seq<File>): (r: seq<File>)
    ensures multiset(r) == multiset([f] + files)
  {
    if files == [] || Older(f, files[0]) then [f] + files
    else
      assert [f] + files == [f] + ([files[0]] + files[1..]);
      [files[0]] + InsertByAge(f, files[1..])
  }

  function SortByAge(files: seq<File>): (r: seq<File>)
    ensures multiset(r) == multiset(files)
  {
    if files == [] then []
    else
      assert files == [files[0]] + files[1..];
      InsertByAge(files[0], SortByAge(files[1..]))
  }

  lemma {:induction false} InsertByAgeSorted(f: File, files: seq<File>)
    requires OldestFirst(files)
    ensures OldestFirst(InsertByAge(f, files))
  {
    hide Older;
    if files == [] {
    } else if Older(f, files[0]) {
      forall j | 0 <= j < |files|
        ensures Older(f, files[j])
      {
        if j > 0 {
          OlderTransitive(f, files[0], files[j]);
        }
      }
    } else {
      InsertByAgeSorted(f, files[1..]);
      OlderTotal(f, files[0]);
      var r := InsertByAge(f, files[1..]);
      forall x | x in r
        ensures Older(files[0], x)
      {
        assert x in multiset(r);
        assert x == f || x in files[1..];
      }
    }
  }

  lemma {:induction false} SortByAgeSorted(files: seq<File>)
    ensures OldestFirst(SortByAge(files))
  {
    if files != [] {
      SortByAgeSorted(files[1..]);
      InsertByAgeSorted(files[0], SortByAge(files[1..]));
    }
  }

  // ---------------------------------------------------------------- the whole cleaning

  function OfClass(c: Retention): File -> bool {
    (f: File) => Classify(f.path) == c
  }

  function PastTime(cutoff: int): File -> bool {
    (f: File) => Classify(f.path) == Rebuildable && f.mtime <= cutoff
  }

  function AfterScratch(w: Workspace, can: Unlinks): Workspace {
    Sweep(w, Filter(OfClass(Ephemeral), w.files), can.scratch)
  }

  function AfterExpiry(w: Workspace, cutoff: int, can: Unlinks): Workspace {
    var v := AfterScratch(w, can);
    Sweep(v, Filter(PastTime(cutoff), v.files), can.expired)
  }

  function PressureOrder(w: Workspace): seq<File> {
    SortByAge(Filter(OfClass(Rebuildable), w.files))
  }

  function UnderPressure(w: Workspace, can: Unlinks, soft: Limit): Workspace {
    if Within(w.files, soft) then w else Trim(w, PressureOrder(w), can.pressure, soft)
  }

  /** The workspace that decay_workspace leaves, whether it then returns or raises. */
  function Decayed(w: Workspace, s: Settings, now: int, can: Unlinks): Workspace {
    if !s.enabled then w
    else UnderPressure(AfterExpiry(w, now - s.rebuildableTtl, can), can, s.soft)
  }

  /** The scratch paths still there, files and directories: what a snapshot is told to leave out. */
  function ScratchPaths(w: Workspace): set<Path> {
    set p | p in PathSet(w.files) + w.dirs && Classify(p) == Ephemeral
  }

  function Report(before: Workspace, after: Workspace, s: Settings): Outcome {
    if s.enabled && !Within(after.files, s.hard) then LimitExceeded
    else
      Cleaned(Bytes(after.files), |after.files|,
              PathSet(before.files) - PathSet(after.files), ScratchPaths(after))
  }

  lemma PathSetWithout(files: seq<File>, gone: set<Path>)
    ensures PathSet(Without(files, gone)) == PathSet(files) - gone
  {
    var rest := Without(files, gone);
    forall p
      ensures p in PathSet(rest) <==> p in PathSet(files) - gone
    {
      if p in PathSet(files) - gone {
        var f :| f in files && f.path == p;
        assert f in rest;
      }
    }
  }

  /** What a pass with a rule over paths and times removes. */
  lemma PassRemoves(w: Workspace, rule: File -> bool, can: set<Path>) returns (gone: set<Path>)
    requires Closed(w)
    ensures var after := Sweep(w, Filter(rule, w.files), can);
      && Closed(after) && after.dirs <= w.dirs
      && gone <= can && (forall p :: p in gone ==> exists f :: f in w.files && f.path == p && rule(f))
      && after.files == Without(w.files, gone)
      && (forall f :: f in w.files && rule(f) && f.path in can ==> f.path in gone)
  {
    var targets := Filter(rule, w.files);
    SweepRemoves(w, targets, can);
    gone := PathSet(targets) * can;
  }

  lemma {:induction false} PressureRemoves(w: Workspace, can: Unlinks, soft: Limit) returns (gone: set<Path>)
    requires Closed(w)
    ensures var after := UnderPressure(w, can, soft);
      && Closed(after) && after.dirs <= w.dirs
      && gone <= can.pressure
      && (forall p :: p in gone ==> Classify(p) == Rebuildable && exists f :: f in w.files && f.path == p)
      && after.files == Without(w.files, gone)
  {
    hide Classify, Closed, Within, Sweep, Trim, Attempts;
    if Within(w.files, soft) {
      gone := {};
      WithoutUnknown(w.files, gone);
    } else {
      var order := PressureOrder(w);
      var k := Attempts(w, order, can.pressure, soft);
      TrimIsShortestSweep(w, order, can.pressure, soft);
      SweepRemoves(w, order[..k], can.pressure);
      gone := PathSet(order[..k]) * can.pressure;
      forall p | p in gone
        ensures Classify(p) == Rebuildable && exists f :: f in w.files && f.path == p
      {
        var f :| f in order[..k] && f.path == p;
        InOrder(w, f);
      }
    }
  }

  lemma InOrder(w: Workspace, f: File)
    ensures f in PressureOrder(w) <==> f in w.files && Classify(f.path) == Rebuildable
  {
    hide Classify, SortByAge;
    var inputs := Filter(OfClass(Rebuildable), w.files);
    assert f in inputs <==> f in multiset(inputs);
    assert f in SortByAge(inputs) <==> f in multiset(SortByAge(inputs));
  }

  /** What the first two passes look for. */
  predicate TakenEarly(f: File, cutoff: int) {
    Classify(f.path) == Ephemeral || PastTime(cutoff)(f)
  }

  /** What the first two passes remove. */
  lemma ExpiryRemoves(w: Workspace, cutoff: int, can: Unlinks) returns (gone: set<Path>)
    requires Closed(w)
    ensures var after := AfterExpiry(w, cutoff, can);
      && Closed(after) && after.dirs <= w.dirs
      && after.files == Without(w.files, gone)
      && (forall p :: p in gone ==> exists f :: f in w.files && f.path == p && TakenEarly(f, cutoff))
      && (AllUnlinksWork(w, can) ==>
           forall f :: f in after.files ==> Classify(f.path) != Ephemeral && !PastTime(cutoff)(f))
  {
    hide Classify, Closed, Sweep;
    var v := AfterScratch(w, can);
    var g1 := PassRemoves(w, OfClass(Ephemeral), can.scratch);
    var g2 := PassRemoves(v, PastTime(cutoff), can.expired);
    WithoutTwice(w.files, g1, g2);
    gone := g1 + g2;
  }

  /** Scratch files and inputs: what the cleaning may remove. */
  predicate Disposable(p: Path) {
    Classify(p) == Ephemeral || Classify(p) == Rebuildable
  }

  /** The paths the cleaning removes are scratch files and inputs, and nothing else changes. */
  lemma DecayRemoves(w: Workspace, s: Settings, now: int, can: Unlinks) returns (gone: set<Path>)
    requires Closed(w)
    ensures Closed(Decayed(w, s, now, can)) && Decayed(w, s, now, can).dirs <= w.dirs
    ensures Decayed(w, s, now, can).files == Without(w.files, gone)
    ensures forall p :: p in gone ==> p in PathSet(w.files) && Disposable(p)
  {
    hide Classify, Closed, AfterExpiry, UnderPressure;
    if !s.enabled {
      gone := {};
      WithoutUnknown(w.files, gone);
    } else {
      var cutoff := now - s.rebuildableTtl;
      var v := AfterExpiry(w, cutoff, can);
      var g := ExpiryRemoves(w, cutoff, can);
      var g3 := PressureRemoves(v, can, s.soft);
      WithoutTwice(w.files, g, g3);
      gone := g + g3;
    }
  }

  /**
   Durable and stateful files all survive; what is reported deleted and what survives divide the files
   there were, and the survivors are as they were, in the same order.
   */
  lemma DecayPartitions(w: Workspace, s: Settings, now: int, can: Unlinks)
    requires Closed(w)
    ensures var after := Decayed(w, s, now, can);
      var deleted := PathSet(w.files) - PathSet(after.files);
      && (forall f :: f in w.files && !Disposable(f.path) ==> f in after.files)
      && after.files == Without(w.files, deleted)
      && PathSet(after.files) !! deleted && PathSet(after.files) + deleted == PathSet(w.files)
  {
    hide Disposable, Decayed, Closed;
    var gone := DecayRemoves(w, s, now, can);
    PathSetWithout(w.files, gone);
    var after := Decayed(w, s, now, can);
    var deleted := PathSet(w.files) - PathSet(after.files);
    assert forall f :: f in w.files ==> (f.path in gone <==> f.path in deleted);
    WithoutSame(w.files, gone, deleted);
  }

  /** The first two passes take these files: scratch that can go, and inputs at or past their time that can go. */
  predicate GoesEarly(f: File, s: Settings, now: int, can: Unlinks) {
    (Classify(f.path) == Ephemeral && f.path in can.scratch) ||
    (Classify(f.path) == Rebuildable && f.mtime + s.rebuildableTtl <= now && f.path in can.expired)
  }

  /** A pass with a rule leaves the files the rule does not select, and those that cannot go. */
  function Left(rule: File -> bool, can: set<Path>): File -> bool {
    (f: File) => !(rule(f) && f.path in can)
  }

  lemma PassExact(w: Workspace, rule: File -> bool, can: set<Path>)
    requires Closed(w) && PathsUnique(w.files)
    ensures var after := Sweep(w, Filter(rule, w.files), can);
      Closed(after) && PathsUnique(after.files) && after.files == Filter(Left(rule, can), w.files)
  {
    hide Closed, Sweep, Without;
    var targets := Filter(rule, w.files);
    SweepRemoves(w, targets, can);
    forall f | f in w.files
      ensures f.path in PathSet(targets) * can <==> !Left(rule, can)(f)
    {
      OnePerPath(w.files, f);
    }
    WithoutIsFilter(w.files, PathSet(targets) * can, Left(rule, can));
    WithoutUnique(w.files, PathSet(targets) * can);
  }

  function StaysEarly(s: Settings, now: int, can: Unlinks): File -> bool {
    (f: File) => !GoesEarly(f, s, now, can)
  }

  lemma StaysBothPasses(s: Settings, now: int, can: Unlinks, f: File)
    ensures StaysEarly(s, now, can)(f) <==>
      Left(OfClass(Ephemeral), can.scratch)(f) && Left(PastTime(now - s.rebuildableTtl), can.expired)(f)
  {
    hide Classify;
  }

  lemma EarlyFiles(w: Workspace, s: Settings, now: int, can: Unlinks)
    requires Closed(w) && PathsUnique(w.files)
    ensures AfterExpiry(w, now - s.rebuildableTtl, can).files == Filter(StaysEarly(s, now, can), w.files)
  {
    var cutoff := now - s.rebuildableTtl;
    var v := AfterScratch(w, can);
    hide Closed, Sweep, Filter, StaysEarly, Left, PathsUnique, OfClass, PastTime;
    PassExact(w, OfClass(Ephemeral), can.scratch);
    PassExact(v, PastTime(cutoff), can.expired);
    var one, two := Left(OfClass(Ephemeral), can.scratch), Left(PastTime(cutoff), can.expired);
    forall f: File
      ensures StaysEarly(s, now, can)(f) <==> one(f) && two(f)
    {
      StaysBothPasses(s, now, can, f);
    }
    FilterTwice(one, two, StaysEarly(s, now, can), w.files);
  }

  /** They leave exactly the other files, in their order; and that is all when both soft limits hold then. */
  lemma EarlyPassesExact(w: Workspace, s: Settings, now: int, can: Unlinks)
    requires Closed(w) && PathsUnique(w.files) && s.enabled
    ensures var rest := Filter(StaysEarly(s, now, can), w.files);
      && AfterExpiry(w, now - s.rebuildableTtl, can).files == rest
      && (Bytes(rest) <= s.soft.bytes && |rest| <= s.soft.files ==> Decayed(w, s, now, can).files == rest)
  {
    EarlyFiles(w, s, now, can);
    var rest := Filter(StaysEarly(s, now, can), w.files);
    hide Closed, AfterExpiry, Filter, StaysEarly, PathsUnique, Bytes, Decayed;
    assert Bytes(rest) <= s.soft.bytes && |rest| <= s.soft.files ==> Within(rest, s.soft);
    if Within(rest, s.soft) {
      UnpressedIsExpiry(w, s, now, can);
    }
  }

  lemma {:induction false} WithoutIsFilter(files: seq<File>, gone: set<Path>, keep: File -> bool)
    requires forall f :: f in files ==> (f.path in gone <==> !keep(f))
    ensures Without(files, gone) == Filter(keep, files)
  {
    if files != [] {
      assert files[0] in files;
      WithoutIsFilter(files[1..], gone, keep);
    }
  }

  /** Scratch, and inputs at or past their time, are left by the whole cleaning only when their removal fails. */
  lemma OverdueLeftOnlyStuck(w: Workspace, s: Settings, now: int, can: Unlinks, f: File)
    requires Closed(w) && PathsUnique(w.files) && s.enabled && f in Decayed(w, s, now, can).files
    ensures Classify(f.path) == Ephemeral ==> f.path !in can.scratch
    ensures Classify(f.path) == Rebuildable && f.mtime + s.rebuildableTtl <= now ==> f.path !in can.expired
  {
    hide Classify;
    assert f in AfterExpiry(w, now - s.rebuildableTtl, can).files by {
      DecayedIsLess(w, s, now, can, f);
    }
    EarlyFiles(w, s, now, can);
    hide Closed, AfterExpiry, Decayed, PathsUnique;
    assert StaysEarly(s, now, can)(f);
  }

  lemma DecayedIsLess(w: Workspace, s: Settings, now: int, can: Unlinks, f: File)
    requires Closed(w) && PathsUnique(w.files) && s.enabled && f in Decayed(w, s, now, can).files
    ensures f in AfterExpiry(w, now - s.rebuildableTtl, can).files
  {
    var v := AfterExpiry(w, now - s.rebuildableTtl, can);
    assert Decayed(w, s, now, can) == UnderPressure(v, can, s.soft) by {
      hide AfterExpiry, UnderPressure;
    }
    hide *;
    ExpiryUnique(w, now - s.rebuildableTtl, can);
    PressureIsLess(v, can, s.soft, f);
  }

  lemma PressureIsLess(v: Workspace, can: Unlinks, soft: Limit, f: File)
    requires Closed(v) && f in UnderPressure(v, can, soft).files
    ensures f in v.files
  {
    hide *;
    var g := PressureRemoves(v, can, soft);
    assert f in Without(v.files, g);
  }

  /** An input within its time is only lost when the first two passes left the workspace over a soft limit. */
  lemma YoungInputsNeedPressure(w: Workspace, s: Settings, now: int, can: Unlinks, f: File)
    requires Closed(w) && PathsUnique(w.files) && f in w.files && f.mtime > now - s.rebuildableTtl
    ensures Classify(f.path) == Rebuildable && f !in Decayed(w, s, now, can).files ==>
            s.enabled && !Within(AfterExpiry(w, now - s.rebuildableTtl, can).files, s.soft)
  {
    hide Classify, Closed, AfterExpiry, UnderPressure, PathsUnique;
    if s.enabled {
      var g := ExpiryRemoves(w, now - s.rebuildableTtl, can);
      OnePerPath(w.files, f);
      if Within(AfterExpiry(w, now - s.rebuildableTtl, can).files, s.soft) {
        UnpressedIsExpiry(w, s, now, can);
      }
    }
  }

  lemma UnpressedIsExpiry(w: Workspace, s: Settings, now: int, can: Unlinks)
    requires s.enabled && Within(AfterExpiry(w, now - s.rebuildableTtl, can).files, s.soft)
    ensures Decayed(w, s, now, can) == AfterExpiry(w, now - s.rebuildableTtl, can)
  {
    hide AfterExpiry, Within, Trim;
  }

  lemma OnePerPath(files: seq<File>, f: File)
    requires PathsUnique(files) && f in files
    ensures forall g :: g in files && g.path == f.path ==> g == f
  {
  }

  lemma EarlierIsOlder(order: seq<File>, k: nat, f: File, g: File)
    requires OldestFirst(order) && k <= |order|
    requires f in order[..k] && g in order && g !in order[..k]
    ensures Older(f, g)
  {
    hide Older;
    assert order == order[..k] + order[k..];
    var i :| 0 <= i < k && order[..k][i] == f;
    var j :| 0 <= j < |order| - k && order[k..][j] == g;
    assert order[i] == f && order[k + j] == g;
  }

  /** The same for a trim of any workspace: which inputs it took decides nothing but their age. */
  lemma TrimTakesOldest(v: Workspace, can: Unlinks, soft: Limit, f: File, g: File)
    requires Closed(v) && PathsUnique(v.files) && f in v.files && g in v.files && g.path in can.pressure
    ensures var after := UnderPressure(v, can, soft);
      Classify(g.path) == Rebuildable && f !in after.files && g in after.files ==> Older(f, g)
  {
    hide Classify, Closed, Sweep, Trim, Older, Within, Attempts, OldestFirst, PressureOrder, PathsUnique;
    var after := UnderPressure(v, can, soft);
    if Classify(g.path) == Rebuildable && f !in after.files && g in after.files {
      var order := PressureOrder(v);
      var k := Attempts(v, order, can.pressure, soft);
      TrimIsShortestSweep(v, order, can.pressure, soft);
      SweepRemoves(v, order[..k], can.pressure);
      var f' :| f' in order[..k] && f'.path == f.path;
      InOrder(v, f');
      OnePerPath(v.files, f);
      InOrder(v, g);
      PressureOrderSorted(v);
      EarlierIsOlder(order, k, f, g);
    }
  }

  lemma PressureOrderSorted(v: Workspace)
    ensures OldestFirst(PressureOrder(v))
  {
    SortByAgeSorted(Filter(OfClass(Rebuildable), v.files));
  }

  /** Under pressure inputs go from the oldest on: one that is gone precedes one that could have gone. */
  lemma OldestInputsFirst(w: Workspace, s: Settings, now: int, can: Unlinks, f: File, g: File)
    requires Closed(w) && PathsUnique(w.files) && s.enabled && g.path in can.pressure
    ensures var v, after := AfterExpiry(w, now - s.rebuildableTtl, can), Decayed(w, s, now, can);
      f in v.files && g in v.files && Classify(g.path) == Rebuildable && f !in after.files && g in after.files ==>
        Older(f, g)
  {
    hide Classify, Closed, Older, AfterExpiry, UnderPressure, PathsUnique;
    ExpiryUnique(w, now - s.rebuildableTtl, can);
    var v := AfterExpiry(w, now - s.rebuildableTtl, can);
    if f in v.files && g in v.files {
      TrimTakesOldest(v, can, s.soft, f, g);
    }
  }

  lemma ExpiryUnique(w: Workspace, cutoff: int, can: Unlinks)
    requires Closed(w) && PathsUnique(w.files)
    ensures Closed(AfterExpiry(w, cutoff, can)) && PathsUnique(AfterExpiry(w, cutoff, can).files)
  {
    hide Classify, Closed, AfterExpiry;
    var g := ExpiryRemoves(w, cutoff, can);
    WithoutUnique(w.files, g);
  }

  lemma {:induction false} WithoutUnique(files: seq<File>, gone: set<Path>)
    requires PathsUnique(files)
    ensures PathsUnique(Without(files, gone))
  {
    if files != [] {
      WithoutUnique(files[1..], gone);
      assert forall g :: g in Without(files[1..], gone) ==> g.path != files[0].path;
    }
  }

  // ---------------------------------------------------------------- when every unlink works

  ghost predicate AllUnlinksWork(w: Workspace, can: Unlinks) {
    PathSet(w.files) <= can.scratch && PathSet(w.files) <= can.expired && PathSet(w.files) <= can.pressure
  }

  predicate LimitLeq(a: Limit, b: Limit) {
    a.bytes <= b.bytes && a.files <= b.files
  }

  function Protected(): File -> bool {
    (f: File) => !Disposable(f.path)
  }

  /** No scratch file and no expired input is left, and no input at all unless the soft limits hold. */
  lemma DecayFinishes(w: Workspace, s: Settings, now: int, can: Unlinks)
    requires Closed(w) && s.enabled && AllUnlinksWork(w, can)
    ensures var after := Decayed(w, s, now, can);
      && (forall f :: f in after.files ==> Classify(f.path) != Ephemeral)
      && (forall f :: f in after.files && Classify(f.path) == Rebuildable ==> f.mtime > now - s.rebuildableTtl)
      && (Within(after.files, s.soft) || forall f :: f in after.files ==> Classify(f.path) != Rebuildable)
  {
    hide Classify, Closed, AfterExpiry, UnderPressure, Within;
    var g := ExpiryRemoves(w, now - s.rebuildableTtl, can);
    var v := AfterExpiry(w, now - s.rebuildableTtl, can);
    var g3 := PressureRemoves(v, can, s.soft);
    PressureFinishes(v, can, s.soft);
  }

  lemma PressureFinishes(v: Workspace, can: Unlinks, soft: Limit)
    requires Closed(v) && PathSet(v.files) <= can.pressure
    ensures var after := UnderPressure(v, can, soft);
      Within(after.files, soft) || forall f :: f in after.files ==> Classify(f.path) != Rebuildable
  {
    hide Classify, Closed, Sweep, Trim, Within, Attempts, PressureOrder;
    if !Within(v.files, soft) {
      var order := PressureOrder(v);
      var after := UnderPressure(v, can, soft);
      TrimIsShortestSweep(v, order, can.pressure, soft);
      if !Within(after.files, soft) {
        assert order[..|order|] == order;
        SweepRemoves(v, order, can.pressure);
        forall f | f in after.files
          ensures Classify(f.path) != Rebuildable
        {
          InOrder(v, f);
        }
      }
    }
  }

  lemma {:induction false} FilterIsWithout(files: seq<File>, unprotected: set<Path>)
    requires forall f :: f in files ==> (f.path in unprotected <==> Disposable(f.path))
    ensures Filter(Protected(), files) == Without(files, unprotected)
  {
    hide Disposable;
    if files != [] {
      FilterIsWithout(files[1..], unprotected);
    }
  }

  /** Survivors of removing some disposable files weigh at least what the protected files weigh. */
  lemma {:induction false} ProtectedLighter(files: seq<File>, gone: set<Path>, limit: Limit)
    requires forall p :: p in gone ==> Disposable(p)
    ensures Within(Without(files, gone), limit) ==> Within(Filter(Protected(), files), limit)
    ensures (forall f :: f in Without(files, gone) ==> !Disposable(f.path)) ==>
            Without(files, gone) == Filter(Protected(), files)
  {
    hide Disposable, Bytes;
    var unprotected := set f | f in files && Disposable(f.path) :: f.path;
    FilterIsWithout(files, unprotected);
    WithoutShrinks(files, unprotected, gone);
    if forall f :: f in Without(files, gone) ==> !Disposable(f.path) {
      forall f | f in files
        ensures f.path in gone <==> f.path in unprotected
      {
        if f.path !in gone {
          assert f in Without(files, gone);
        }
      }
      WithoutSame(files, gone, unprotected);
    }
  }

  /**
   With soft limits no higher than the hard ones, a cleaning whose unlinks all work raises exactly when
   the durable and stateful files alone are over a hard limit.
   */
  lemma RaisesOnlyWhenForced(w: Workspace, s: Settings, now: int, can: Unlinks)
    requires Closed(w) && s.enabled && AllUnlinksWork(w, can) && LimitLeq(s.soft, s.hard)
    ensures Report(w, Decayed(w, s, now, can), s).LimitExceeded? <==> !Within(Filter(Protected(), w.files), s.hard)
  {
    hide Classify, Closed, Decayed, Bytes, Filter, Without;
    var after := Decayed(w, s, now, can);
    var gone := DecayRemoves(w, s, now, can);
    DecayFinishes(w, s, now, can);
    ProtectedLighter(w.files, gone, s.hard);
    assert Within(after.files, s.soft) ==> Within(after.files, s.hard);
  }

  // ---------------------------------------------------------------- soft limits above the hard ones

  function Letters(n: nat): (r: string)
    ensures |r| == n && forall i :: 0 <= i < n ==> r[i] == 'a'
  {
    if n == 0 then "" else Letters(n - 1) + "a"
  }

  /** Equal inputs in number. */
  function Inputs(count: nat, size: nat, mtime: int): (r: seq<File>)
    ensures |r| == count
    ensures forall i :: 0 <= i < count ==> r[i] == File(["input", Letters(i + 1)], size, mtime)
  {
    if count == 0 then []
    else Inputs(count - 1, size, mtime) + [File(["input", Letters(count)], size, mtime)]
  }

  function InputFolder(count: nat, size: nat, mtime: int): Workspace {
    Workspace(Inputs(count, size, mtime), {["input"]})
  }

  lemma {:induction false} LettersAreInput(n: nat)
    requires n > 0
    ensures Classify(["input", Letters(n)]) == Rebuildable
  {
    var name := Letters(n);
    var p := ["input", name];
    LowerFixed("input");
    LowerFixed(name);
    LettersPlain(name);
    hide Lower, LowerPath, Letters, ClassifySeen;
    assert LowerPath(p) == p;
    PlainInput(name);
  }

  lemma PlainInput(name: string)
    requires name != "" && name[0] == 'a' && !ThrowawayName(name)
    ensures Rooted(["input", name]) == ["input", name]
    ensures ClassifySeen(["input", name]) == Rebuildable
  {
    hide ThrowawayName;
    assert |"input"| == 5 && |"workspace"| == 9 && |".linx_runtime"| == 13 && |"__pycache__"| == 11 && |"logs"| == 4;
    assert "tasks"[0] == 't';
    assert "__pycache__"[0] == '_';
  }

  lemma LettersPlain(name: string)
    requires name != "" && forall i :: 0 <= i < |name| ==> name[i] == 'a'
    ensures !ThrowawayName(name)
  {
    assert name[0] == 'a' && name[|name| - 1] == 'a';
    assert ".log"[3] == 'g' && ".tmp"[3] == 'p' && ".temp"[4] == 'p' && ".pyc"[3] == 'c' && ".pyo"[3] == 'o';
    assert !EndsWith(name, ".log") && !EndsWith(name, ".tmp") && !EndsWith(name, ".temp");
    assert !EndsWith(name, ".pyc") && !EndsWith(name, ".pyo");
  }

  lemma {:induction false} InputBytes(count: nat, size: nat, mtime: int)
    ensures Bytes(Inputs(count, size, mtime)) == count * size
  {
    if count > 0 {
      InputBytes(count - 1, size, mtime);
      BytesSnoc(Inputs(count - 1, size, mtime), File(["input", Letters(count)], size, mtime));
    }
  }

  lemma InputFolderClosed(count: nat, size: nat, mtime: int)
    ensures Closed(InputFolder(count, size, mtime)) && PathsUnique(InputFolder(count, size, mtime).files)
    ensures forall f :: f in InputFolder(count, size, mtime).files ==>
      Classify(f.path) == Rebuildable && f.mtime == mtime
  {
    hide Classify, Letters;
    var files := Inputs(count, size, mtime);
    forall i | 0 <= i < count
      ensures Classify(files[i].path) == Rebuildable
    {
      LettersAreInput(i + 1);
    }
    forall i, j | 0 <= i < j < count
      ensures files[i].path != files[j].path
    {
      assert |files[i].path[1]| != |files[j].path[1]|;
    }
    forall f | f in files
      ensures |f.path| == 2 && f.path[..1] == ["input"]
    {
    }
  }

  /** Young inputs within the soft limits are left alone. */
  lemma LeftAlone(w: Workspace, s: Settings, now: int, can: Unlinks)
    requires Within(w.files, s.soft)
    requires forall f :: f in w.files ==> Classify(f.path) == Rebuildable && f.mtime > now - s.rebuildableTtl
    ensures Decayed(w, s, now, can) == w
  {
    hide Classify, Within;
    FilterNone(OfClass(Ephemeral), w.files);
    FilterNone(PastTime(now - s.rebuildableTtl), w.files);
  }

  /** A folder of young inputs under the soft limits and over a hard one: it raises though deleting inputs would do. */
  lemma RaisesUnforced(s: Settings, now: int, count: nat, size: nat, can: Unlinks)
    requires s.enabled && count * size <= s.soft.bytes && count <= s.soft.files
    requires count * size > s.hard.bytes || count > s.hard.files
    ensures var w := InputFolder(count, size, now - s.rebuildableTtl + 1);
      && Closed(w) && PathsUnique(w.files)
      && Report(w, Decayed(w, s, now, can), s).LimitExceeded?
      && Within(Filter(Protected(), w.files), s.hard)
  {
    hide Classify, Letters, Inputs, Closed, PathsUnique;
    var mtime := now - s.rebuildableTtl + 1;
    var w := InputFolder(count, size, mtime);
    InputFolderClosed(count, size, mtime);
    InputBytes(count, size, mtime);
    LeftAlone(w, s, now, can);
    FilterNone(Protected(), w.files);
  }

  ghost predicate NeverRaisesUnforced(s: Settings, now: int) {
    forall w, can :: Closed(w) && PathsUnique(w.files) && AllUnlinksWork(w, can) ==>
      Report(w, Decayed(w, s, now, can), s).LimitExceeded? ==> !Within(Filter(Protected(), w.files), s.hard)
  }

  /** Nothing in the settings keeps a soft limit below its hard one, and that is exactly what is needed. */
  lemma ForcedIff(s: Settings, now: int)
    requires s.enabled && s.soft.files > 0
    ensures NeverRaisesUnforced(s, now) <==> LimitLeq(s.soft, s.hard)
  {
    hide Classify, Closed, PathsUnique, Decayed, Within, Filter, Report, Inputs;
    if LimitLeq(s.soft, s.hard) {
      forall w, can | Closed(w) && PathsUnique(w.files) && AllUnlinksWork(w, can)
        ensures Report(w, Decayed(w, s, now, can), s).LimitExceeded? ==> !Within(Filter(Protected(), w.files), s.hard)
      {
        RaisesOnlyWhenForced(w, s, now, can);
      }
    } else {
      var count, size := 1, s.hard.bytes + 1;
      if s.soft.bytes <= s.hard.bytes {
        count, size := s.hard.files + 1, 0;
      }
      var w := InputFolder(count, size, now - s.rebuildableTtl + 1);
      var all := PathSet(w.files);
      var can := Unlinks(all, all, all);
      RaisesUnforced(s, now, count, size, can);
      assert AllUnlinksWork(w, can);
    }
  }

  // ---------------------------------------------------------------- empty directories

  /** Some file or directory lies directly in d. */
  ghost predicate Occupied(w: Workspace, d: Path) {
    (exists f :: f in w.files && |f.path| == |d| + 1 && f.path[..|d|] == d) ||
    (exists e :: e in w.dirs && |e| == |d| + 1 && e[..|d|] == d)
  }

  lemma OccupiedIff(w: Workspace, d: Path)
    ensures HasEntry(w, d) <==> Occupied(w, d)
  {
  }

  /** No directory is empty, that one perhaps excepted. */
  ghost predicate OccupiedBut(w: Workspace, d: Path) {
    forall e :: e in w.dirs && e != d ==> Occupied(w, e)
  }

  ghost predicate NoneEmpty(w: Workspace) {
    forall e :: e in w.dirs ==> Occupied(w, e)
  }

  lemma {:induction false} PruneUpLeavesNone(w: Workspace, d: Path, can: set<Path>)
    requires Closed(w) && OccupiedBut(w, d) && w.dirs <= can
    requires d != [] ==> d in w.dirs
    ensures NoneEmpty(PruneUp(w, d, can))
    decreases |d|
  {
    hide Occupied, HasEntry;
    OccupiedIff(w, d);
    if d != [] && !HasEntry(w, d) {
      var v := w.(dirs := w.dirs - {d});
      assert Closed(v) by { EmptyIsNoAncestor(w, d); }
      forall e | e in v.dirs && e != Parent(d)
        ensures Occupied(v, e)
      {
        StillOccupied(w, d, e);
      }
      assert Parent(d) == d[..|d| - 1];
      PruneUpLeavesNone(v, Parent(d), can);
    }
  }

  /** Removing one directory empties its parent at most. */
  lemma StillOccupied(w: Workspace, d: Path, e: Path)
    requires d != [] && Occupied(w, e) && e != Parent(d)
    ensures Occupied(w.(dirs := w.dirs - {d}), e)
  {
  }

  lemma AttemptLeavesNone(w: Workspace, p: Path, can: set<Path>)
    requires Closed(w) && NoneEmpty(w) && w.dirs <= can
    ensures NoneEmpty(Attempt(w, p, can))
  {
    hide Closed, Occupied, PruneUp;
    if p != [] && p in PathSet(w.files) && p in can {
      var v := w.(files := Without(w.files, {p}));
      WithoutStillClosed(w, p);
      forall e | e in v.dirs && e != Parent(p)
        ensures Occupied(v, e)
      {
        FileGoneStillOccupied(w, p, e);
      }
      PruneUpLeavesNone(v, Parent(p), can);
    }
  }

  lemma WithoutStillClosed(w: Workspace, p: Path)
    requires Closed(w) && p != [] && p in PathSet(w.files)
    ensures Closed(w.(files := Without(w.files, {p}))) && (Parent(p) != [] ==> Parent(p) in w.dirs)
  {
    var f :| f in w.files && f.path == p;
    assert |p| > 1 ==> f.path[..|p| - 1] in w.dirs;
  }

  lemma FileGoneStillOccupied(w: Workspace, p: Path, e: Path)
    requires p != [] && Occupied(w, e) && e != Parent(p)
    ensures Occupied(w.(files := Without(w.files, {p})), e)
  {
    if f :| f in w.files && |f.path| == |e| + 1 && f.path[..|e|] == e {
      assert f in Without(w.files, {p});
    }
  }

  lemma {:induction false} SweepLeavesNone(w: Workspace, targets: seq<File>, can: set<Path>)
    requires Closed(w) && NoneEmpty(w) && w.dirs <= can
    ensures NoneEmpty(Sweep(w, targets, can)) && Closed(Sweep(w, targets, can)) && Sweep(w, targets, can).dirs <= w.dirs
    decreases |targets|
  {
    hide Closed, NoneEmpty, Attempt;
    if targets != [] {
      AttemptLeavesNone(w, targets[0].path, can);
      AttemptKeeps(w, targets[0].path, can);
      SweepLeavesNone(Attempt(w, targets[0].path, can), targets[1..], can);
    }
  }

  /** A cleaning whose rmdirs all work leaves no directory empty that was not empty before. */
  lemma NoneLeftEmpty(w: Workspace, s: Settings, now: int, can: Unlinks)
    requires Closed(w) && NoneEmpty(w)
    requires w.dirs <= can.scratch && w.dirs <= can.expired && w.dirs <= can.pressure
    ensures NoneEmpty(Decayed(w, s, now, can))
  {
    hide *;
    DecayedIs(w, s, now, can);
    if s.enabled {
      ExpiryLeavesNone(w, now - s.rebuildableTtl, can);
      PressureLeavesNone(AfterExpiry(w, now - s.rebuildableTtl, can), can, s.soft);
    }
  }

  lemma DecayedIs(w: Workspace, s: Settings, now: int, can: Unlinks)
    ensures Decayed(w, s, now, can) ==
            if s.enabled then UnderPressure(AfterExpiry(w, now - s.rebuildableTtl, can), can, s.soft) else w
  {
    hide AfterExpiry, UnderPressure;
  }

  lemma ExpiryLeavesNone(w: Workspace, cutoff: int, can: Unlinks)
    requires Closed(w) && NoneEmpty(w) && w.dirs <= can.scratch && w.dirs <= can.expired
    ensures var u := AfterExpiry(w, cutoff, can); NoneEmpty(u) && Closed(u) && u.dirs <= w.dirs
  {
    var v := AfterScratch(w, can);
    hide Closed, NoneEmpty, Sweep, Filter, OfClass, PastTime;
    SweepLeavesNone(w, Filter(OfClass(Ephemeral), w.files), can.scratch);
    SweepLeavesNone(v, Filter(PastTime(cutoff), v.files), can.expired);
  }

  lemma PressureLeavesNone(u: Workspace, can: Unlinks, soft: Limit)
    requires Closed(u) && NoneEmpty(u) && u.dirs <= can.pressure
    ensures NoneEmpty(UnderPressure(u, can, soft))
  {
    hide Closed, NoneEmpty, Sweep, Trim, Attempts, PressureOrder, Within;
    var order := PressureOrder(u);
    var k := Attempts(u, order, can.pressure, soft);
    TrimIsShortestSweep(u, order, can.pressure, soft);
    SweepLeavesNone(u, order[..k], can.pressure);
  }

  // ---------------------------------------------------------------- the cleaning itself

  /** What was deleted and what is left divide what there was. */
  ghost predicate Accounts(before: seq<File>, deleted: set<Path>, after: seq<File>) {
    deleted + PathSet(after) == PathSet(before) && deleted !! PathSet(after)
  }

  lemma AccountsChain(a: seq<File>, d: set<Path>, b: seq<File>, e: set<Path>, c: seq<File>)
    requires Accounts(a, d, b) && Accounts(b, e, c)
    ensures Accounts(a, d + e, c) && d + e == PathSet(a) - PathSet(c)
  {
  }

  lemma SweepNext(w: Workspace, states: seq<File>, i: nat, rule: File -> bool, can: set<Path>)
    requires i < |states|
    ensures var rest := Sweep(w, Filter(rule, states[i..]), can);
      if rule(states[i]) then rest == Sweep(Attempt(w, states[i].path, can), Filter(rule, states[i + 1..]), can)
      else rest == Sweep(w, Filter(rule, states[i + 1..]), can)
  {
    hide Attempt;
    var later := Filter(rule, states[i + 1..]);
    assert states[i..][1..] == states[i + 1..];
    if rule(states[i]) {
      assert ([states[i]] + later)[1..] == later;
    } else {
      assert [] + later == later;
    }
  }

  /** The result, field by field. */
  lemma ReportMeans(before: Workspace, after: Workspace, s: Settings)
    requires exists deleted :: Accounts(before.files, deleted, after.files)
    ensures var outcome := Report(before, after, s);
      && (outcome.LimitExceeded? <==> s.enabled && (Bytes(after.files) > s.hard.bytes || |after.files| > s.hard.files))
      && (outcome.Cleaned? ==>
            && outcome.totalBytes == Bytes(after.files) && outcome.totalFiles == |after.files|
            && Accounts(before.files, outcome.deleted, after.files)
            && forall p :: p in outcome.excluded <==>
                 (p in after.dirs || exists f :: f in after.files && f.path == p) && Classify(p) == Ephemeral)
  {
    hide Classify, Bytes;
  }

  class WorkspaceFolder {
    var files: seq<File>
    var dirs: set<Path>

    constructor (files: seq<File>, dirs: set<Path>)
      requires Closed(Workspace(files, dirs))
      ensures Valid() && Contents() == Workspace(files, dirs)
    {
      this.files, this.dirs := files, dirs;
    }

    ghost predicate Valid()
      reads this
    {
      Closed(Contents())
    }

    function Contents(): Workspace
      reads this
    {
      Workspace(files, dirs)
    }

    /** _delete_path: the file, then every directory above it that has become empty. */
    method DeletePath(p: Path, can: set<Path>) returns (deleted: bool)
      requires Valid()
      modifies this
      ensures deleted <==> p in can && p in PathSet(old(files))
      ensures Contents() == if deleted then Unlinked(old(Contents()), p, can) else old(Contents())
      ensures Valid() && files == if deleted then Without(old(files), {p}) else old(files)
    {
      if p !in can || p !in PathSet(files) {
        return false;
      }
      UnlinkedKeeps(Contents(), p, can);
      files := Without(files, {p});
      ghost var mid := Contents();
      var current := Parent(p);
      while current != [] && !HasEntry(Contents(), current) && current in can
        invariant PruneUp(Contents(), current, can) == PruneUp(mid, Parent(p), can)
        decreases |current|
      {
        dirs := dirs - {current};
        current := Parent(current);
      }
      deleted := true;
    }

    /** One attempt of a loop, with the path it took off the listing if any. */
    method Try(p: Path, can: set<Path>) returns (gone: set<Path>)
      requires Valid()
      modifies this
      ensures Valid() && Contents() == Attempt(old(Contents()), p, can)
      ensures Accounts(old(files), gone, files)
    {
      hide Unlinked;
      ClosedPaths(Contents());
      PathSetWithout(files, {p});
      var deleted := DeletePath(p, can);
      gone := if deleted then {p} else {};
    }

    /** The first two loops: every listed file the rule selects is tried once. */
    method DeleteMatching(rule: File -> bool, can: set<Path>) returns (deleted: set<Path>)
      requires Valid()
      modifies this
      ensures Valid() && Contents() == Sweep(old(Contents()), Filter(rule, old(files)), can)
      ensures Accounts(old(files), deleted, files)
    {
      hide Sweep, Filter, Attempt, Accounts, Closed;
      var states := files;
      deleted := {};
      assert states[0..] == states;
      assert Accounts(files, {}, files) by { AccountsNothing(files); }
      var i := 0;
      while i < |states|
        invariant i <= |states| && Valid()
        invariant Sweep(Contents(), Filter(rule, states[i..]), can) == Sweep(old(Contents()), Filter(rule, states), can)
        invariant Accounts(old(files), deleted, files)
      {
        SweepNext(Contents(), states, i, rule, can);
        if rule(states[i]) {
          ghost var before := files;
          var gone := Try(states[i].path, can);
          AccountsChain(old(files), deleted, before, gone, files);
          deleted := deleted + gone;
        }
        i := i + 1;
      }
      assert states[i..] == [];
      SweepNone(Contents(), rule, can);
    }
  }

  lemma AccountsNothing(files: seq<File>)
    ensures Accounts(files, {}, files)
  {
  }

  lemma SweepNone(w: Workspace, rule: File -> bool, can: set<Path>)
    ensures Sweep(w, Filter(rule, []), can) == w
  {
  }

  /** _totals */
  method Totals(states: seq<File>) returns (totalBytes: nat, totalFiles: nat)
    ensures totalBytes == Bytes(states) && totalFiles == |states|
  {
    totalBytes, totalFiles := 0, 0;
    for i := 0 to |states|
      invariant totalBytes == Bytes(states[..i]) && totalFiles == i
    {
      BytesSnoc(states[..i], states[i]);
      assert states[..i + 1] == states[..i] + [states[i]];
      totalBytes := totalBytes + states[i].size;
      totalFiles := totalFiles + 1;
    }
    assert states[..|states|] == states;
  }

  /** The loop under pressure: oldest first, until a state within both soft limits. */
  method DeleteOldest(folder: WorkspaceFolder, can: set<Path>, soft: Limit) returns (deleted: set<Path>)
    requires folder.Valid()
    modifies folder
    ensures folder.Valid()
    ensures folder.Contents() == Trim(old(folder.Contents()), PressureOrder(old(folder.Contents())), can, soft)
    ensures Accounts(old(folder.files), deleted, folder.files)
  {
    hide Attempt, Accounts, Closed, Bytes, PressureOrder;
    var states := PressureOrder(folder.Contents());
    deleted := {};
    assert states[0..] == states;
    AccountsNothing(folder.files);
    var i := 0;
    while i < |states|
      invariant i <= |states| && folder.Valid()
      invariant Trim(folder.Contents(), states[i..], can, soft) == Trim(old(folder.Contents()), states, can, soft)
      invariant Accounts(old(folder.files), deleted, folder.files)
    {
      ghost var before := folder.files;
      var gone := folder.Try(states[i].path, can);
      AccountsChain(old(folder.files), deleted, before, gone, folder.files);
      deleted := deleted + gone;
      assert states[i..][0] == states[i] && states[i..][1..] == states[i + 1..];
      var totalBytes, totalFiles := Totals(folder.files);
      if totalBytes <= soft.bytes && totalFiles <= soft.files {
        return;
      }
      i := i + 1;
    }
  }

  /** decay_workspace */
  method DecayWorkspace(folder: WorkspaceFolder, s: Settings, now: int, can: Unlinks) returns (outcome: Outcome)
    requires folder.Valid()
    modifies folder
    ensures folder.Valid()
    ensures folder.Contents() == Decayed(old(folder.Contents()), s, now, can)
    ensures outcome == Report(old(folder.Contents()), folder.Contents(), s)
    ensures outcome.LimitExceeded? <==>
      s.enabled && (Bytes(folder.files) > s.hard.bytes || |folder.files| > s.hard.files)
    ensures outcome.Cleaned? ==>
      && outcome.totalBytes == Bytes(folder.files) && outcome.totalFiles == |folder.files|
      && Accounts(old(folder.files), outcome.deleted, folder.files)
      && forall p :: p in outcome.excluded <==>
           (p in folder.dirs || exists f :: f in folder.files && f.path == p) && Classify(p) == Ephemeral
  {
    hide Closed, Bytes, Sweep, Trim, PressureOrder, ScratchPaths, Accounts, Filter;
    AccountsNothing(folder.files);
    AccountsChain(folder.files, {}, folder.files, {}, folder.files);
    var totalBytes, totalFiles := Totals(folder.files);
    if !s.enabled {
      ReportMeans(old(folder.Contents()), folder.Contents(), s);
      return Cleaned(totalBytes, totalFiles, {}, ScratchPaths(folder.Contents()));
    }
    var deleted := folder.DeleteMatching(OfClass(Ephemeral), can.scratch);
    ghost var second := folder.files;
    var more := folder.DeleteMatching(PastTime(now - s.rebuildableTtl), can.expired);
    ghost var third := folder.files;
    AccountsChain(old(folder.files), deleted, second, more, third);
    deleted := deleted + more;
    totalBytes, totalFiles := Totals(folder.files);
    if totalBytes > s.soft.bytes || totalFiles > s.soft.files {
      more := DeleteOldest(folder, can.pressure, s.soft);
      AccountsChain(old(folder.files), deleted, third, more, folder.files);
      deleted := deleted + more;
    }
    assert Accounts(old(folder.files), deleted, folder.files);
    ReportMeans(old(folder.Contents()), folder.Contents(), s);
    totalBytes, totalFiles := Totals(folder.files);
    if totalBytes > s.hard.bytes || totalFiles > s.hard.files {
      return LimitExceeded;
    }
    outcome := Cleaned(totalBytes, totalFiles, deleted, ScratchPaths(folder.Contents()));
  }
}
