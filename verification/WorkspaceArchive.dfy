/**
 Storing a workspace: the recursive walk that fills the archive and prunes at an excluded directory,
 the flat walk that fills the manifest, and extraction into an empty directory.
 */
module WorkspaceArchive {
  import opened Common
  import opened WorkspacePaths
  import Decay = WorkspaceDecay

  type Data = string

  /** A directory listing: its entries one after the other, a folder with its own listing. */
  datatype Listing =
    | End
    | File(name: Name, data: Data, next: Listing)
    | Folder(name: Name, inside: Listing, next: Listing)

  /** One archive member or listed path; a directory has no content. */
  datatype Member = Member(path: Path, content: Option<Data>)

  predicate TextLess(a: string, b: string) {
    a != b && TextLeq(a, b)
  }

  /** Listings are sorted by name, so names differ; names are plain at every level. */
  ghost predicate WellFormed(l: Listing) {
    match l
    case End => true
    case File(n, _, next) => PlainName(n) && NamesAfter(n, next) && WellFormed(next)
    case Folder(n, inside, next) => PlainName(n) && NamesAfter(n, next) && WellFormed(inside) && WellFormed(next)
  }

  ghost predicate NamesAfter(n: Name, l: Listing) {
    l.End? || (TextLess(n, l.name) && NamesAfter(n, l.next))
  }

  /** Everything below a directory, each directory before its contents. */
  function List(l: Listing, prefix: Path): seq<Member> {
    match l
    case End => []
    case File(n, data, next) => [Member(prefix + [n], Some(data))] + List(next, prefix)
    case Folder(n, inside, next) =>
      [Member(prefix + [n], None)] + List(inside, prefix + [n]) + List(next, prefix)
  }

  // ---------------------------------------------------------------- exclusion

  /** The excluded texts as both walks see them. */
  function NormalizedSet(paths: set<string>): set<string> {
    set p | p in paths && p != "" :: NormalizeArchivePath(p)
  }

  /** _is_excluded_relative_path */
  predicate IsExcluded(text: string, excluded: set<string>) {
    var n := NormalizeArchivePath(text);
    n != "" && exists e | e in excluded :: Covers(e, n)
  }

  /** What is below an excluded path is excluded. */
  lemma ExcludedBelow(p: Path, n: Name, excluded: set<string>)
    requires PlainPath(p) && PlainName(n) && IsExcluded(PathText(p), excluded)
    ensures IsExcluded(PathText(p + [n]), excluded)
  {
    hide NormalizeArchivePath, Join, PlainName;
    assert PlainPath(p + [n]);
    NormalizePlain(p);
    NormalizePlain(p + [n]);
    JoinSnoc(p, n);
    var e :| e in excluded && Covers(e, Join(p));
    CoversExtended(e, Join(p), "/" + n);
    assert Join(p + [n]) == Join(p) + ("/" + n);
    hide Covers;
    assert Covers(e, Join(p + [n]));
  }

  lemma CoversExtended(e: string, s: string, tail: string)
    requires Covers(e, s) && tail != "" && tail[0] == '/'
    ensures Covers(e, s + tail)
  {
    if s == e {
      assert e + "/" <= s + tail;
    }
  }

  // ---------------------------------------------------------------- the two walks

  /** archive.add: a path the filter refuses is left out with everything below it. */
  function Walk(l: Listing, prefix: Path, excluded: set<string>): seq<Member> {
    match l
    case End => []
    case File(n, data, next) =>
      (if IsExcluded("./" + Join(prefix + [n]), excluded) then [] else [Member(prefix + [n], Some(data))])
      + Walk(next, prefix, excluded)
    case Folder(n, inside, next) =>
      (if IsExcluded("./" + Join(prefix + [n]), excluded) then []
       else [Member(prefix + [n], None)] + Walk(inside, prefix + [n], excluded))
      + Walk(next, prefix, excluded)
  }

  /** The manifest's test, path by path. */
  function Keep(ms: seq<Member>, excluded: set<string>): (r: seq<Member>)
    ensures forall m :: m in r <==> m in ms && !IsExcluded(PathText(m.path), excluded)
  {
    if ms == [] then []
    else (if IsExcluded(PathText(ms[0].path), excluded) then [] else [ms[0]]) + Keep(ms[1..], excluded)
  }

  lemma {:induction false} KeepConcat(a: seq<Member>, b: seq<Member>, excluded: set<string>)
    ensures Keep(a + b, excluded) == Keep(a, excluded) + Keep(b, excluded)
  {
    hide IsExcluded, PathText;
    if a == [] {
      assert a + b == b;
    } else {
      assert (a + b)[1..] == a[1..] + b;
      KeepConcat(a[1..], b, excluded);
    }
  }

  lemma {:induction false} KeepNone(ms: seq<Member>, excluded: set<string>)
    requires forall m :: m in ms ==> IsExcluded(PathText(m.path), excluded)
    ensures Keep(ms, excluded) == []
  {
    hide IsExcluded, PathText;
    if ms != [] {
      KeepNone(ms[1..], excluded);
    }
  }

  ghost predicate PlainOrRoot(prefix: Path) {
    prefix == [] || PlainPath(prefix)
  }

  lemma PlainSnoc(prefix: Path, n: Name)
    requires PlainOrRoot(prefix) && PlainName(n)
    ensures PlainPath(prefix + [n])
  {
    hide PlainName;
  }

  /** Everything listed below an excluded directory is excluded. */
  lemma {:induction false} AllBelowExcluded(l: Listing, p: Path, excluded: set<string>)
    requires WellFormed(l) && PlainPath(p) && IsExcluded(PathText(p), excluded)
    ensures forall m :: m in List(l, p) ==> IsExcluded(PathText(m.path), excluded)
    decreases l
  {
    hide IsExcluded, PathText, PlainName, PlainPath;
    if !l.End? {
      ExcludedBelow(p, l.name, excluded);
      PlainSnoc(p, l.name);
      AllBelowExcluded(l.next, p, excluded);
      if l.Folder? {
        AllBelowExcluded(l.inside, p + [l.name], excluded);
      }
    }
  }

  lemma NormalizesAlike(p: Path, excluded: set<string>)
    requires PlainPath(p)
    ensures IsExcluded("./" + Join(p), excluded) <==> IsExcluded(PathText(p), excluded)
  {
    hide NormalizeArchivePath, Join;
    NormalizePlain(p);
  }

  /** The pruning walk keeps exactly what the flat test keeps, in the same order. */
  lemma {:induction false} WalkIsFlat(l: Listing, prefix: Path, excluded: set<string>)
    requires WellFormed(l) && PlainOrRoot(prefix)
    ensures Walk(l, prefix, excluded) == Keep(List(l, prefix), excluded)
    decreases l, 0
  {
    hide IsExcluded, PathText, Join, PlainName, PlainPath, Keep;
    if l.End? {
      KeepNone([], excluded);
    } else {
      var p := prefix + [l.name];
      PlainSnoc(prefix, l.name);
      NormalizesAlike(p, excluded);
      WalkIsFlat(l.next, prefix, excluded);
      var rest := List(l.next, prefix);
      if l.File? {
        var head := [Member(p, Some(l.data))];
        KeepConcat(head, rest, excluded);
        KeepOne(head[0], excluded);
      } else {
        WalkFolder(p, l.inside, excluded);
        KeepConcat([Member(p, None)] + List(l.inside, p), rest, excluded);
      }
    }
  }

  lemma KeepOne(m: Member, excluded: set<string>)
    ensures Keep([m], excluded) == if IsExcluded(PathText(m.path), excluded) then [] else [m]
  {
    hide IsExcluded, PathText;
    assert [m][1..] == [];
  }

  lemma {:induction false} WalkFolder(p: Path, inside: Listing, excluded: set<string>)
    requires WellFormed(inside) && PlainPath(p)
    ensures Keep([Member(p, None)] + List(inside, p), excluded) ==
            if IsExcluded(PathText(p), excluded) then [] else [Member(p, None)] + Walk(inside, p, excluded)
    decreases inside, 1
  {
    hide IsExcluded, PathText, Join, PlainName, PlainPath, Keep, Walk;
    KeepConcat([Member(p, None)], List(inside, p), excluded);
    KeepOne(Member(p, None), excluded);
    if IsExcluded(PathText(p), excluded) {
      AllBelowExcluded(inside, p, excluded);
      KeepNone(List(inside, p), excluded);
    } else {
      WalkIsFlat(inside, p, excluded);
    }
  }

  // ---------------------------------------------------------------- the order of the manifest

  /** Paths compare component by component; a directory comes before its contents. */
  predicate PathLess(a: Path, b: Path) {
    b != [] && (a == [] || TextLess(a[0], b[0]) || (a[0] == b[0] && PathLess(a[1..], b[1..])))
  }

  lemma {:induction false} PathIrreflexive(a: Path)
    ensures !PathLess(a, a)
  {
    if a != [] {
      PathIrreflexive(a[1..]);
    }
  }

  lemma TextLessTransitive(a: string, b: string, c: string)
    requires TextLess(a, b) && TextLess(b, c)
    ensures TextLess(a, c)
  {
    TextTransitive(a, b, c);
    if a == c {
      TextAntisymmetric(a, b);
    }
  }

  lemma {:induction false} PathTransitive(a: Path, b: Path, c: Path)
    requires PathLess(a, b) && PathLess(b, c)
    ensures PathLess(a, c)
  {
    hide TextLeq;
    if a != [] {
      if TextLess(a[0], b[0]) && TextLess(b[0], c[0]) {
        TextLessTransitive(a[0], b[0], c[0]);
      } else if a[0] == b[0] == c[0] {
        PathTransitive(a[1..], b[1..], c[1..]);
      }
    }
  }

  lemma {:induction false} PathLessBelow(prefix: Path, a: Path, b: Path)
    ensures PathLess(prefix + a, prefix + b) <==> PathLess(a, b)
  {
    if prefix == [] {
      assert prefix + a == a && prefix + b == b;
    } else {
      assert (prefix + a)[1..] == prefix[1..] + a && (prefix + b)[1..] == prefix[1..] + b;
      PathLessBelow(prefix[1..], a, b);
      assert !TextLess(prefix[0], prefix[0]);
    }
  }

  ghost predicate Ascending(ms: seq<Member>) {
    forall i, j :: 0 <= i < j < |ms| ==> PathLess(ms[i].path, ms[j].path)
  }

  lemma AscendingConcat(a: seq<Member>, b: seq<Member>)
    requires Ascending(a) && Ascending(b)
    requires forall x, y :: x in a && y in b ==> PathLess(x.path, y.path)
    ensures Ascending(a + b)
  {
    hide PathLess;
  }

  /** m lies at or below the entry called n of the directory prefix. */
  ghost predicate Under(m: Member, prefix: Path, n: Name) {
    prefix + [n] <= m.path
  }

  ghost predicate UnderSome(m: Member, prefix: Path, l: Listing) {
    !l.End? && (Under(m, prefix, l.name) || UnderSome(m, prefix, l.next))
  }

  lemma {:induction false} ListedUnder(l: Listing, prefix: Path)
    ensures forall m :: m in List(l, prefix) ==> UnderSome(m, prefix, l)
    decreases l
  {
    if !l.End? {
      ListedUnder(l.next, prefix);
      if l.Folder? {
        ListedUnder(l.inside, prefix + [l.name]);
        forall m | m in List(l.inside, prefix + [l.name])
          ensures Under(m, prefix, l.name)
        {
          BelowIsUnder(m, prefix, l.name, l.inside);
        }
      }
    }
  }

  lemma {:induction false} BelowIsUnder(m: Member, prefix: Path, n: Name, inside: Listing)
    requires UnderSome(m, prefix + [n], inside)
    ensures Under(m, prefix, n)
    decreases inside
  {
    if !Under(m, prefix + [n], inside.name) {
      BelowIsUnder(m, prefix, n, inside.next);
    }
  }

  /** Entries of one listing precede everything under the entries after them. */
  lemma {:induction false} LaterIsGreater(x: Member, y: Member, prefix: Path, n: Name, l: Listing)
    requires Under(x, prefix, n) && NamesAfter(n, l) && UnderSome(y, prefix, l)
    ensures PathLess(x.path, y.path)
    decreases l
  {
    if Under(y, prefix, l.name) {
      var a, b := x.path[|prefix|..], y.path[|prefix|..];
      assert x.path == prefix + a && y.path == prefix + b;
      assert a[0] == (prefix + [n])[|prefix|] && b[0] == (prefix + [l.name])[|prefix|];
      PathLessBelow(prefix, a, b);
    } else {
      LaterIsGreater(x, y, prefix, n, l.next);
    }
  }

  lemma FolderFirst(m: Member, p: Path, inside: Listing)
    requires UnderSome(m, p, inside)
    ensures PathLess(p, m.path)
    decreases inside
  {
    if Under(m, p, inside.name) {
      var b := m.path[|p|..];
      assert m.path == p + b && p == p + [];
      assert (p + [inside.name])[|p|] == b[0];
      PathLessBelow(p, [], b);
    } else {
      FolderFirst(m, p, inside.next);
    }
  }

  /** The listing is in the order the manifest sorts by. */
  lemma {:induction false} ListAscends(l: Listing, prefix: Path)
    requires WellFormed(l)
    ensures Ascending(List(l, prefix))
    decreases l
  {
    hide PathLess, PlainName, Under;
    if !l.End? {
      var p := prefix + [l.name];
      var rest := List(l.next, prefix);
      var head := if l.File? then [Member(p, Some(l.data))] else [Member(p, None)] + List(l.inside, p);
      ListAscends(l.next, prefix);
      ListedUnder(l.next, prefix);
      if l.Folder? {
        FolderAscends(l, p);
        ListedUnder(l.inside, p);
      }
      forall x, y | x in head && y in rest
        ensures PathLess(x.path, y.path)
      {
        assert Under(x, prefix, l.name) by { HeadUnder(x, prefix, l); }
        LaterIsGreater(x, y, prefix, l.name, l.next);
      }
      AscendingConcat(head, rest);
    }
  }

  lemma HeadUnder(x: Member, prefix: Path, l: Listing)
    requires !l.End? && (x.path == prefix + [l.name] || (l.Folder? && x in List(l.inside, prefix + [l.name])))
    ensures Under(x, prefix, l.name)
  {
    if x.path != prefix + [l.name] {
      ListedUnder(l.inside, prefix + [l.name]);
      BelowIsUnder(x, prefix, l.name, l.inside);
    }
  }

  lemma {:induction false} FolderAscends(l: Listing, p: Path)
    requires l.Folder? && WellFormed(l)
    ensures Ascending([Member(p, None)] + List(l.inside, p))
    decreases l, 0
  {
    hide PathLess, PlainName, Under;
    ListAscends(l.inside, p);
    ListedUnder(l.inside, p);
    forall y | y in List(l.inside, p)
      ensures PathLess(p, y.path)
    {
      FolderFirst(y, p, l.inside);
    }
    AscendingConcat([Member(p, None)], List(l.inside, p));
  }

  lemma {:induction false} PathTotal(a: Path, b: Path)
    ensures a == b || PathLess(a, b) || PathLess(b, a)
  {
    hide TextLeq;
    if a != [] && b != [] {
      if a[0] == b[0] {
        PathTotal(a[1..], b[1..]);
        assert a == [a[0]] + a[1..] && b == [b[0]] + b[1..];
      } else {
        TextTotal(a[0], b[0]);
      }
    }
  }

  predicate PathLeq(a: Path, b: Path) {
    a == b || PathLess(a, b)
  }

  lemma PathLeqTransitive(a: Path, b: Path, c: Path)
    requires PathLeq(a, b) && PathLeq(b, c)
    ensures PathLeq(a, c)
  {
    if PathLess(a, b) && PathLess(b, c) {
      PathTransitive(a, b, c);
    }
  }

  ghost predicate SortedByPath(ms: seq<Member>) {
    forall i, j :: 0 <= i < j < |ms| ==> PathLeq(ms[i].path, ms[j].path)
  }

  function InsertByPath(m: Member, ms: seq<Member>): (r: seq<Member>)
    ensures multiset(r) == multiset([m] + ms)
  {
    if ms == [] || PathLeq(m.path, ms[0].path) then [m] + ms
    else
      assert [m] + ms == [m] + ([ms[0]] + ms[1..]);
      [ms[0]] + InsertByPath(m, ms[1..])
  }

  /** sorted() on paths */
  function SortByPath(ms: seq<Member>): (r: seq<Member>)
    ensures multiset(r) == multiset(ms)
  {
    if ms == [] then []
    else
      assert ms == [ms[0]] + ms[1..];
      InsertByPath(ms[0], SortByPath(ms[1..]))
  }

  lemma {:induction false} InsertByPathSorted(m: Member, ms: seq<Member>)
    requires SortedByPath(ms)
    ensures SortedByPath(InsertByPath(m, ms))
  {
    hide PathLess;
    if ms == [] {
    } else if PathLeq(m.path, ms[0].path) {
      forall j | 0 <= j < |ms|
        ensures PathLeq(m.path, ms[j].path)
      {
        assert PathLeq(ms[0].path, ms[j].path);
        PathLeqTransitive(m.path, ms[0].path, ms[j].path);
      }
    } else {
      InsertByPathSorted(m, ms[1..]);
      PathTotal(m.path, ms[0].path);
      var r := InsertByPath(m, ms[1..]);
      forall x | x in r
        ensures PathLeq(ms[0].path, x.path)
      {
        assert x in multiset(r);
        assert x == m || x in ms[1..];
      }
    }
  }

  lemma {:induction false} SortByPathSorted(ms: seq<Member>)
    ensures SortedByPath(SortByPath(ms))
  {
    hide PathLess;
    if ms != [] {
      SortByPathSorted(ms[1..]);
      InsertByPathSorted(ms[0], SortByPath(ms[1..]));
    }
  }

  /** A sorted arrangement of an ascending list is that list. */
  lemma {:induction false} SortedArrangement(a: seq<Member>, b: seq<Member>)
    requires SortedByPath(a) && Ascending(b) && multiset(a) == multiset(b)
    ensures a == b
    decreases |b|
  {
    hide PathLess;
    assert |a| == |multiset(a)| == |multiset(b)| == |b|;
    if b != [] {
      FirstAgree(a, b);
      assert a == [a[0]] + a[1..] && b == [b[0]] + b[1..];
      assert multiset(a[1..]) == multiset(a) - multiset{a[0]};
      assert multiset(b[1..]) == multiset(b) - multiset{b[0]};
      SortedArrangement(a[1..], b[1..]);
    }
  }

  lemma FirstAgree(a: seq<Member>, b: seq<Member>)
    requires SortedByPath(a) && Ascending(b) && a != [] && b != [] && multiset(a) == multiset(b)
    ensures a[0] == b[0]
  {
    hide PathLess;
    assert a[0] in multiset(a) && b[0] in multiset(b);
    var i :| 0 <= i < |a| && a[i] == b[0];
    var j :| 0 <= j < |b| && b[j] == a[0];
    if j > 0 {
      assert PathLess(b[0].path, b[j].path) && PathLeq(a[0].path, a[i].path);
      PathTransitive(b[0].path, b[j].path, b[0].path);
      PathIrreflexive(b[0].path);
    }
  }

  /** _build_manifest_entries: found is what the recursive glob yields, in any order. */
  method BuildManifestEntries(root: Listing, found: seq<Member>, excludedPaths: set<string>)
      returns (entries: seq<Member>)
    requires WellFormed(root) && multiset(found) == multiset(List(root, []))
    ensures entries == Walk(root, [], NormalizedSet(excludedPaths))
  {
    hide IsExcluded, NormalizedSet, Ascending, WellFormed, PathText, Keep, List, Walk, SortByPath, SortedByPath;
    var excluded := NormalizedSet(excludedPaths);
    var items := SortByPath(found);
    entries := [];
    KeepNone([], excluded);
    for i := 0 to |items|
      invariant entries == Keep(items[..i], excluded)
    {
      KeepConcat(items[..i], [items[i]], excluded);
      KeepOne(items[i], excluded);
      assert items[..i + 1] == items[..i] + [items[i]];
      if !IsExcluded(PathText(items[i].path), excluded) {
        entries := entries + [items[i]];
      }
    }
    assert items[..|items|] == items;
    ListAscends(root, []);
    SortByPathSorted(found);
    SortedArrangement(items, List(root, []));
    WalkIsFlat(root, [], excluded);
  }

  // ---------------------------------------------------------------- extraction

  datatype Tree = Tree(files: map<Path, Data>, dirs: set<Path>)

  /** The directories on the way to a path. */
  function Ancestors(p: Path): set<Path> {
    set k | 0 < k < |p| :: p[..k]
  }

  function ExtractOne(t: Tree, m: Member): Tree {
    if m.content.Some? then Tree(t.files[m.path := m.content.value], t.dirs + Ancestors(m.path))
    else Tree(t.files, t.dirs + Ancestors(m.path) + {m.path})
  }

  /** extractall: members in order, missing directories created on the way. */
  function Extract(t: Tree, ms: seq<Member>): Tree
    decreases |ms|
  {
    if ms == [] then t else Extract(ExtractOne(t, ms[0]), ms[1..])
  }

  /** Extracting makes the directories a member needs, even when the archive does not list them. */
  lemma {:induction false} ExtractCloses(t: Tree, ms: seq<Member>)
    requires PathsClosed(t.files.Keys, t.dirs)
    ensures PathsClosed(Extract(t, ms).files.Keys, Extract(t, ms).dirs)
    decreases |ms|
  {
    hide PathsClosed, ExtractOne;
    if ms != [] {
      ExtractOneCloses(t, ms[0]);
      ExtractCloses(ExtractOne(t, ms[0]), ms[1..]);
    }
  }

  lemma ExtractOneCloses(t: Tree, m: Member)
    requires PathsClosed(t.files.Keys, t.dirs)
    ensures PathsClosed(ExtractOne(t, m).files.Keys, ExtractOne(t, m).dirs)
  {
    var after := ExtractOne(t, m);
    forall p, k | (p in after.files || p in after.dirs) && 0 < k < |p|
      ensures p[..k] in after.dirs
    {
      if p in t.files || p in t.dirs {
      } else if p == m.path {
      } else {
        var j :| 0 < j < |m.path| && p == m.path[..j];
        assert p[..k] == m.path[..k];
      }
    }
  }

  /** The tree holds just the members, and the directories needed for them. */
  ghost predicate Holds(t: Tree, ms: seq<Member>) {
    && (forall p :: p in t.files ==> Member(p, Some(t.files[p])) in ms)
    && (forall m :: m in ms && m.content.Some? ==> m.path in t.files)
    && (forall p :: p in t.dirs <==> exists m :: m in ms && (m == Member(p, None) || p in Ancestors(m.path)))
  }

  lemma ExtractOneHolds(t: Tree, ms: seq<Member>, m: Member)
    requires Holds(t, ms) && Ascending(ms + [m])
    ensures Holds(ExtractOne(t, m), ms + [m])
  {
    hide Ancestors, PathLess;
    var after := ExtractOne(t, m);
    forall x | x in ms + [m]
      ensures x in ms || x == m
    {
    }
    forall p | p in after.files
      ensures Member(p, Some(after.files[p])) in ms + [m]
    {
      if m.content.Some? && p == m.path {
        assert m == Member(p, Some(after.files[p]));
        assert (ms + [m])[|ms|] == m;
      } else {
        assert Member(p, Some(t.files[p])) in ms;
      }
    }
    forall p
      ensures p in after.dirs <==> exists x :: x in ms + [m] && (x == Member(p, None) || p in Ancestors(x.path))
    {
      assert (ms + [m])[|ms|] == m;
      if p in t.dirs {
        var x :| x in ms && (x == Member(p, None) || p in Ancestors(x.path));
        assert x in ms + [m];
      }
    }
  }

  lemma {:induction false} ExtractHolds(t: Tree, done: seq<Member>, ms: seq<Member>)
    requires Holds(t, done) && Ascending(done + ms)
    ensures Holds(Extract(t, ms), done + ms)
    decreases |ms|
  {
    hide PathLess, Holds, ExtractOne;
    if ms == [] {
      assert done + ms == done;
    } else {
      assert done + ms == (done + [ms[0]]) + ms[1..];
      AscendingPrefix(done + [ms[0]], ms[1..]);
      ExtractOneHolds(t, done, ms[0]);
      ExtractHolds(ExtractOne(t, ms[0]), done + [ms[0]], ms[1..]);
    }
  }

  lemma AscendingPrefix(a: seq<Member>, b: seq<Member>)
    requires Ascending(a + b)
    ensures Ascending(a)
  {
    hide PathLess;
    forall i, j | 0 <= i < j < |a|
      ensures PathLess(a[i].path, a[j].path)
    {
      assert (a + b)[i] == a[i] && (a + b)[j] == a[j];
    }
  }

  /** Directories of the listing that lead to listed paths are listed. */
  lemma {:induction false} AncestorsListed(l: Listing, prefix: Path, m: Member, k: nat)
    requires m in List(l, prefix) && |prefix| < k < |m.path|
    ensures Member(m.path[..k], None) in List(l, prefix)
    decreases l
  {
    var p := prefix + [l.name];
    if m in List(l.next, prefix) {
      AncestorsListed(l.next, prefix, m, k);
    } else if l.Folder? && m in List(l.inside, p) {
      ListedUnder(l.inside, p);
      BelowIsUnder(m, prefix, l.name, l.inside);
      if k == |p| {
        assert m.path[..k] == p;
      } else {
        AncestorsListed(l.inside, p, m, k);
      }
    }
  }

  lemma {:induction false} ListPlain(l: Listing, prefix: Path)
    requires WellFormed(l) && PlainOrRoot(prefix)
    ensures forall m :: m in List(l, prefix) ==> PlainPath(m.path)
    decreases l
  {
    hide PlainName, PlainPath;
    if !l.End? {
      PlainSnoc(prefix, l.name);
      ListPlain(l.next, prefix);
      if l.Folder? {
        ListPlain(l.inside, prefix + [l.name]);
      }
    }
  }

  /** A path that is kept has all its directories kept. */
  lemma {:induction false} KeptAncestors(p: Path, k: nat, excluded: set<string>)
    requires PlainPath(p) && 0 < k <= |p| && IsExcluded(PathText(p[..k]), excluded)
    ensures IsExcluded(PathText(p), excluded)
    decreases |p| - k
  {
    hide IsExcluded, PathText, PlainName;
    if k == |p| {
      assert p[..k] == p;
    } else {
      assert PlainPath(p[..k]);
      assert p[..k] + [p[k]] == p[..k + 1];
      ExcludedBelow(p[..k], p[k], excluded);
      KeptAncestors(p, k + 1, excluded);
    }
  }

  /**
   Extracting the archive into an empty directory restores the tree without its excluded parts: the files
   with their data and the directories, and nothing else.
   */
  lemma RestoreIsPrunedTree(root: Listing, excluded: set<string>)
    requires WellFormed(root)
    ensures var t := Extract(Tree(map[], {}), Walk(root, [], excluded));
      && (forall p :: p in t.files ==> Member(p, Some(t.files[p])) in List(root, []))
      && (forall p, d :: Member(p, Some(d)) in List(root, []) ==>
           (p in t.files <==> !IsExcluded(PathText(p), excluded)))
      && (forall p :: p in t.files ==> !IsExcluded(PathText(p), excluded))
      && (forall p :: p in t.dirs <==> Member(p, None) in List(root, []) && !IsExcluded(PathText(p), excluded))
  {
    hide IsExcluded, PathText, Ascending, WellFormed, List, Walk, Extract, Keep, Ancestors;
    var all := List(root, []);
    var ms := Walk(root, [], excluded);
    WalkIsFlat(root, [], excluded);
    ArchiveHolds(root, excluded);
    var t := Extract(Tree(map[], {}), ms);
    forall p | p in t.dirs
      ensures Member(p, None) in all && !IsExcluded(PathText(p), excluded)
    {
      var m :| m in ms && (m == Member(p, None) || p in Ancestors(m.path));
      if m != Member(p, None) {
        DirOfKept(root, excluded, m, p);
      }
    }
  }

  lemma {:induction false} ArchiveHolds(root: Listing, excluded: set<string>)
    requires WellFormed(root)
    ensures Holds(Extract(Tree(map[], {}), Walk(root, [], excluded)), Walk(root, [], excluded))
  {
    var ms := Walk(root, [], excluded);
    assert Holds(Tree(map[], {}), []);
    hide Ascending, WellFormed, List, Walk, Extract, Keep, Holds;
    WalkIsFlat(root, [], excluded);
    ListAscends(root, []);
    KeepAscends(List(root, []), excluded);
    assert [] + ms == ms;
    ExtractHolds(Tree(map[], {}), [], ms);
  }

  lemma DirOfKept(root: Listing, excluded: set<string>, m: Member, p: Path)
    requires WellFormed(root) && m in List(root, []) && !IsExcluded(PathText(m.path), excluded)
    requires p in Ancestors(m.path)
    ensures Member(p, None) in List(root, []) && !IsExcluded(PathText(p), excluded)
  {
    hide IsExcluded, PathText;
    ListPlain(root, []);
    var k :| 0 < k < |m.path| && p == m.path[..k];
    AncestorsListed(root, [], m, k);
    if IsExcluded(PathText(p), excluded) {
      KeptAncestors(m.path, k, excluded);
    }
  }

  lemma {:induction false} KeepAscends(ms: seq<Member>, excluded: set<string>)
    requires Ascending(ms)
    ensures Ascending(Keep(ms, excluded))
  {
    hide PathLess, IsExcluded, PathText;
    if ms != [] {
      KeepAscends(ms[1..], excluded);
      var head := if IsExcluded(PathText(ms[0].path), excluded) then [] else [ms[0]];
      AscendingConcat(head, Keep(ms[1..], excluded));
    }
  }

  // ---------------------------------------------------------------- a cleaned workspace and its snapshot

  /** The folder a cleaning works on, as listings show it. */
  ghost predicate SameTree(w: Decay.Workspace, root: Listing) {
    && (forall p :: p in Decay.PathSet(w.files) <==> exists d :: Member(p, Some(d)) in List(root, []))
    && (forall p :: p in w.dirs <==> Member(p, None) in List(root, []))
  }

  /** The texts a cleaning hands to the snapshot as excluded. */
  function ScratchTexts(w: Decay.Workspace): set<string> {
    set p | p in Decay.ScratchPaths(w) :: PathText(p)
  }

  /** Some directory on the path, or the file itself, counts as scratch. */
  ghost predicate ScratchOnPath(p: Path) {
    exists k :: 0 < k <= |p| && Classify(p[..k]) == Ephemeral
  }

  lemma ExcludedIffScratchOnPath(w: Decay.Workspace, root: Listing, m: Member)
    requires WellFormed(root) && SameTree(w, root) && m in List(root, [])
    ensures IsExcluded(PathText(m.path), NormalizedSet(ScratchTexts(w))) <==> ScratchOnPath(m.path)
  {
    hide NormalizeArchivePath, Join, Classify, WellFormed, List, PlainName, Covers;
    ListPlain(root, []);
    var p := m.path;
    NormalizePlain(p);
    var excluded := NormalizedSet(ScratchTexts(w));
    if ScratchOnPath(p) {
      var k :| 0 < k <= |p| && Classify(p[..k]) == Ephemeral;
      var e := p[..k];
      assert e in Decay.ScratchPaths(w) by {
        if k < |p| {
          AncestorsListed(root, [], m, k);
        } else {
          assert e == p;
          if m.content.Some? {
            assert Member(p, Some(m.content.value)) == m;
          } else {
            assert Member(p, None) == m;
          }
        }
      }
      assert PlainPath(e);
      NormalizePlain(e);
      JoinEnds(e);
      JoinEnds(p);
      assert PathText(e) in ScratchTexts(w);
      assert Join(e) in excluded;
      CoversIsPrefix(e, p);
    }
    if IsExcluded(PathText(p), excluded) {
      var text :| text in excluded && Covers(text, Join(p));
      ScratchTextIsPath(w, root, text, p);
    }
  }

  lemma ScratchTextIsPath(w: Decay.Workspace, root: Listing, text: string, p: Path)
    requires WellFormed(root) && SameTree(w, root) && PlainPath(p)
    ensures text in NormalizedSet(ScratchTexts(w)) && Covers(text, Join(p)) ==> ScratchOnPath(p)
  {
    hide NormalizeArchivePath, Join, Classify, WellFormed, List, PlainName, Covers;
    if text in NormalizedSet(ScratchTexts(w)) && Covers(text, Join(p)) {
      ListPlain(root, []);
      var raw :| raw in ScratchTexts(w) && text == NormalizeArchivePath(raw);
      var e :| e in Decay.ScratchPaths(w) && raw == PathText(e);
      assert PlainPath(e) by {
        if e in w.dirs {
          assert Member(e, None) in List(root, []);
        } else {
          var d :| Member(e, Some(d)) in List(root, []);
        }
      }
      NormalizePlain(e);
      CoversIsPrefix(e, p);
      assert p[..|e|] == e;
    }
  }

  /**
   A file left by the cleaning comes back from the snapshot exactly when neither it nor a directory above
   it counts as scratch.
   */
  lemma SnapshotKeepsFileIff(w: Decay.Workspace, root: Listing, p: Path, d: Data)
    requires WellFormed(root) && SameTree(w, root) && Member(p, Some(d)) in List(root, [])
    ensures var t := Extract(Tree(map[], {}), Walk(root, [], NormalizedSet(ScratchTexts(w))));
      p in t.files <==> !ScratchOnPath(p)
  {
    hide IsExcluded, PathText, WellFormed, List, Walk, Extract, NormalizedSet, ScratchTexts, ScratchOnPath, SameTree;
    ExcludedIffScratchOnPath(w, root, Member(p, Some(d)));
    RestoreIsPrunedTree(root, NormalizedSet(ScratchTexts(w)));
  }

  /** Installed dependencies always come back. */
  lemma StatefulFilesKept(w: Decay.Workspace, root: Listing, p: Path, d: Data)
    requires WellFormed(root) && SameTree(w, root) && Member(p, Some(d)) in List(root, [])
    requires Classify(p) == StatefulRuntime
    ensures p in Extract(Tree(map[], {}), Walk(root, [], NormalizedSet(ScratchTexts(w)))).files
  {
    hide WellFormed, List, Walk, Extract, NormalizedSet, ScratchTexts, SameTree, Classify;
    forall k | 0 < k <= |p|
      ensures Classify(p[..k]) != Ephemeral
    {
      StatefulAncestors(p, k);
    }
    SnapshotKeepsFileIff(w, root, p, d);
  }

  lemma EndsOtherwise(n: string, suffix: string)
    requires n != "" && suffix != "" && n[|n| - 1] != suffix[|suffix| - 1]
    ensures !EndsWith(n, suffix) && n != suffix
  {
  }

  lemma PdfName(n: Name)
    requires n != "" && n[0] == 'r' && n[|n| - 1] == 'f'
    ensures !ThrowawayName(n)
  {
    EndsOtherwise(n, ".log");
    EndsOtherwise(n, ".tmp");
    EndsOtherwise(n, ".temp");
    EndsOtherwise(n, ".pyc");
    EndsOtherwise(n, ".pyo");
    EndsOtherwise(n, ".txt");
    EndsOtherwise(n, "requirements.txt");
    EndsOtherwise(n, "runtime_requirements.txt");
    EndsOtherwise(n, "__pycache__");
    hide EndsWith;
    assert "code_"[0] == 'c';
  }

  lemma DeliveredPdfDurable(p: Path)
    requires |p| == 3 && Lower(p[0]) == "output" && Lower(p[1]) == "run.log"
    requires Lower(p[2]) != "" && Lower(p[2])[0] == 'r' && Lower(p[2])[|p[2]| - 1] == 'f'
    ensures Classify(p) == Durable
  {
    hide ThrowawayName, Lower, Classify, LowerPath;
    assert "__pycache__"[0] == '_';
    PdfName(Lower(p[2]));
    DeliveryDirectoryDurableIff(p);
  }

  lemma ReportDurable(p: Path)
    requires p == ["output", "run.log", "report.pdf"]
    ensures Classify(p) == Durable
  {
    hide *;
    LowerNames();
    DeliveredPdfDurable(p);
  }

  lemma LowerNames()
    ensures Lower("output") == "output" && Lower("run.log") == "run.log" && Lower("report.pdf") == "report.pdf"
  {
    hide Lower;
    LowerFixed("output");
    LowerFixed("run.log");
    LowerFixed("report.pdf");
  }

  lemma LogDirectoryEphemeral(q: Path)
    requires q == ["output", "run.log"]
    ensures Classify(q) == Ephemeral
  {
    LowerFixed(q[0]);
    LowerFixed(q[1]);
    assert q[1][3..] == ".log";
    assert ThrowawayName(q[1]);
    hide ThrowawayName, Lower, Classify;
    DeliveryDirectoryDurableIff(q);
  }

  // ---------------------------------------------------------------- cleaning, storing and restoring

  /** The tree a cleaning leaves: the entries whose paths are still there. */
  function Remaining(l: Listing, prefix: Path, files: set<Path>, dirs: set<Path>): Listing {
    match l
    case End => End
    case File(n, data, next) =>
      if prefix + [n] in files then File(n, data, Remaining(next, prefix, files, dirs))
      else Remaining(next, prefix, files, dirs)
    case Folder(n, inside, next) =>
      if prefix + [n] in dirs then
        Folder(n, Remaining(inside, prefix + [n], files, dirs), Remaining(next, prefix, files, dirs))
      else Remaining(next, prefix, files, dirs)
  }

  /** Whatever is there has its directories there. */
  ghost predicate PathsClosed(files: set<Path>, dirs: set<Path>) {
    forall p, k :: p in files + dirs && 0 < k < |p| ==> p[..k] in dirs
  }

  predicate Stays(m: Member, files: set<Path>, dirs: set<Path>) {
    if m.content.Some? then m.path in files else m.path in dirs
  }

  lemma {:induction false} RemainingNames(n: Name, l: Listing, prefix: Path, files: set<Path>, dirs: set<Path>)
    requires NamesAfter(n, l)
    ensures NamesAfter(n, Remaining(l, prefix, files, dirs))
    decreases l
  {
    hide TextLess;
    if !l.End? {
      RemainingNames(n, l.next, prefix, files, dirs);
    }
  }

  lemma {:induction false} RemainingWellFormed(l: Listing, prefix: Path, files: set<Path>, dirs: set<Path>)
    requires WellFormed(l)
    ensures WellFormed(Remaining(l, prefix, files, dirs))
    decreases l
  {
    hide TextLess, PlainName;
    if !l.End? {
      RemainingWellFormed(l.next, prefix, files, dirs);
      RemainingNames(l.name, l.next, prefix, files, dirs);
      if l.Folder? {
        RemainingWellFormed(l.inside, prefix + [l.name], files, dirs);
      }
    }
  }

  /** The remaining tree lists exactly what is still there. */
  lemma {:induction false} RemainingLists(l: Listing, prefix: Path, files: set<Path>, dirs: set<Path>, m: Member)
    requires PathsClosed(files, dirs)
    ensures m in List(Remaining(l, prefix, files, dirs), prefix) <==> m in List(l, prefix) && Stays(m, files, dirs)
    decreases l
  {
    hide Stays, PathsClosed;
    if !l.End? {
      var p := prefix + [l.name];
      RemainingLists(l.next, prefix, files, dirs, m);
      if l.File? {
        StaysFile(m, p, l.data, files, dirs);
      } else {
        RemainingLists(l.inside, p, files, dirs, m);
        StaysFolder(m, p, files, dirs);
        if m in List(l.inside, p) {
          NothingBelow(l.inside, p, files, dirs, m);
        }
      }
    }
  }

  lemma StaysFile(m: Member, p: Path, data: Data, files: set<Path>, dirs: set<Path>)
    ensures m == Member(p, Some(data)) ==> (Stays(m, files, dirs) <==> p in files)
  {
  }

  lemma StaysFolder(m: Member, p: Path, files: set<Path>, dirs: set<Path>)
    ensures m == Member(p, None) ==> (Stays(m, files, dirs) <==> p in dirs)
  {
  }

  lemma NothingBelow(inside: Listing, p: Path, files: set<Path>, dirs: set<Path>, m: Member)
    requires PathsClosed(files, dirs) && m in List(inside, p) && p != []
    ensures Stays(m, files, dirs) ==> p in dirs
  {
    ListedUnder(inside, p);
    LongerThan(inside, p, m);
    if Stays(m, files, dirs) {
      assert m.path in files + dirs;
      assert m.path[..|p|] == p;
    }
  }

  lemma {:induction false} LongerThan(inside: Listing, p: Path, m: Member)
    requires UnderSome(m, p, inside)
    ensures p < m.path
    decreases inside
  {
    if Under(m, p, inside.name) {
      assert p < p + [inside.name];
    } else {
      LongerThan(inside.next, p, m);
    }
  }

  /** The tree left by a cleaning shows the workspace it left. */
  lemma RemainingShows(root: Listing, w: Decay.Workspace, after: Decay.Workspace)
    requires SameTree(w, root) && Decay.Closed(after)
    requires Decay.PathSet(after.files) <= Decay.PathSet(w.files) && after.dirs <= w.dirs
    ensures PathsClosed(Decay.PathSet(after.files), after.dirs)
    ensures SameTree(after, Remaining(root, [], Decay.PathSet(after.files), after.dirs))
  {
    hide List, Remaining;
    var files, dirs := Decay.PathSet(after.files), after.dirs;
    assert PathsClosed(files, dirs) by { ClosedPathSets(after); }
    var left := Remaining(root, [], files, dirs);
    forall p
      ensures p in files <==> exists d :: Member(p, Some(d)) in List(left, [])
    {
      if p in files {
        var d :| Member(p, Some(d)) in List(root, []);
        RemainingLists(root, [], files, dirs, Member(p, Some(d)));
      }
      if d :| Member(p, Some(d)) in List(left, []) {
        RemainingLists(root, [], files, dirs, Member(p, Some(d)));
      }
    }
    forall p
      ensures p in dirs <==> Member(p, None) in List(left, [])
    {
      RemainingLists(root, [], files, dirs, Member(p, None));
    }
  }

  lemma ClosedPathSets(w: Decay.Workspace)
    requires Decay.Closed(w)
    ensures PathsClosed(Decay.PathSet(w.files), w.dirs)
  {
  }

  /** What a restore finds after a workspace was cleaned and stored. */
  function Cycle(root: Listing, w: Decay.Workspace, s: Decay.Settings, now: int, can: Decay.Unlinks): Tree {
    var after := Decay.Decayed(w, s, now, can);
    var left := Remaining(root, [], Decay.PathSet(after.files), after.dirs);
    Extract(Tree(map[], {}), Walk(left, [], NormalizedSet(ScratchTexts(after))))
  }

  lemma CycleFiles(root: Listing, w: Decay.Workspace, after: Decay.Workspace, p: Path, d: Data)
    requires WellFormed(root) && SameTree(w, root) && Decay.Closed(after)
    requires Decay.PathSet(after.files) <= Decay.PathSet(w.files) && after.dirs <= w.dirs
    requires Member(p, Some(d)) in List(root, [])
    ensures var left := Remaining(root, [], Decay.PathSet(after.files), after.dirs);
      var t := Extract(Tree(map[], {}), Walk(left, [], NormalizedSet(ScratchTexts(after))));
      && (p in t.files <==> p in Decay.PathSet(after.files) && !ScratchOnPath(p))
      && (p in t.files ==> t.files[p] == d)
  {
    hide List, Walk, Extract, NormalizedSet, ScratchTexts, ScratchOnPath, SameTree, WellFormed, Remaining, PathsClosed;
    hide IsExcluded, PathText;
    var files, dirs := Decay.PathSet(after.files), after.dirs;
    var left := Remaining(root, [], files, dirs);
    RemainingShows(root, w, after);
    RemainingWellFormed(root, [], files, dirs);
    RemainingLists(root, [], files, dirs, Member(p, Some(d)));
    RestoreIsPrunedTree(left, NormalizedSet(ScratchTexts(after)));
    var t := Extract(Tree(map[], {}), Walk(left, [], NormalizedSet(ScratchTexts(after))));
    if p in files {
      SnapshotKeepsFileIff(after, left, p, d);
    }
    if p in t.files {
      RemainingLists(root, [], files, dirs, Member(p, Some(t.files[p])));
      SamePathSameContent(root, p, d, t.files[p]);
    }
  }

  lemma SamePathSameContent(root: Listing, p: Path, d: Data, e: Data)
    requires WellFormed(root) && Member(p, Some(d)) in List(root, []) && Member(p, Some(e)) in List(root, [])
    ensures d == e
  {
    hide List, PathLess, WellFormed;
    ListAscends(root, []);
    var ms := List(root, []);
    var i :| 0 <= i < |ms| && ms[i] == Member(p, Some(d));
    var j :| 0 <= j < |ms| && ms[j] == Member(p, Some(e));
    PathIrreflexive(p);
  }

  /**
   The whole cycle, for every file there was before the cleaning: it comes back, with its data, exactly when the
   cleaning left it and nothing on its path counts as scratch. For durable and stateful files the second half decides
   alone, and scratch files never come back.
   */
  lemma CycleRestoresIff(root: Listing, w: Decay.Workspace, s: Decay.Settings, now: int, can: Decay.Unlinks,
                         p: Path, d: Data)
    requires WellFormed(root) && SameTree(w, root) && Decay.Closed(w) && Member(p, Some(d)) in List(root, [])
    ensures var t := Cycle(root, w, s, now, can);
      && (p in t.files <==> p in Decay.PathSet(Decay.Decayed(w, s, now, can).files) && !ScratchOnPath(p))
      && (p in t.files ==> t.files[p] == d)
      && (!Decay.Disposable(p) ==> (p in t.files <==> !ScratchOnPath(p)))
      && (Classify(p) == Ephemeral ==> p !in t.files)
  {
    hide List, Walk, Extract, NormalizedSet, ScratchTexts, WellFormed, Remaining, Classify;
    hide Decay.Decayed, Decay.Disposable, Decay.Closed;
    var after := Decay.Decayed(w, s, now, can);
    var gone := Decay.DecayRemoves(w, s, now, can);
    Decay.PathSetWithout(w.files, gone);
    assert p in Decay.PathSet(w.files);
    CycleFiles(root, w, after, p, d);
    assert p != [] by { ListedNotRoot(root, p, d); }
    assert p[..|p|] == p;
  }

  lemma ListedNotRoot(root: Listing, p: Path, d: Data)
    requires WellFormed(root) && Member(p, Some(d)) in List(root, [])
    ensures p != []
  {
    hide List, WellFormed, PlainName;
    ListPlain(root, []);
    assert PlainPath(Member(p, Some(d)).path);
  }

  const REPORT: Path := ["output", "run.log", "report.pdf"]

  /** One delivered report in a directory named like a log file, as a tree and as the cleaning sees it. */
  function ReportTree(data: Data): Listing {
    Folder("output", Folder("run.log", File("report.pdf", data, End), End), End)
  }

  function ReportWorkspace(size: nat, mtime: int): Decay.Workspace {
    Decay.Workspace([Decay.File(REPORT, size, mtime)], {["output"], ["output", "run.log"]})
  }

  lemma ReportListed(data: Data)
    ensures WellFormed(ReportTree(data))
    ensures List(ReportTree(data), []) ==
            [Member(["output"], None), Member(["output", "run.log"], None), Member(REPORT, Some(data))]
  {
    ReportNames();
    hide PlainName;
    var inner := File("report.pdf", data, End);
    var middle := Folder("run.log", inner, End);
    var q, r := ["output"], ["output", "run.log"];
    assert [] + ["output"] == q && q + ["run.log"] == r && r + ["report.pdf"] == REPORT;
    assert List(inner, r) == [Member(REPORT, Some(data))];
    assert List(middle, q) == [Member(r, None)] + List(inner, r) + List(End, q);
    assert List(ReportTree(data), []) == [Member(q, None)] + List(middle, q) + List(End, []);
    assert WellFormed(inner) && WellFormed(middle);
  }

  lemma ReportClosed(size: nat, mtime: int)
    ensures Decay.Closed(ReportWorkspace(size, mtime))
    ensures Decay.PathSet(ReportWorkspace(size, mtime).files) == {REPORT}
  {
    var w := ReportWorkspace(size, mtime);
    assert w.files[0].path == REPORT;
    var inner := ["output", "run.log"];
    assert REPORT[..1] == ["output"] && REPORT[..2] == inner && inner[..1] == ["output"];
  }

  lemma ReportShown(data: Data, size: nat, mtime: int)
    ensures SameTree(ReportWorkspace(size, mtime), ReportTree(data))
    ensures Member(REPORT, Some(data)) in List(ReportTree(data), [])
  {
    ReportListed(data);
    ReportClosed(size, mtime);
    hide List, Decay.PathSet, Decay.Closed, WellFormed, ReportTree;
    var ms := List(ReportTree(data), []);
    assert ms[0] == Member(["output"], None) && ms[1] == Member(["output", "run.log"], None);
    assert ms[2] == Member(REPORT, Some(data));
    forall m | m in ms
      ensures m == ms[0] || m == ms[1] || m == ms[2]
    {
    }
  }

  lemma ReportNames()
    ensures PlainName("output") && PlainName("run.log") && PlainName("report.pdf")
  {
  }

  /**
   Whatever the settings and whatever deletions fail, a durable report in a directory named like a log file survives
   the cleaning and is missing from what the restore finds.
   */
  lemma DurableFileLost(data: Data, size: nat, mtime: int, s: Decay.Settings, now: int, can: Decay.Unlinks)
    ensures Classify(REPORT) == Durable
    ensures Decay.File(REPORT, size, mtime) in Decay.Decayed(ReportWorkspace(size, mtime), s, now, can).files
    ensures REPORT !in Cycle(ReportTree(data), ReportWorkspace(size, mtime), s, now, can).files
  {
    hide Classify, WellFormed, SameTree, List, Cycle, Decay.Decayed, Decay.Closed;
    var w := ReportWorkspace(size, mtime);
    ReportDurable(REPORT);
    LogDirectoryEphemeral(REPORT[..2]);
    ReportListed(data);
    ReportClosed(size, mtime);
    ReportShown(data, size, mtime);
    Decay.DecayPartitions(w, s, now, can);
    assert w.files[0] == Decay.File(REPORT, size, mtime);
    CycleRestoresIff(ReportTree(data), w, s, now, can, REPORT, data);
  }
}
