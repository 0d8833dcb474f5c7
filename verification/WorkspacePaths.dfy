/**
 Relative paths of a conversation workspace: their text form, the prefix test the snapshot code uses
 on that text, and the retention class of each path.
 */
module WorkspacePaths {
  import opened Common

  /** One component of a path. */
  type Name = string

  type Path = seq<Name>

  /** Not empty, no separators, no white space at either end, and not the current directory. */
  ghost predicate PlainName(n: Name) {
    n != "" && n != "." && '/' !in n && '\\' !in n && !IsSpace(n[0]) && !IsSpace(n[|n| - 1])
  }

  ghost predicate PlainPath(p: Path) {
    p != [] && forall i :: 0 <= i < |p| ==> PlainName(p[i])
  }

  /** The path as the code writes it, components separated by slashes. */
  function Join(p: Path): (s: string)
    requires p != []
  {
    if |p| == 1 then p[0] else p[0] + "/" + Join(p[1..])
  }

  /** The text, empty for the root. */
  function PathText(p: Path): string {
    if p == [] then "" else Join(p)
  }

  lemma {:induction false} JoinSnoc(p: Path, n: Name)
    requires p != []
    ensures Join(p + [n]) == Join(p) + "/" + n
  {
    if |p| == 1 {
      assert (p + [n])[1..] == [n];
    } else {
      assert (p + [n])[1..] == p[1..] + [n];
      JoinSnoc(p[1..], n);
    }
  }

  /** Empty, or beginning with a slash: what may follow the first name of a path. */
  predicate Tail(x: string) {
    x == "" || x[0] == '/'
  }

  /** Where the first slash is, or the length when there is none. */
  function FirstSlash(s: string): nat {
    if s == "" || s[0] == '/' then 0 else 1 + FirstSlash(s[1..])
  }

  lemma {:induction false} FirstSlashAfterName(a: string, x: string)
    requires '/' !in a && Tail(x)
    ensures FirstSlash(a + x) == |a|
  {
    if a == "" {
      assert a + x == x;
    } else {
      assert (a + x)[1..] == a[1..] + x;
      FirstSlashAfterName(a[1..], x);
    }
  }

  /** A name ends at the first slash, so a slash-free head is determined by the text. */
  lemma HeadDetermined(a: string, b: string, x: string, y: string)
    requires '/' !in a && '/' !in b && Tail(x) && Tail(y) && a + x == b + y
    ensures a == b && x == y
  {
    FirstSlashAfterName(a, x);
    FirstSlashAfterName(b, y);
    var s := a + x;
    assert s[..|a|] == a && s[|a|..] == x && s[..|b|] == b && s[|b|..] == y;
  }

  /** What follows the first name in the text of a path. */
  function After(p: Path): (x: string)
    requires p != []
    ensures Tail(x) && Join(p) == p[0] + x
    ensures if |p| == 1 then x == "" else x != "" && x[1..] == Join(p[1..])
  {
    if |p| == 1 then "" else "/" + Join(p[1..])
  }

  /** Two different paths have different texts. */
  lemma {:induction false} JoinInjective(p: Path, q: Path)
    requires PlainPath(p) && PlainPath(q) && Join(p) == Join(q)
    ensures p == q
    decreases |p|
  {
    hide Join, After;
    assert PlainName(p[0]) && PlainName(q[0]);
    HeadDetermined(p[0], q[0], After(p), After(q));
    assert p == [p[0]] + p[1..] && q == [q[0]] + q[1..];
    if |p| > 1 {
      JoinInjective(p[1..], q[1..]);
    }
  }

  // ---------------------------------------------------------------- order of texts

  /** Lexicographic order of texts by character code. */
  predicate TextLeq(a: string, b: string) {
    a == "" || (b != "" && (a[0] < b[0] || (a[0] == b[0] && TextLeq(a[1..], b[1..]))))
  }

  lemma {:induction false} TextTotal(a: string, b: string)
    ensures TextLeq(a, b) || TextLeq(b, a)
  {
    if a != "" && b != "" && a[0] == b[0] {
      TextTotal(a[1..], b[1..]);
    }
  }

  lemma {:induction false} TextTransitive(a: string, b: string, c: string)
    requires TextLeq(a, b) && TextLeq(b, c)
    ensures TextLeq(a, c)
  {
    if a != "" && a[0] == b[0] == c[0] {
      TextTransitive(a[1..], b[1..], c[1..]);
    }
  }

  lemma {:induction false} TextAntisymmetric(a: string, b: string)
    requires TextLeq(a, b) && TextLeq(b, a)
    ensures a == b
  {
    if a != "" {
      TextAntisymmetric(a[1..], b[1..]);
      assert a == [a[0]] + a[1..] && b == [b[0]] + b[1..];
    }
  }

  // ---------------------------------------------------------------- exclusion

  /** One excluded text covers a path text: the same, or followed by a slash. */
  predicate Covers(excluded: string, path: string) {
    path == excluded || excluded + "/" <= path
  }

  /** On text, covering is the prefix relation on components. */
  lemma {:induction false} CoversIsPrefix(e: Path, p: Path)
    requires PlainPath(e) && PlainPath(p)
    ensures Covers(Join(e), Join(p)) <==> e <= p
    decreases |e|
  {
    if e <= p {
      PrefixCovers(e, p);
    }
    if Join(p) == Join(e) {
      JoinInjective(e, p);
    } else if Join(e) + "/" <= Join(p) {
      var rest := Join(p)[|Join(e)|..];
      assert rest[0] == '/' && Join(p) == Join(e) + rest;
      CoversGivesPrefix(e, p, rest);
    }
  }

  lemma {:induction false} PrefixCovers(e: Path, p: Path)
    requires e != [] && e <= p
    ensures Covers(Join(e), Join(p))
    decreases |p| - |e|
  {
    if |e| < |p| {
      var q := p[..|p| - 1];
      assert p == q + [p[|p| - 1]];
      PrefixCovers(e, q);
      JoinSnoc(q, p[|p| - 1]);
    } else {
      assert e == p;
    }
  }

  lemma {:induction false} CoversGivesPrefix(e: Path, p: Path, rest: string)
    requires PlainPath(e) && PlainPath(p) && rest != "" && rest[0] == '/' && Join(p) == Join(e) + rest
    ensures e <= p
    decreases |e|
  {
    hide Join, After;
    assert PlainName(e[0]) && PlainName(p[0]);
    var x, y := After(e), After(p);
    ConcatAssociates(e[0], x, rest);
    HeadDetermined(e[0], p[0], x + rest, y);
    if |e| > 1 {
      assert y[1..] == x[1..] + rest;
      CoversGivesPrefix(e[1..], p[1..], rest);
    }
    assert e == [e[0]] + e[1..] && p == [p[0]] + p[1..];
  }

  lemma ConcatAssociates(a: string, b: string, c: string)
    ensures (a + b) + c == a + (b + c)
  {
  }

  // ---------------------------------------------------------------- normalisation

  function ReplaceBackslash(s: string): (r: string)
  {
    if s == "" then "" else [if s[0] == '\\' then '/' else s[0]] + ReplaceBackslash(s[1..])
  }

  function TrimLeftSlash(s: string): (r: string)
    ensures r == "" || r[0] != '/'
  {
    if s != "" && s[0] == '/' then TrimLeftSlash(s[1..]) else s
  }

  function TrimRightSlash(s: string): (r: string)
    ensures r <= s
  {
    if s != "" && s[|s| - 1] == '/' then TrimRightSlash(s[..|s| - 1]) else s
  }

  function TrimSlash(s: string): (r: string)
    ensures r == "" || r[0] != '/'
  {
    TrimRightSlash(TrimLeftSlash(s))
  }

  /** Replacing changes backslashes into slashes and nothing else. */
  lemma {:induction false} ReplacedAt(s: string)
    ensures var r := ReplaceBackslash(s);
      |r| == |s| && forall i :: 0 <= i < |s| ==> r[i] == if s[i] == '\\' then '/' else s[i]
  {
    if s != "" {
      ReplacedAt(s[1..]);
    }
  }

  /** Trimming takes slashes off an end, all of them, and nothing else. */
  lemma {:induction false} TrimmedLeft(s: string)
    ensures var r := TrimLeftSlash(s);
      && |r| <= |s| && s[|s| - |r|..] == r && (r == "" || r[0] != '/')
      && forall i :: 0 <= i < |s| - |r| ==> s[i] == '/'
  {
    if s != "" && s[0] == '/' {
      TrimmedLeft(s[1..]);
      var r := TrimLeftSlash(s[1..]);
      assert s[|s| - |r|..] == s[1..][|s| - 1 - |r|..];
      assert forall i :: 0 < i < |s| ==> s[i] == s[1..][i - 1];
      hide TrimLeftSlash;
      assert TrimLeftSlash(s) == r by { TrimStep(s); }
    }
  }

  lemma TrimStep(s: string)
    requires s != "" && s[0] == '/'
    ensures TrimLeftSlash(s) == TrimLeftSlash(s[1..])
  {
  }

  lemma {:induction false} TrimmedRight(s: string)
    ensures var r := TrimRightSlash(s);
      r <= s && (r == "" || r[|r| - 1] != '/') && forall i :: |r| <= i < |s| ==> s[i] == '/'
  {
    if s != "" && s[|s| - 1] == '/' {
      TrimmedRight(s[..|s| - 1]);
    }
  }

  /** _normalize_archive_relative_path */
  function NormalizeArchivePath(value: string): (r: string)
    ensures r == "" || r[0] != '/'
  {
    var s := Strip(ReplaceBackslash(value));
    if s == "" || s == "." then ""
    else TrimSlash(if "./" <= s then s[2..] else s)
  }

  lemma {:induction false} NoBackslash(s: string)
    requires '\\' !in s
    ensures ReplaceBackslash(s) == s
  {
    if s != "" {
      NoBackslash(s[1..]);
    }
  }

  /** The text of a path has the first and last characters of its names, and no backslash. */
  lemma {:induction false} JoinEnds(p: Path)
    requires PlainPath(p)
    ensures Join(p) != "" && '\\' !in Join(p)
    ensures Join(p)[0] == p[0][0]
    ensures Join(p)[|Join(p)| - 1] == p[|p| - 1][|p[|p| - 1]| - 1]
  {
    if |p| > 1 {
      JoinEnds(p[1..]);
    }
  }

  /** Only a path whose first name is a lone dot begins with the current-directory mark. */
  lemma NoDotStart(p: Path)
    requires PlainPath(p)
    ensures !("./" <= Join(p)) && Join(p) != "."
  {
    var n := p[0];
    var s := Join(p);
    assert PlainName(n) && s[..|n|] == n;
    if |n| == 1 {
      assert n == [n[0]];
      assert s[0] == n[0] != '.';
    } else {
      assert s[1] == n[1] && n[1] in n;
    }
  }

  /** A text without backslashes, outer white space or outer slashes is left as it is. */
  lemma NormalizeClean(s: string)
    requires s != "" && '\\' !in s && !IsSpace(s[0]) && !IsSpace(s[|s| - 1])
    requires s[0] != '/' && s[|s| - 1] != '/' && s != "." && !("./" <= s)
    ensures NormalizeArchivePath(s) == s
    ensures NormalizeArchivePath("./" + s) == s
  {
    hide Strip, ReplaceBackslash, IsSpace;
    NoBackslash(s);
    StripStripped(s);
    var dotted := "./" + s;
    assert !IsSpace('.') by { SpaceFacts(); }
    assert dotted[0] == '.' && dotted[|dotted| - 1] == s[|s| - 1];
    NoBackslash(dotted);
    StripStripped(dotted);
    assert dotted[2..] == s;
  }

  lemma SpaceFacts()
    ensures !IsSpace('.')
  {
  }

  /** The walk's member names and the manifest's relative paths normalise to the same text. */
  lemma NormalizePlain(p: Path)
    requires PlainPath(p)
    ensures NormalizeArchivePath(Join(p)) == Join(p)
    ensures NormalizeArchivePath("./" + Join(p)) == Join(p)
  {
    hide NormalizeArchivePath, IsSpace, Join;
    var first, last := p[0], p[|p| - 1];
    assert PlainName(first) && PlainName(last);
    JoinEnds(p);
    NoDotStart(p);
    assert first[0] in first && last[|last| - 1] in last;
    NormalizeClean(Join(p));
  }

  // ---------------------------------------------------------------- retention classes

  datatype Retention = Durable | Rebuildable | Ephemeral | StatefulRuntime

  function LowerPath(p: Path): (r: Path)
    ensures |r| == |p| && forall i :: 0 <= i < |p| ==> r[i] == Lower(p[i])
  {
    if p == [] then [] else [Lower(p[0])] + LowerPath(p[1..])
  }

  predicate EndsWith(s: string, suffix: string) {
    |suffix| <= |s| && s[|s| - |suffix|..] == suffix
  }

  predicate IsHex(c: char) {
    '0' <= c <= '9' || 'a' <= c <= 'f'
  }

  /** code_ and eight hexadecimal digits, with a script extension */
  predicate IsRuntimeScript(n: Name) {
    && |n| >= 14 && "code_" <= n && n[13] == '.'
    && (forall i :: 5 <= i < 13 ==> IsHex(n[i]))
    && n[14..] in {"py", "sh", "js", "ts", "tsx", "jsx", "bash", "zsh", "txt"}
  }

  predicate IsTagChar(c: char) {
    'a' <= c <= 'z' || '0' <= c <= '9' || c == '_' || c == '-'
  }

  /** requirements.txt, or with one tag between the words */
  predicate IsRequirements(n: Name) {
    n == "requirements.txt" ||
    (|n| >= 18 && "requirements." <= n && EndsWith(n, ".txt") &&
     forall i :: 13 <= i < |n| - 4 ==> IsTagChar(n[i]))
  }

  /** A base name that makes a path ephemeral wherever it lies. */
  predicate ThrowawayName(n: Name) {
    n == "runtime_requirements.txt" || n == "__pycache__" ||
    EndsWith(n, ".log") || EndsWith(n, ".tmp") || EndsWith(n, ".temp") ||
    EndsWith(n, ".pyc") || EndsWith(n, ".pyo") ||
    IsRuntimeScript(n) || IsRequirements(n)
  }

  /** A directory whose whole contents are ephemeral. */
  predicate InThrowawayDir(p: Path) {
    (|p| > 1 && (p[0] == "logs" || p[0] == "tasks")) ||
    (|p| > 2 && p[0] == ".linx_runtime" && p[1] == "pip_cache") ||
    "__pycache__" in p
  }

  predicate IsEphemeralPath(p: Path)
    requires p != []
  {
    InThrowawayDir(p) || ThrowawayName(p[|p| - 1])
  }

  predicate IsStatefulRuntimePath(p: Path) {
    |p| >= 2 && p[0] == ".linx_runtime" && p[1] == "python_deps"
  }

  /** A leading workspace directory is dropped. */
  function Rooted(p: Path): (r: Path)
    requires p != []
    ensures r != []
  {
    if |p| > 1 && p[0] == "workspace" then p[1..] else p
  }

  /** The path the rules see, in lower case. */
  function Seen(p: Path): (r: Path)
    requires p != []
    ensures r != []
  {
    LowerPath(Rooted(p))
  }

  /** classify_relative_path */
  function Classify(p: Path): Retention {
    if p == [] then Ephemeral else ClassifySeen(Seen(p))
  }

  function ClassifySeen(q: Path): Retention
    requires q != []
  {
    if IsStatefulRuntimePath(q) then StatefulRuntime
    else if IsEphemeralPath(q) then Ephemeral
    else if |q| > 1 && q[0] == "input" then Rebuildable
    else Durable
  }

  lemma LowerFixed(s: string)
    requires forall i :: 0 <= i < |s| ==> LowerChar(s[i]) == s[i]
    ensures Lower(s) == s
  {
  }

  lemma DeliveryName(n: Name)
    requires Lower(n) == "output" || Lower(n) == "shared"
    ensures n != "workspace"
  {
    assert |n| == |Lower(n)|;
  }

  lemma DeliveryRules(q: Path)
    requires |q| > 1 && (q[0] == "output" || q[0] == "shared")
    ensures !IsStatefulRuntimePath(q) && q[0] != "input"
    ensures IsEphemeralPath(q) <==> "__pycache__" in q || ThrowawayName(q[|q| - 1])
  {
    hide ThrowawayName;
    assert |q[0]| == 6 && |".linx_runtime"| == 13 && |"logs"| == 4 && |"tasks"| == 5 && |"input"| == 5;
  }

  /** Everything under output/ or shared/ is kept, except what carries a throwaway name. */
  lemma DeliveryDirectoryDurableIff(p: Path)
    requires |p| > 1 && (Lower(p[0]) == "output" || Lower(p[0]) == "shared")
    ensures Classify(p) == Durable <==>
            "__pycache__" !in LowerPath(p) && !ThrowawayName(Lower(p[|p| - 1]))
    ensures Classify(p) != Durable ==> Classify(p) == Ephemeral
  {
    DeliveryName(p[0]);
    hide ThrowawayName, LowerPath, Lower, IsEphemeralPath, IsStatefulRuntimePath;
    DeliveryRules(LowerPath(p));
  }

  /** A delivered requirements file is treated as scratch. */
  lemma DeliveredRequirementsEphemeral()
    ensures Classify(["output", "requirements.txt"]) == Ephemeral
  {
    var p := ["output", "requirements.txt"];
    hide Classify, LowerPath;
    LowerFixed(p[0]);
    LowerFixed(p[1]);
    assert ThrowawayName(Lower(p[1]));
    DeliveryDirectoryDurableIff(p);
  }

  /** A directory above a stateful path is never ephemeral. */
  lemma StatefulAncestors(p: Path, k: nat)
    requires 0 < k <= |p| && Classify(p) == StatefulRuntime
    ensures Classify(p[..k]) != Ephemeral
  {
    SeenPrefix(p, k);
    var q, r := Seen(p), Seen(p[..k]);
    hide Seen, IsEphemeralPath;
    NotThrowaway("workspace");
    NotThrowaway(".linx_runtime");
    if |r| == 1 {
      assert r == [r[0]];
    }
  }

  lemma NotThrowaway(n: Name)
    requires n == "workspace" || n == ".linx_runtime"
    ensures !IsEphemeralPath([n])
  {
    assert n != "__pycache__";
    assert !EndsWith(n, ".log") && !EndsWith(n, ".tmp") && !EndsWith(n, ".temp");
    assert !EndsWith(n, ".pyc") && !EndsWith(n, ".pyo") && !EndsWith(n, ".txt");
  }

  lemma SeenPrefix(p: Path, k: nat)
    requires 0 < k <= |p|
    ensures Seen(p[..k]) <= Seen(p) || Seen(p[..k]) == ["workspace"]
  {
    RootedPrefix(p, k);
    hide Rooted, Lower, LowerPath;
    var a, b := Rooted(p[..k]), Rooted(p);
    if a == ["workspace"] {
      LowerFixed("workspace");
      assert LowerPath(a) == ["workspace"];
    } else {
      LowerPrefix(a, b);
    }
  }

  lemma RootedPrefix(p: Path, k: nat)
    requires 0 < k <= |p|
    ensures Rooted(p[..k]) <= Rooted(p) || Rooted(p[..k]) == ["workspace"]
  {
  }

  lemma LowerPrefix(a: Path, b: Path)
    requires a <= b
    ensures LowerPath(a) <= LowerPath(b)
  {
    hide LowerPath, Lower;
  }
}
