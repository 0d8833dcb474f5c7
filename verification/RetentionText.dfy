/**
 The retention rules as the code applies them to the text of a path: prefixes, suffixes, patterns and a search for
 a directory name. They give each path the class that its components give it.
 */
module RetentionText {
  import opened Common
  import opened WorkspacePaths

  // ---------------------------------------------------------------- the rules on text

  /** rsplit("/", 1)[-1] */
  function BaseName(s: string): string {
    if s == "" then ""
    else if s[|s| - 1] == '/' then "" else BaseName(s[..|s| - 1]) + [s[|s| - 1]]
  }

  ghost predicate Contains(s: string, part: string) {
    exists a, b :: s == a + part + b
  }

  /** code_, eight hexadecimal digits, a dot, and the extension of a script */
  ghost predicate MatchesScript(n: string) {
    exists digits: string, extension: string ::
      && n == "code_" + digits + "." + extension
      && |digits| == 8 && (forall i :: 0 <= i < 8 ==> digits[i] in "0123456789abcdef")
      && extension in {"py", "sh", "js", "ts", "tsx", "jsx", "bash", "zsh", "txt"}
  }

  /** requirements, a dot and a tag or nothing, and .txt */
  ghost predicate MatchesRequirements(n: string) {
    n == "requirements.txt" ||
    exists tag: string :: n == "requirements." + tag + ".txt" && tag != "" && TagOnly(tag)
  }

  ghost predicate TagOnly(tag: string) {
    forall i :: 0 <= i < |tag| ==> 'a' <= tag[i] <= 'z' || '0' <= tag[i] <= '9' || tag[i] in "_-"
  }

  ghost predicate HasSuffix(n: string, suffix: string) {
    exists stem :: n == stem + suffix
  }

  /** _is_stateful_runtime_path */
  predicate IsStatefulText(lower: string) {
    "/.linx_runtime/python_deps/" <= "/" + TrimSlash(lower) + "/"
  }

  /** _is_ephemeral_path */
  ghost predicate IsEphemeralText(lower: string) {
    var normalized := TrimSlash(lower);
    var base := BaseName(normalized);
    || "logs/" <= normalized || "tasks/" <= normalized || ".linx_runtime/pip_cache/" <= normalized
    || base == "runtime_requirements.txt"
    || HasSuffix(base, ".log") || HasSuffix(base, ".tmp") || HasSuffix(base, ".temp")
    || HasSuffix(base, ".pyc") || HasSuffix(base, ".pyo")
    || Contains("/" + normalized + "/", "/__pycache__/")
    || MatchesScript(base) || MatchesRequirements(base)
  }

  /** _normalize_relative_path */
  function NormalizeRelativePath(value: string): string {
    var s := TrimLeftSlash(Strip(ReplaceBackslash(value)));
    TrimSlash(if "workspace/" <= s then s[10..] else s)
  }

  /** classify_relative_path; a delivered or recently named file has the class of any other. */
  ghost function ClassifyText(value: string): Retention {
    var normalized := NormalizeRelativePath(value);
    if normalized == "" then Ephemeral
    else
      var lower := Lower(normalized);
      if IsStatefulText(lower) then StatefulRuntime
      else if IsEphemeralText(lower) then Ephemeral
      else if "input/" <= lower then Rebuildable
      else Durable
  }

  // ---------------------------------------------------------------- lower case

  lemma {:induction false} LowerConcat(a: string, b: string)
    ensures Lower(a + b) == Lower(a) + Lower(b)
  {
  }

  lemma LowerName(n: Name)
    requires PlainName(n)
    ensures PlainName(Lower(n))
  {
    forall i | 0 <= i < |n|
      ensures Lower(n)[i] != '/' && Lower(n)[i] != '\\'
    {
      assert n[i] in n;
    }
    assert |Lower(n)| == |n|;
    if |n| == 1 {
      assert n == [n[0]] && n[0] != '.';
    }
  }

  lemma LowerPlain(p: Path)
    requires PlainPath(p)
    ensures PlainPath(LowerPath(p))
  {
    hide PlainName, Lower;
    forall i | 0 <= i < |p|
      ensures PlainName(LowerPath(p)[i])
    {
      LowerName(p[i]);
    }
  }

  lemma {:induction false} LowerJoin(p: Path)
    requires p != []
    ensures Lower(Join(p)) == Join(LowerPath(p))
    decreases |p|
  {
    if |p| > 1 {
      LowerJoin(p[1..]);
      LowerConcat(p[0] + "/", Join(p[1..]));
      LowerConcat(p[0], "/");
      LowerFixed("/");
      assert LowerPath(p)[1..] == LowerPath(p[1..]);
    }
  }

  // ---------------------------------------------------------------- prefixes

  /** On text a directory's name and a slash begin a path exactly when the path lies in that directory. */
  lemma BelowIsPrefix(e: Path, p: Path)
    requires PlainPath(e) && PlainPath(p)
    ensures Join(e) + "/" <= Join(p) <==> e <= p && |e| < |p|
  {
    CoversIsPrefix(e, p);
    var a, b := Join(e), Join(p);
    SameText(e, p);
    hide Join, PlainPath, PlainName;
    assert Covers(a, b) <==> b == a || a + "/" <= b;
    assert a + "/" <= b ==> |a| < |b|;
  }

  lemma SameText(e: Path, p: Path)
    requires PlainPath(e) && PlainPath(p)
    ensures Join(e) == Join(p) <==> e == p
  {
    hide Join;
    if Join(e) == Join(p) {
      JoinInjective(e, p);
    }
  }

  lemma WrappedIsPrefix(e: Path, p: Path)
    requires PlainPath(e) && PlainPath(p)
    ensures "/" + Join(e) + "/" <= "/" + Join(p) + "/" <==> e <= p
  {
    CoversIsPrefix(e, p);
    var a, b := Join(e), Join(p);
    hide Join;
    assert ("/" + b + "/")[1..] == b + "/" && ("/" + a + "/")[1..] == a + "/";
    assert "/" + a + "/" <= "/" + b + "/" <==> a + "/" <= b + "/" by { PrefixAfterSlash(a, b); }
    if a + "/" <= b + "/" && !(a + "/" <= b) {
      assert |a| == |b|;
      assert (b + "/")[..|a|] == (a + "/")[..|a|] == a;
      assert b == (b + "/")[..|b|];
    }
    if a + "/" <= b {
      assert (b + "/")[..|a| + 1] == b[..|a| + 1];
    }
  }

  lemma PrefixAfterSlash(a: string, b: string)
    ensures "/" + a + "/" <= "/" + b + "/" <==> a + "/" <= b + "/"
  {
    var x, y := a + "/", b + "/";
    assert "/" + a + "/" == "/" + x && "/" + b + "/" == "/" + y;
    if x <= y {
      assert ("/" + y)[..|"/" + x|] == "/" + x;
    }
    if "/" + x <= "/" + y {
      assert y[..|x|] == ("/" + y)[1..][..|x|] == ("/" + x)[1..];
    }
  }

  // ---------------------------------------------------------------- base names

  lemma {:induction false} BaseAfterSlash(s: string, n: Name)
    requires '/' !in n
    ensures BaseName(s + "/" + n) == n
    decreases |n|
  {
    var all := s + "/" + n;
    if n == "" {
      assert all == s + "/" && all[|all| - 1] == '/';
    } else {
      var front, last := n[..|n| - 1], n[|n| - 1];
      assert all[..|all| - 1] == s + "/" + front && all[|all| - 1] == last;
      assert last in n;
      BaseAfterSlash(s, front);
      assert front + [last] == n;
    }
  }

  lemma {:induction false} BasePlain(n: Name)
    requires '/' !in n
    ensures BaseName(n) == n
  {
    if n != "" {
      assert n[|n| - 1] in n;
      BasePlain(n[..|n| - 1]);
      assert n[..|n| - 1] + [n[|n| - 1]] == n;
    }
  }

  lemma BaseOfPath(p: Path)
    requires PlainPath(p)
    ensures BaseName(Join(p)) == p[|p| - 1]
  {
    hide Join, PlainName, PlainPath, BaseName;
    PlainNotEmpty(p);
    var last := p[|p| - 1];
    if |p| == 1 {
      assert Join(p) == p[0] by { JoinOne(p); }
      BasePlain(last);
    } else {
      var front := p[..|p| - 1];
      assert p == front + [last];
      JoinSnoc(front, last);
      BaseAfterSlash(Join(front), last);
    }
  }

  lemma JoinOne(p: Path)
    requires |p| == 1
    ensures Join(p) == p[0]
  {
  }

  lemma JoinTwo(a: Name, b: Name)
    ensures Join([a, b]) == a + "/" + b
  {
    assert [a, b][1..] == [b];
  }

  // ---------------------------------------------------------------- a directory anywhere on the way

  function Wrapped(p: Path): string
    requires p != []
  {
    "/" + Join(p) + "/"
  }

  lemma WrappedTail(p: Path)
    requires |p| > 1
    ensures Wrapped(p) == "/" + p[0] + Wrapped(p[1..])
  {
  }

  lemma {:induction false} NameIsContained(p: Path, i: nat)
    requires i < |p|
    ensures Contains(Wrapped(p), "/" + p[i] + "/")
    decreases |p|
  {
    hide Wrapped, Join;
    var part := "/" + p[i] + "/";
    if i == 0 {
      var rest := RestAfterHead(p);
      assert Wrapped(p) == "" + part + rest;
    } else {
      NameIsContained(p[1..], i - 1);
      assert p[1..][i - 1] == p[i];
      var a, b :| Wrapped(p[1..]) == a + part + b;
      WrappedTail(p);
      assert Wrapped(p) == ("/" + p[0] + a) + part + b;
    }
  }

  lemma RestAfterHead(p: Path) returns (rest: string)
    requires p != []
    ensures Wrapped(p) == "/" + p[0] + "/" + rest && (|p| == 1 ==> rest == "")
  {
    rest := if |p| == 1 then "" else Join(p[1..]) + "/";
    assert |p| > 1 ==> Wrapped(p) == "/" + p[0] + "/" + (Join(p[1..]) + "/");
    assert |p| == 1 ==> Wrapped(p) == "/" + p[0] + "/" + "";
  }

  lemma {:induction false} ContainedIsName(p: Path, n: Name, a: string, b: string)
    requires PlainPath(p) && '/' !in n && Wrapped(p) == a + ("/" + n + "/") + b
    ensures n in p
    decreases |p|
  {
    hide Wrapped, Join;
    assert PlainName(p[0]);
    var s := Wrapped(p);
    var rest := RestAfterHead(p);
    var x := "/" + rest;
    assert s == "/" + (p[0] + x);
    if a == "" {
      var y := "/" + b;
      assert s == "/" + (n + y);
      assert p[0] + x == s[1..] == n + y;
      HeadDetermined(p[0], n, x, y);
    } else {
      SlashNotInHead(p[0], x, a, ("/" + n + "/") + b);
      assert |s| >= |a| + 2;
      assert |p| > 1;
      WrappedTail(p);
      var a' := a[1 + |p[0]|..];
      assert Wrapped(p[1..]) == s[1 + |p[0]|..] == a' + ("/" + n + "/") + b;
      ContainedIsName(p[1..], n, a', b);
    }
  }

  /** A slash that is not the first character lies behind the head, which has none. */
  lemma SlashNotInHead(head: string, x: string, a: string, rest: string)
    requires '/' !in head && a != "" && rest != "" && rest[0] == '/' && "/" + (head + x) == a + rest
    ensures |a| >= 1 + |head|
  {
    var s := "/" + (head + x);
    assert s[|a|] == (a + rest)[|a|] == '/';
    forall i | 1 <= i < 1 + |head|
      ensures s[i] != '/'
    {
      assert s[i] == head[i - 1] && head[i - 1] in head;
    }
  }

  lemma ContainsIsIn(p: Path, n: Name)
    requires PlainPath(p) && '/' !in n
    ensures Contains("/" + Join(p) + "/", "/" + n + "/") <==> n in p
  {
    assert Wrapped(p) == "/" + Join(p) + "/";
    hide Wrapped, Join;
    if n in p {
      var i :| 0 <= i < |p| && p[i] == n;
      NameIsContained(p, i);
    }
    if a, b :| Wrapped(p) == a + ("/" + n + "/") + b {
      ContainedIsName(p, n, a, b);
    }
  }

  // ---------------------------------------------------------------- names

  lemma EndsWithIff(n: string, suffix: string)
    ensures EndsWith(n, suffix) <==> HasSuffix(n, suffix)
  {
    if EndsWith(n, suffix) {
      assert n == n[..|n| - |suffix|] + suffix;
    }
  }

  lemma ScriptIff(n: string)
    ensures IsRuntimeScript(n) <==> MatchesScript(n)
  {
    if IsRuntimeScript(n) {
      ScriptParts(n);
    }
    if digits: string, extension: string :|
      n == "code_" + digits + "." + extension && |digits| == 8
      && (forall i :: 0 <= i < 8 ==> digits[i] in "0123456789abcdef")
      && extension in {"py", "sh", "js", "ts", "tsx", "jsx", "bash", "zsh", "txt"} {
      ScriptWhole(digits, extension);
    }
  }

  lemma ScriptParts(n: string)
    requires IsRuntimeScript(n)
    ensures MatchesScript(n)
  {
    var digits, extension := n[5..13], n[14..];
    assert n[..5] == "code_" && n[13..14] == ".";
    assert n == n[..5] + digits + n[13..14] + extension;
    assert forall i :: 0 <= i < 8 ==> digits[i] == n[5 + i];
    hide IsRuntimeScript;
  }

  lemma ScriptWhole(digits: string, extension: string)
    requires |digits| == 8 && (forall i :: 0 <= i < 8 ==> digits[i] in "0123456789abcdef")
    requires extension in {"py", "sh", "js", "ts", "tsx", "jsx", "bash", "zsh", "txt"}
    ensures IsRuntimeScript("code_" + digits + "." + extension)
  {
    var n := "code_" + digits + "." + extension;
    assert n[14..] == extension && n[13] == '.' && n[..5] == "code_";
    assert forall i :: 5 <= i < 13 ==> n[i] == digits[i - 5];
  }

  lemma RequirementsIff(n: string)
    ensures IsRequirements(n) <==> MatchesRequirements(n)
  {
    if IsRequirements(n) {
      RequirementsParts(n);
    }
    hide IsRequirements;
    if n == "requirements.txt" {
      assert IsRequirements(n) by { PlainRequirements(); }
    } else if tag: string :| n == "requirements." + tag + ".txt" && tag != "" && TagOnly(tag) {
      RequirementsWhole(tag);
    }
  }

  lemma PlainRequirements()
    ensures IsRequirements("requirements.txt")
  {
  }

  lemma RequirementsParts(n: string)
    requires IsRequirements(n)
    ensures MatchesRequirements(n)
  {
    if n != "requirements.txt" {
      var tag := n[13..|n| - 4];
      assert n[..13] == "requirements." && n[|n| - 4..] == ".txt";
      assert n == n[..13] + tag + n[|n| - 4..];
      assert forall i :: 0 <= i < |tag| ==> tag[i] == n[13 + i];
      assert TagOnly(tag);
    }
  }

  lemma RequirementsWhole(tag: string)
    requires tag != "" && TagOnly(tag)
    ensures IsRequirements("requirements." + tag + ".txt")
  {
    var n := "requirements." + tag + ".txt";
    assert n[..13] == "requirements." && n[|n| - 4..] == ".txt";
    assert forall i :: 13 <= i < |n| - 4 ==> n[i] == tag[i - 13];
  }

  lemma ThrowawayIff(n: Name)
    ensures ThrowawayName(n) <==>
      (|| n == "runtime_requirements.txt" || n == "__pycache__"
       || HasSuffix(n, ".log") || HasSuffix(n, ".tmp") || HasSuffix(n, ".temp")
       || HasSuffix(n, ".pyc") || HasSuffix(n, ".pyo")
       || MatchesScript(n) || MatchesRequirements(n))
  {
    EndsWithIff(n, ".log");
    EndsWithIff(n, ".tmp");
    EndsWithIff(n, ".temp");
    EndsWithIff(n, ".pyc");
    EndsWithIff(n, ".pyo");
    ScriptIff(n);
    RequirementsIff(n);
    hide EndsWith, HasSuffix, IsRuntimeScript, MatchesScript, IsRequirements, MatchesRequirements;
  }

  // ---------------------------------------------------------------- the classes agree

  lemma TrimPlain(p: Path)
    requires PlainPath(p)
    ensures TrimSlash(Join(p)) == Join(p) && TrimLeftSlash(Join(p)) == Join(p)
  {
    JoinEnds(p);
    assert PlainName(p[0]) && PlainName(p[|p| - 1]);
    assert p[0][0] in p[0] && p[|p| - 1][|p[|p| - 1]| - 1] in p[|p| - 1];
  }

  lemma RuntimeNames()
    ensures PlainName(".linx_runtime") && PlainName("pip_cache") && PlainName("python_deps")
  {
  }

  lemma RuntimeTexts()
    ensures "/" + ".linx_runtime" + "/" + "python_deps" + "/" == "/.linx_runtime/python_deps/"
    ensures ".linx_runtime" + "/" + "pip_cache" + "/" == ".linx_runtime/pip_cache/"
    ensures "/" + "__pycache__" + "/" == "/__pycache__/" && '/' !in "__pycache__"
    ensures "logs" + "/" == "logs/" && "tasks" + "/" == "tasks/" && "input" + "/" == "input/"
  {
  }

  lemma DirectoryNames()
    ensures PlainName("logs") && PlainName("tasks") && PlainName("input") && PlainName("workspace")
  {
  }

  /** The same prefix tests for a directory in a directory. */
  lemma TwoDirectories(q: Path, a: Name, b: Name)
    requires PlainPath(q) && PlainName(a) && PlainName(b)
    ensures a + "/" + b + "/" <= Join(q) <==> |q| > 2 && q[0] == a && q[1] == b
    ensures "/" + a + "/" + b + "/" <= "/" + Join(q) + "/" <==> |q| >= 2 && q[0] == a && q[1] == b
  {
    hide Join, PlainName, PlainPath;
    var e := [a, b];
    PlainTwo(a, b);
    PlainNotEmpty(q);
    JoinTwo(a, b);
    BelowIsPrefix(e, q);
    WrappedIsPrefix(e, q);
    assert e <= q <==> |q| >= 2 && q[0] == a && q[1] == b;
    SlashesAround(a, b);
  }

  lemma PlainTwo(a: Name, b: Name)
    requires PlainName(a) && PlainName(b)
    ensures PlainPath([a, b])
  {
    hide PlainName;
  }

  lemma SlashesAround(a: string, b: string)
    ensures (a + "/" + b) + "/" == a + "/" + b + "/"
    ensures "/" + (a + "/" + b) + "/" == "/" + a + "/" + b + "/"
  {
  }

  lemma StatefulAgrees(q: Path)
    requires PlainPath(q)
    ensures IsStatefulText(Join(q)) <==> IsStatefulRuntimePath(q)
  {
    RuntimeNames();
    TrimPlain(q);
    hide Join, PlainName, PlainPath, TrimSlash;
    TwoDirectories(q, ".linx_runtime", "python_deps");
    RuntimeTexts();
  }

  /** The rules for a base name and for a directory on the way, put together as the components see them. */
  ghost predicate EphemeralParts(q: Path)
    requires q != []
  {
    var n := q[|q| - 1];
    || (|q| > 1 && q[0] == "logs") || (|q| > 1 && q[0] == "tasks")
    || (|q| > 2 && q[0] == ".linx_runtime" && q[1] == "pip_cache")
    || n == "runtime_requirements.txt"
    || HasSuffix(n, ".log") || HasSuffix(n, ".tmp") || HasSuffix(n, ".temp")
    || HasSuffix(n, ".pyc") || HasSuffix(n, ".pyo")
    || "__pycache__" in q || MatchesScript(n) || MatchesRequirements(n)
  }

  lemma EphemeralPartsIff(q: Path)
    requires q != []
    ensures EphemeralParts(q) <==> IsEphemeralPath(q)
  {
    ThrowawayIff(q[|q| - 1]);
    hide ThrowawayName, HasSuffix, MatchesScript, MatchesRequirements;
  }

  lemma EphemeralAgrees(q: Path)
    requires PlainPath(q)
    ensures IsEphemeralText(Join(q)) <==> IsEphemeralPath(q)
  {
    hide Join, HasSuffix, MatchesScript, MatchesRequirements, Contains, TrimSlash, BaseName, PlainPath, PlainName;
    hide IsEphemeralPath;
    DirectoryNames();
    RuntimeTexts();
    PlainNotEmpty(q);
    EphemeralPartsIff(q);
    var s := Join(q);
    assert TrimSlash(s) == s by { TrimPlain(q); }
    assert BaseName(s) == q[|q| - 1] by { BaseOfPath(q); }
    assert "logs/" <= s <==> |q| > 1 && q[0] == "logs" by { OneDirectory(q, "logs"); }
    assert "tasks/" <= s <==> |q| > 1 && q[0] == "tasks" by { OneDirectory(q, "tasks"); }
    PipCache(q);
    assert Contains("/" + s + "/", "/__pycache__/") <==> "__pycache__" in q by { ContainsIsIn(q, "__pycache__"); }
  }

  lemma OneDirectory(q: Path, name: Name)
    requires PlainPath(q) && PlainName(name)
    ensures name + "/" <= Join(q) <==> |q| > 1 && q[0] == name
  {
    var e := [name];
    hide Join, PlainName;
    JoinOne(e);
    BelowIsPrefix(e, q);
    assert e <= q <==> q[0] == name;
  }

  lemma PipCache(q: Path)
    requires PlainPath(q)
    ensures ".linx_runtime/pip_cache/" <= Join(q) <==> |q| > 2 && q[0] == ".linx_runtime" && q[1] == "pip_cache"
  {
    var e := [".linx_runtime", "pip_cache"];
    RuntimeNames();
    hide Join, PlainName, PlainPath;
    TwoDirectories(q, ".linx_runtime", "pip_cache");
    RuntimeTexts();
  }

  /** The normalised text of a path is the text of what lies below a leading workspace directory. */
  lemma NormalizeRooted(p: Path)
    requires PlainPath(p)
    ensures PlainPath(Rooted(p)) && NormalizeRelativePath(Join(p)) == Join(Rooted(p))
  {
    var s := Join(p);
    DirectoryNames();
    RootedPlain(p);
    assert |p| > 1 && p[0] == "workspace" ==> s == "workspace" + "/" + Join(p[1..]);
    assert "workspace" + "/" == "workspace/";
    hide Join, PlainPath, PlainName, Strip, ReplaceBackslash, TrimLeftSlash, TrimSlash;
    CleanText(p);
    TrimPlain(p);
    OneDirectory(p, "workspace");
    TrimPlain(Rooted(p));
    if |p| > 1 && p[0] == "workspace" {
      assert s[10..] == Join(p[1..]);
    }
  }

  lemma RootedPlain(p: Path)
    requires PlainPath(p)
    ensures PlainPath(Rooted(p))
  {
    hide PlainName;
  }

  lemma CleanText(p: Path)
    requires PlainPath(p)
    ensures Strip(ReplaceBackslash(Join(p))) == Join(p)
  {
    hide Join, Strip, ReplaceBackslash, IsSpace;
    JoinEnds(p);
    NoBackslash(Join(p));
    assert PlainName(p[0]) && PlainName(p[|p| - 1]);
    StripStripped(Join(p));
  }

  /** Main result: the rules on the text of a path and the rules on its components give it the same class. */
  lemma ClassesAgree(p: Path)
    requires PlainPath(p)
    ensures ClassifyText(Join(p)) == Classify(p)
  {
    DirectoryNames();
    hide Join, Lower, LowerPath, Rooted, PlainPath, PlainName, IsStatefulText, IsEphemeralText, NormalizeRelativePath;
    hide IsStatefulRuntimePath, IsEphemeralPath;
    PlainNotEmpty(p);
    NormalizeRooted(p);
    var r := Rooted(p);
    LowerJoin(r);
    LowerPlain(r);
    var q := LowerPath(r);
    assert q != [] by { PlainNotEmpty(q); }
    StatefulAgrees(q);
    EphemeralAgrees(q);
    OneDirectory(q, "input");
    assert Join(r) != "" by { JoinEnds(r); }
    RuntimeTexts();
    assert Classify(p) == ClassifySeen(q);
    assert ClassifyText(Join(p)) ==
           if IsStatefulText(Join(q)) then StatefulRuntime
           else if IsEphemeralText(Join(q)) then Ephemeral
           else if "input/" <= Join(q) then Rebuildable
           else Durable;
    hide ClassifyText, Classify;
  }

  lemma PlainNotEmpty(p: Path)
    requires PlainPath(p)
    ensures p != [] && '/' !in p[|p| - 1]
  {
    assert PlainName(p[|p| - 1]);
  }
}
