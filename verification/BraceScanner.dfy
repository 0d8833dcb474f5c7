/**
 The quote-aware scanner that finds balanced JSON objects in model output, what its spans are on any
 text, and that it finds every object the printer writes.
 */
module BraceScanner {
  import opened Common
  import opened JsonText

  datatype State = State(depth: nat, start: Option<nat>, inString: bool, escapeNext: bool)

  datatype Span = Span(from: nat, to: nat)

  const OUTSIDE := State(0, None, false, false)

  /** One character of the scan, with the span it completes if any. */
  function Advance(s: State, c: char, idx: nat): (State, seq<Span>) {
    if s.escapeNext then (s.(escapeNext := false), [])
    else if s.inString then
      (if c == '\\' then s.(escapeNext := true) else if c == '"' then s.(inString := false) else s, [])
    else if c == '"' then (s.(inString := true), [])
    else if c == '{' then
      (s.(depth := s.depth + 1, start := if s.depth == 0 then Some(idx) else s.start), [])
    else if c == '}' && s.depth > 0 then
      if s.depth == 1 && s.start.Some? then (s.(depth := 0, start := None), [Span(s.start.value, idx + 1)])
      else (s.(depth := s.depth - 1), [])
    else (s, [])
  }

  /** The scan of the first k characters. */
  function ScanPrefix(text: string, k: nat): (State, seq<Span>)
    requires k <= |text|
  {
    if k == 0 then (OUTSIDE, [])
    else
      var (s, spans) := ScanPrefix(text, k - 1);
      var (s', found) := Advance(s, text[k - 1], k - 1);
      (s', spans + found)
  }

  function Spans(text: string): seq<Span> {
    ScanPrefix(text, |text|).1
  }

  datatype Found = Found(text: string, from: nat, to: nat)

  /** _extract_balanced_json_objects */
  method ExtractBalancedJsonObjects(text: string) returns (objects: seq<Found>)
    ensures |objects| == |Spans(text)|
    ensures forall i :: 0 <= i < |objects| ==>
      var span := Spans(text)[i];
      span.from <= span.to <= |text| && objects[i] == Found(text[span.from..span.to], span.from, span.to)
  {
    objects := [];
    if text == "" {
      return;
    }
    var depth := 0;
    var start: Option<nat> := None;
    var inString, escapeNext := false, false;
    for idx := 0 to |text|
      invariant 0 <= depth
      invariant ScanPrefix(text, idx).0 == State(depth, start, inString, escapeNext)
      invariant start.Some? ==> start.value < idx
      invariant |objects| == |ScanPrefix(text, idx).1|
      invariant forall i :: 0 <= i < |objects| ==>
        var span := ScanPrefix(text, idx).1[i];
        span.from <= span.to <= idx && objects[i] == Found(text[span.from..span.to], span.from, span.to)
    {
      var c := text[idx];
      if escapeNext {
        escapeNext := false;
        continue;
      }
      if inString {
        if c == '\\' {
          escapeNext := true;
        } else if c == '"' {
          inString := false;
        }
        continue;
      }
      if c == '"' {
        inString := true;
        continue;
      }
      if c == '{' {
        if depth == 0 {
          start := Some(idx);
        }
        depth := depth + 1;
        continue;
      }
      if c == '}' && depth > 0 {
        depth := depth - 1;
        if depth == 0 && start.Some? {
          objects := objects + [Found(text[start.value..idx + 1], start.value, idx + 1)];
          start := None;
        }
      }
    }
  }

  // ---------------------------------------------------------------- what a span is, on any text

  function After(text: string, k: nat): State
    requires k <= |text|
  {
    ScanPrefix(text, k).0
  }

  /**
   An object opens at from, outside any string and at depth 0, stays open up to to,
   and is closed there.
   */
  ghost predicate IsObjectSpan(text: string, span: Span) {
    && span.from < span.to <= |text|
    && text[span.from] == '{' && After(text, span.from).depth == 0 && !After(text, span.from).inString
    && (forall k :: span.from < k < span.to ==> After(text, k).depth > 0)
    && After(text, span.to).depth == 0
  }

  /** Where the object still open began. */
  ghost predicate StartTracked(text: string, k: nat)
    requires k <= |text|
  {
    var s := After(text, k);
    && (s.escapeNext ==> s.inString)
    && (s.start.Some? <==> s.depth > 0)
    && (s.depth > 0 ==>
          var a := s.start.value;
          && a < k && text[a] == '{' && After(text, a).depth == 0 && !After(text, a).inString
          && (forall m :: a < m <= k ==> After(text, m).depth > 0))
  }

  /** The spans found so far are spans, in order, before the object still open. */
  ghost predicate SpansTracked(text: string, k: nat)
    requires k <= |text|
  {
    var (s, spans) := ScanPrefix(text, k);
    && (forall i :: 0 <= i < |spans| ==> IsObjectSpan(text, spans[i]) && spans[i].to <= k)
    && (s.start.Some? ==> forall i :: 0 <= i < |spans| ==> spans[i].to <= s.start.value)
    && (forall i, j :: 0 <= i < j < |spans| ==> spans[i].to <= spans[j].from)
  }

  /** No span that has ended is missing. */
  ghost predicate SpansComplete(text: string, k: nat)
    requires k <= |text|
  {
    forall span :: IsObjectSpan(text, span) && span.to <= k ==> span in ScanPrefix(text, k).1
  }

  /** What the scan knows after k characters. */
  ghost predicate Tracks(text: string, k: nat)
    requires k <= |text|
  {
    StartTracked(text, k) && SpansTracked(text, k) && SpansComplete(text, k)
  }

  lemma {:induction false} ScanTracks(text: string, k: nat)
    requires k <= |text|
    ensures Tracks(text, k)
  {
    if k > 0 {
      ScanTracks(text, k - 1);
      TrackStep(text, k - 1);
    }
  }

  lemma ScanStep(text: string, k: nat)
    requires k < |text|
    ensures After(text, k + 1) == Advance(After(text, k), text[k], k).0
    ensures ScanPrefix(text, k + 1).1 == ScanPrefix(text, k).1 + Advance(After(text, k), text[k], k).1
  {
  }

  lemma TrackStep(text: string, k: nat)
    requires k < |text| && Tracks(text, k)
    ensures Tracks(text, k + 1)
  {
    hide StartTracked, SpansTracked, SpansComplete;
    StartStep(text, k);
    SpansStep(text, k);
    CompleteStep(text, k);
  }

  lemma StartStep(text: string, k: nat)
    requires k < |text| && StartTracked(text, k)
    ensures StartTracked(text, k + 1)
  {
    ScanStep(text, k);
    hide ScanPrefix;
    hide After;
  }

  lemma SpansStep(text: string, k: nat)
    requires k < |text| && StartTracked(text, k) && SpansTracked(text, k)
    ensures SpansTracked(text, k + 1)
  {
    ScanStep(text, k);
    var s, t := After(text, k), After(text, k + 1);
    var spans, spans' := ScanPrefix(text, k).1, ScanPrefix(text, k + 1).1;
    assert s.start.Some? <==> s.depth > 0;
    if t.depth == 0 && s.depth > 0 {
      ClosesHere(text, k);
      assert spans' == spans + [Span(s.start.value, k + 1)];
    } else {
      assert spans' == spans;
      assert t.start == s.start || t.start == Some(k);
    }
    hide Advance, IsObjectSpan, StartTracked, After;
  }

  lemma CompleteStep(text: string, k: nat)
    requires k < |text| && StartTracked(text, k) && SpansComplete(text, k)
    ensures SpansComplete(text, k + 1)
  {
    ScanStep(text, k);
    hide ScanPrefix;
    forall span | IsObjectSpan(text, span) && span.to == k + 1
      ensures span in ScanPrefix(text, k + 1).1
    {
      SpanEndsHere(text, k, span);
    }
    hide IsObjectSpan;
  }

  /** The object whose depth returns to 0 with this character is a span. */
  lemma ClosesHere(text: string, k: nat)
    requires k < |text| && StartTracked(text, k) && After(text, k).depth > 0 && After(text, k + 1).depth == 0
    ensures IsObjectSpan(text, Span(After(text, k).start.value, k + 1))
  {
    hide ScanPrefix;
  }

  /** A span that ends at this character is the one the scan completes here. */
  lemma SpanEndsHere(text: string, k: nat, span: Span)
    requires k < |text| && StartTracked(text, k) && IsObjectSpan(text, span) && span.to == k + 1
    ensures After(text, k).depth > 0 && span == Span(After(text, k).start.value, k + 1)
  {
    var s := After(text, k);
    assert After(text, span.from + 1).depth == 1;
    assert k > span.from;
    assert s.depth > 0;
  }

  /**
   On any text the spans are exactly the places where an object opens at depth 0 outside strings and
   first returns to depth 0, each once, in increasing order and without overlap.
   */
  lemma SpansCharacterised(text: string)
    ensures forall span :: span in Spans(text) <==> IsObjectSpan(text, span)
    ensures forall i, j :: 0 <= i < j < |Spans(text)| ==> Spans(text)[i].to <= Spans(text)[j].from
  {
    ScanTracks(text, |text|);
    forall span | span in Spans(text)
      ensures IsObjectSpan(text, span)
    {
      var i :| 0 <= i < |Spans(text)| && Spans(text)[i] == span;
    }
  }

  // ---------------------------------------------------------------- scanning a concatenation

  /** The scan of a piece of text that starts at offset off in the given state. */
  function ScanFrom(piece: string, off: nat, s: State): (State, seq<Span>)
    decreases |piece|
  {
    if piece == "" then (s, [])
    else
      var (s1, found) := Advance(s, piece[0], off);
      var (s2, rest) := ScanFrom(piece[1..], off + 1, s1);
      (s2, found + rest)
  }

  lemma {:induction false} ScanConcat(a: string, b: string, off: nat, s: State)
    ensures var (s1, x) := ScanFrom(a, off, s);
      var (s2, y) := ScanFrom(b, off + |a|, s1);
      ScanFrom(a + b, off, s) == (s2, x + y)
    decreases |a|
  {
    var (s1, x) := ScanFrom(a, off, s);
    var (s2, y) := ScanFrom(b, off + |a|, s1);
    if a == "" {
      assert a + b == b;
      assert x + y == y;
    } else {
      assert (a + b)[1..] == a[1..] + b;
      var (mid, found) := Advance(s, a[0], off);
      ScanConcat(a[1..], b, off + 1, mid);
      var x' := ScanFrom(a[1..], off + 1, mid).1;
      assert found + (x' + y) == x + y;
    }
  }

  lemma {:induction false} PrefixIsScanFrom(text: string, k: nat)
    requires k <= |text|
    ensures ScanPrefix(text, k) == ScanFrom(text[..k], 0, OUTSIDE)
  {
    if k > 0 {
      PrefixIsScanFrom(text, k - 1);
      assert text[..k] == text[..k - 1] + [text[k - 1]];
      var (s, spans) := ScanPrefix(text, k - 1);
      ScanConcat(text[..k - 1], [text[k - 1]], 0, OUTSIDE);
      ScanOne(text[k - 1], k - 1, s);
    }
  }

  lemma SpansAreScanFrom(text: string)
    ensures Spans(text) == ScanFrom(text, 0, OUTSIDE).1
  {
    PrefixIsScanFrom(text, |text|);
    assert text[..|text|] == text;
  }

  // ---------------------------------------------------------------- printed text

  /** Inside an object and outside strings, the piece leaves the scan as it found it. */
  ghost predicate Neutral(piece: string) {
    forall off: nat, s: State :: s.depth > 0 && !s.inString && !s.escapeNext ==> ScanFrom(piece, off, s) == (s, [])
  }

  lemma NeutralConcat(a: string, b: string)
    requires Neutral(a) && Neutral(b)
    ensures Neutral(a + b)
  {
    forall off: nat, s: State | s.depth > 0 && !s.inString && !s.escapeNext
      ensures ScanFrom(a + b, off, s) == (s, [])
    {
      ScanConcat(a, b, off, s);
    }
  }

  lemma {:induction false} PlainIsInert(piece: string, off: nat, s: State)
    requires IsPlain(piece) && !s.inString && !s.escapeNext
    ensures ScanFrom(piece, off, s) == (s, [])
    decreases |piece|
  {
    if piece != "" {
      PlainIsInert(piece[1..], off + 1, s);
      NothingFound(piece, off, s, s);
    }
  }

  lemma PlainIsNeutral(piece: string)
    requires IsPlain(piece)
    ensures Neutral(piece)
  {
    forall off: nat, s: State | s.depth > 0 && !s.inString && !s.escapeNext
      ensures ScanFrom(piece, off, s) == (s, [])
    {
      PlainIsInert(piece, off, s);
    }
  }

  /** An escaped character never ends the string it is in. */
  lemma EscapeCharStaysInString(c: char, off: nat, s: State)
    requires s.inString && !s.escapeNext
    ensures ScanFrom(EscapeChar(c), off, s) == (s, [])
  {
    var e := EscapeChar(c);
    EscapeCharShape(c);
    if |e| == 1 {
      ScanOne(e[0], off, s);
    } else {
      var mid := s.(escapeNext := true);
      NothingFound(e, off, s, mid);
      NothingFound(e[1..], off + 1, mid, s);
      assert e[1..][1..] == e[2..];
      InStringPlain(e[2..], off + 2, s);
    }
  }

  /** One harmless character, or a backslash, any character, and then harmless ones. */
  lemma EscapeCharShape(c: char)
    ensures var e := EscapeChar(c);
      || (|e| == 1 && e[0] != '"' && e[0] != '\\')
      || (|e| >= 2 && e[0] == '\\' && forall i :: 2 <= i < |e| ==> e[i] != '"' && e[i] != '\\')
  {
    assert forall i :: 0 <= i < 16 ==> HEX_DIGITS[i] != '"' && HEX_DIGITS[i] != '\\';
  }

  lemma {:induction false} InStringPlain(piece: string, off: nat, s: State)
    requires s.inString && !s.escapeNext
    requires forall i :: 0 <= i < |piece| ==> piece[i] != '"' && piece[i] != '\\'
    ensures ScanFrom(piece, off, s) == (s, [])
    decreases |piece|
  {
    if piece != "" {
      InStringPlain(piece[1..], off + 1, s);
      NothingFound(piece, off, s, s);
    }
  }

  lemma NothingFound(piece: string, off: nat, s: State, mid: State)
    requires piece != "" && Advance(s, piece[0], off) == (mid, [])
    ensures ScanFrom(piece, off, s) == ScanFrom(piece[1..], off + 1, mid)
  {
    var rest := ScanFrom(piece[1..], off + 1, mid).1;
    assert [] + rest == rest;
  }

  lemma {:induction false} EscapeStaysInString(text: string, off: nat, s: State)
    requires s.inString && !s.escapeNext
    ensures ScanFrom(Escape(text), off, s) == (s, [])
    decreases |text|
  {
    if text != "" {
      var head, rest := EscapeChar(text[0]), Escape(text[1..]);
      assert Escape(text) == head + rest;
      hide ScanFrom, EscapeChar, Escape;
      EscapeCharStaysInString(text[0], off, s);
      EscapeStaysInString(text[1..], off + |head|, s);
      LeftAloneTogether(head, rest, off, s);
    }
  }

  /** Two pieces that leave a state alone do so together. */
  lemma LeftAloneTogether(a: string, b: string, off: nat, s: State)
    requires ScanFrom(a, off, s) == (s, []) && ScanFrom(b, off + |a|, s) == (s, [])
    ensures ScanFrom(a + b, off, s) == (s, [])
  {
    ScanConcat(a, b, off, s);
    hide ScanFrom;
    var none: seq<Span> := [];
    assert none + none == none;
  }

  lemma QuoteIsNeutral(text: string)
    ensures Neutral(Quote(text))
  {
    forall off: nat, s: State | s.depth > 0 && !s.inString && !s.escapeNext
      ensures ScanFrom(Quote(text), off, s) == (s, [])
    {
      QuoteLeavesState(text, off, s);
    }
  }

  lemma QuoteLeavesState(text: string, off: nat, s: State)
    requires !s.inString && !s.escapeNext
    ensures ScanFrom(Quote(text), off, s) == (s, [])
  {
    hide ScanFrom, Escape;
    var inside := s.(inString := true);
    EscapeStaysInString(text, off + 1, inside);
    ScanOne('"', off, s);
    ScanOne('"', off + 1 + |Escape(text)|, inside);
    ScanConcat("\"", Escape(text), off, s);
    ScanConcat("\"" + Escape(text), "\"", off, s);
    var none: seq<Span> := [];
    assert none + none == none;
  }

  lemma ScanOne(c: char, off: nat, s: State)
    ensures ScanFrom([c], off, s) == Advance(s, c, off)
  {
    assert [c][1..] == "";
    var (s1, found) := Advance(s, c, off);
    assert found + [] == found;
  }

  /** From any depth, an object around a neutral body returns to that depth; at depth 0 it is one span. */
  lemma ScanBraced(body: string, off: nat, s: State)
    requires Neutral(body) && !s.inString && !s.escapeNext && (s.start.Some? <==> s.depth > 0)
    ensures ScanFrom("{" + body + "}", off, s) ==
      (s, if s.depth == 0 then [Span(off, off + |body| + 2)] else [])
  {
    var inner := Advance(s, '{', off).0;
    ScanOne('{', off, s);
    assert ScanFrom(body, off + 1, inner) == (inner, []);
    ScanOne('}', off + 1 + |body|, inner);
    ScanConcat("{", body, off, s);
    ScanConcat("{" + body, "}", off, s);
    assert ScanFrom("{" + body, off, s) == (inner, [] + []);
    assert ([] + []) + Advance(inner, '}', off + 1 + |body|).1 == Advance(inner, '}', off + 1 + |body|).1;
  }

  /** Inside an object nothing ever asks where it started. */
  lemma BracedIsNeutral(body: string)
    requires Neutral(body)
    ensures Neutral("{" + body + "}")
  {
    forall off: nat, s: State | s.depth > 0 && !s.inString && !s.escapeNext
      ensures ScanFrom("{" + body + "}", off, s) == (s, [])
    {
      var inner := s.(depth := s.depth + 1);
      ScanOne('{', off, s);
      assert ScanFrom(body, off + 1, inner) == (inner, []);
      ScanOne('}', off + 1 + |body|, inner);
      ScanConcat("{", body, off, s);
      ScanConcat("{" + body, "}", off, s);
    }
  }

  lemma {:induction false} PrintIsNeutral(j: Json)
    ensures Neutral(Print(j))
    decreases j, 1
  {
    match j
    case Null => PlainIsNeutral("null");
    case Bool(b) => PlainIsNeutral(if b then "true" else "false");
    case Number(text) => PlainIsNeutral(text);
    case Str(s) => QuoteIsNeutral(s);
    case Arr(items) =>
      PlainIsNeutral("[");
      ItemsAreNeutral(items);
      PlainIsNeutral("]");
      NeutralConcat("[", PrintItems(items));
      NeutralConcat("[" + PrintItems(items), "]");
    case Obj(fields) =>
      FieldsAreNeutral(fields);
      BracedIsNeutral(PrintFields(fields));
  }

  lemma {:induction false} ItemsAreNeutral(items: seq<Json>)
    ensures Neutral(PrintItems(items))
    decreases items, 0
  {
    PlainIsNeutral("");
    if items != [] {
      PrintIsNeutral(items[0]);
      PlainIsNeutral(", ");
      if |items| > 1 {
        ItemsAreNeutral(items[1..]);
        NeutralConcat(", ", PrintItems(items[1..]));
        NeutralConcat(Print(items[0]), ", " + PrintItems(items[1..]));
      } else {
        NeutralConcat(Print(items[0]), "");
      }
    }
  }

  lemma {:induction false} FieldsAreNeutral(fields: seq<Field>)
    ensures Neutral(PrintFields(fields))
    decreases fields, 0
  {
    PlainIsNeutral("");
    if fields != [] {
      var key, value := fields[0].key, fields[0].value;
      QuoteIsNeutral(key);
      PlainIsNeutral(": ");
      PrintIsNeutral(value);
      PlainIsNeutral(", ");
      NeutralConcat(Quote(key), ": ");
      NeutralConcat(Quote(key) + ": ", Print(value));
      var head := Quote(key) + ": " + Print(value);
      if |fields| > 1 {
        FieldsAreNeutral(fields[1..]);
        NeutralConcat(", ", PrintFields(fields[1..]));
        NeutralConcat(head, ", " + PrintFields(fields[1..]));
      } else {
        NeutralConcat(head, "");
      }
    }
  }

  // ---------------------------------------------------------------- the round trip

  /** Some text free of quotes and braces, then a printed object. */
  datatype Segment = Segment(gap: string, fields: seq<Field>)

  function Render(segments: seq<Segment>, tail: string): string {
    if segments == [] then tail
    else segments[0].gap + Print(Obj(segments[0].fields)) + Render(segments[1..], tail)
  }

  /** Where the printed objects lie when the text starts at offset off. */
  function ObjectSpans(segments: seq<Segment>, off: nat): seq<Span> {
    if segments == [] then []
    else
      var from := off + |segments[0].gap|;
      var to := from + |Print(Obj(segments[0].fields))|;
      [Span(from, to)] + ObjectSpans(segments[1..], to)
  }

  lemma {:induction false} ScanRendered(segments: seq<Segment>, tail: string, off: nat)
    requires IsPlain(tail) && forall i :: 0 <= i < |segments| ==> IsPlain(segments[i].gap)
    ensures ScanFrom(Render(segments, tail), off, OUTSIDE) == (OUTSIDE, ObjectSpans(segments, off))
    decreases |segments|
  {
    if segments == [] {
      PlainIsInert(tail, off, OUTSIDE);
    } else {
      var gap := segments[0].gap;
      var printed := Print(Obj(segments[0].fields));
      var rest := Render(segments[1..], tail);
      var to := off + |gap| + |printed|;
      ScanSegment(segments[0], off);
      hide ScanFrom, Print, PrintFields, IsPlain;
      ScanRendered(segments[1..], tail, to);
      ScanConcat(gap + printed, rest, off, OUTSIDE);
    }
  }

  lemma ScanSegment(segment: Segment, off: nat)
    requires IsPlain(segment.gap)
    ensures var from := off + |segment.gap|;
      var printed := Print(Obj(segment.fields));
      ScanFrom(segment.gap + printed, off, OUTSIDE) == (OUTSIDE, [Span(from, from + |printed|)])
  {
    var gap, body, printed := segment.gap, PrintFields(segment.fields), Print(Obj(segment.fields));
    hide ScanFrom, PrintFields, IsPlain;
    PlainIsInert(gap, off, OUTSIDE);
    FieldsAreNeutral(segment.fields);
    ScanBraced(body, off + |gap|, OUTSIDE);
    ScanConcat(gap, printed, off, OUTSIDE);
    var here: seq<Span> := [Span(off + |gap|, off + |gap| + |printed|)];
    assert [] + here == here;
  }

  /**
   Objects printed by the serialiser and interleaved with text free of quotes and braces
   are found at exactly their places, in order, and nothing else is found.
   */
  lemma PrintedObjectsFound(segments: seq<Segment>, tail: string)
    requires IsPlain(tail) && forall i :: 0 <= i < |segments| ==> IsPlain(segments[i].gap)
    ensures Spans(Render(segments, tail)) == ObjectSpans(segments, 0)
  {
    ScanRendered(segments, tail, 0);
    SpansAreScanFrom(Render(segments, tail));
  }

  /** The text between the ends of the i-th span is the i-th printed object. */
  lemma {:induction false} SpanTexts(segments: seq<Segment>, tail: string, before: string, i: nat)
    requires i < |segments|
    ensures |ObjectSpans(segments, |before|)| == |segments|
    ensures var span := ObjectSpans(segments, |before|)[i];
      var text := before + Render(segments, tail);
      span.from <= span.to <= |text| && text[span.from..span.to] == Print(Obj(segments[i].fields))
    decreases |segments|
  {
    var gap, printed := segments[0].gap, Print(Obj(segments[0].fields));
    var rest := Render(segments[1..], tail);
    var text := before + Render(segments, tail);
    var next := before + gap + printed;
    assert text == next + rest;
    SpanCount(segments, |before|);
    if i == 0 {
      assert text == (before + gap) + (printed + rest);
    } else {
      SpanTexts(segments[1..], tail, next, i - 1);
      assert ObjectSpans(segments, |before|)[i] == ObjectSpans(segments[1..], |next|)[i - 1];
    }
  }

  lemma {:induction false} SpanCount(segments: seq<Segment>, off: nat)
    ensures |ObjectSpans(segments, off)| == |segments|
    decreases |segments|
  {
    if segments != [] {
      SpanCount(segments[1..], off + |segments[0].gap| + |Print(Obj(segments[0].fields))|);
    }
  }

  /** The whole round trip: the extractor returns the printed objects themselves. */
  method ExtractPrinted(segments: seq<Segment>, tail: string) returns (objects: seq<Found>)
    requires IsPlain(tail) && forall i :: 0 <= i < |segments| ==> IsPlain(segments[i].gap)
    ensures |objects| == |segments|
    ensures forall i :: 0 <= i < |segments| ==> objects[i].text == Print(Obj(segments[i].fields))
  {
    var text := Render(segments, tail);
    objects := ExtractBalancedJsonObjects(text);
    PrintedObjectsFound(segments, tail);
    SpanCount(segments, 0);
    assert "" + text == text;
    forall i | 0 <= i < |segments|
      ensures objects[i].text == Print(Obj(segments[i].fields))
    {
      SpanTexts(segments, tail, "", i);
    }
  }
}
