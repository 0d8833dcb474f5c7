/**
 Compression of the prompt history: when the token estimate passes the threshold, old long texts are
 truncated, and if that is not enough old messages are pruned, newest kept first.
 */
module ContextCompression {
  import opened Common

  /** Parts are the texts that count in a list-valued content; a message of a foreign kind is never cloned. */
  datatype Content = Text(text: string) | Parts(texts: seq<string>) | NoContent

  datatype Message = Message(content: Content, cloneable: bool)

  datatype Settings = Settings(threshold: nat, tailSetting: int, truncateChars: nat)

  // ---------------------------------------------------------------- estimates

  function EstimateText(text: string): nat {
    if text == "" then 0 else if |text| / 2 > 1 then |text| / 2 else 1
  }

  function EstimateTexts(texts: seq<string>): nat {
    if texts == [] then 0 else EstimateText(texts[0]) + EstimateTexts(texts[1..])
  }

  function EstimateOne(m: Message): nat {
    match m.content
    case Text(text) => EstimateText(text)
    case Parts(texts) => EstimateTexts(texts)
    case NoContent => 0
  }

  function Estimate(ms: seq<Message>): nat {
    if ms == [] then 0 else EstimateOne(ms[0]) + Estimate(ms[1..])
  }

  lemma EstimateConcat(a: seq<Message>, b: seq<Message>)
    ensures Estimate(a + b) == Estimate(a) + Estimate(b)
  {
    if a == [] {
      assert a + b == b;
    } else {
      assert (a + b)[1..] == a[1..] + b;
      EstimateConcat(a[1..], b);
    }
  }

  /** The texts of a history that count. */
  function Texts(ms: seq<Message>): seq<string> {
    if ms == [] then []
    else
      var texts := match ms[0].content
        case Text(text) => [text]
        case Parts(texts) => texts
        case NoContent => [];
      texts + Texts(ms[1..])
  }

  function Characters(texts: seq<string>): nat {
    if texts == [] then 0 else |texts[0]| + Characters(texts[1..])
  }

  /** Texts that are not empty. */
  function Filled(texts: seq<string>): nat {
    if texts == [] then 0 else (if |texts[0]| > 0 then 1 else 0) + Filled(texts[1..])
  }

  lemma {:induction false} TextsHalf(texts: seq<string>)
    ensures Filled(texts) <= EstimateTexts(texts)
    ensures Characters(texts) <= 2 * EstimateTexts(texts) + Filled(texts)
    ensures 2 * EstimateTexts(texts) <= Characters(texts) + Filled(texts)
  {
    if texts != [] {
      TextsHalf(texts[1..]);
    }
  }

  lemma {:induction false} EstimateTextsConcat(a: seq<string>, b: seq<string>)
    ensures EstimateTexts(a + b) == EstimateTexts(a) + EstimateTexts(b)
  {
    if a == [] {
      assert a + b == b;
    } else {
      assert (a + b)[1..] == a[1..] + b;
      EstimateTextsConcat(a[1..], b);
    }
  }

  lemma {:induction false} EstimateOfTexts(ms: seq<Message>)
    ensures Estimate(ms) == EstimateTexts(Texts(ms))
  {
    if ms != [] {
      EstimateOfTexts(ms[1..]);
      var texts := Texts(ms[..1]);
      assert ms[..1][1..] == [] && Texts([]) == [];
      var rest := Texts(ms[1..]);
      match ms[0].content
      case Text(text) =>
        EstimateTextsConcat([text], rest);
        assert [text][1..] == [];
      case Parts(parts) => EstimateTextsConcat(parts, rest);
      case NoContent => assert [] + rest == rest;
    }
  }

  /** The estimate is half the characters of the texts that count, up to one character a text, and no text is free. */
  lemma EstimateIsHalf(ms: seq<Message>)
    ensures Filled(Texts(ms)) <= Estimate(ms)
    ensures Characters(Texts(ms)) <= 2 * Estimate(ms) + Filled(Texts(ms))
    ensures 2 * Estimate(ms) <= Characters(Texts(ms)) + Filled(Texts(ms))
  {
    EstimateOfTexts(ms);
    TextsHalf(Texts(ms));
  }

  // ---------------------------------------------------------------- truncation

  const MARKER := "\n...[#####]...\n"

  /** _truncate_text_for_context; the marker's five CJK characters are written as #. */
  function TruncateText(text: string, maxChars: nat): string {
    if |text| <= maxChars then text
    else if maxChars < 80 then text[..maxChars]
    else
      var keep := maxChars - |MARKER|;
      var head := keep * 3 / 4;
      var tail := keep - head;
      text[..head] + MARKER + text[|text| - tail..]
  }

  /** A truncated text has exactly the allowed length, so truncating again changes nothing; a short one stays. */
  lemma TruncateLength(text: string, maxChars: nat)
    ensures |text| <= maxChars ==> TruncateText(text, maxChars) == text
    ensures |TruncateText(text, maxChars)| == if |text| <= maxChars then |text| else maxChars
    ensures TruncateText(TruncateText(text, maxChars), maxChars) == TruncateText(text, maxChars)
    ensures |text| > maxChars >= 80 ==>
      var keep := maxChars - 15;
      text[..keep * 3 / 4] <= TruncateText(text, maxChars) &&
      TruncateText(text, maxChars)[maxChars - (keep - keep * 3 / 4)..] == text[|text| - (keep - keep * 3 / 4)..]
  {
    assert |MARKER| == 15;
  }

  predicate IsLong(m: Message, maxChars: nat) {
    m.content.Text? && |m.content.text| > maxChars
  }

  function TruncateMessage(m: Message, maxChars: nat): Message {
    if IsLong(m, maxChars) && m.cloneable then m.(content := Text(TruncateText(m.content.text, maxChars))) else m
  }

  function TruncateAll(ms: seq<Message>, maxChars: nat): (r: seq<Message>)
    ensures |r| == |ms| && forall i :: 0 <= i < |ms| ==> r[i] == TruncateMessage(ms[i], maxChars)
  {
    if ms == [] then [] else [TruncateMessage(ms[0], maxChars)] + TruncateAll(ms[1..], maxChars)
  }

  function CountLong(ms: seq<Message>, maxChars: nat): nat {
    if ms == [] then 0 else (if IsLong(ms[0], maxChars) then 1 else 0) + CountLong(ms[1..], maxChars)
  }

  /** Where the long texts are. */
  function LongPlaces(ms: seq<Message>, maxChars: nat): set<nat> {
    set i: nat | i < |ms| && ms[i].content.Text? && |ms[i].content.text| > maxChars
  }

  lemma {:induction false} CountLongIs(ms: seq<Message>, maxChars: nat)
    ensures CountLong(ms, maxChars) == |LongPlaces(ms, maxChars)|
  {
    if ms != [] {
      var init, last := ms[..|ms| - 1], ms[|ms| - 1];
      CountLongIs(init, maxChars);
      assert ms == init + [last] && [last][1..] == [];
      CountLongConcat(init, [last], maxChars);
      assert CountLong([last], maxChars) == (if IsLong(last, maxChars) then 1 else 0) + CountLong([], maxChars);
      var before, all := LongPlaces(init, maxChars), LongPlaces(ms, maxChars);
      assert all == if IsLong(last, maxChars) then before + {|init|} else before;
    }
  }

  lemma CountLongConcat(a: seq<Message>, b: seq<Message>, maxChars: nat)
    ensures CountLong(a + b, maxChars) == CountLong(a, maxChars) + CountLong(b, maxChars)
  {
    if a == [] {
      assert a + b == b;
    } else {
      assert (a + b)[1..] == a[1..] + b;
      CountLongConcat(a[1..], b, maxChars);
    }
  }

  lemma {:induction false} TruncateShrinks(ms: seq<Message>, maxChars: nat)
    ensures Estimate(TruncateAll(ms, maxChars)) <= Estimate(ms)
  {
    if ms != [] {
      TruncateShrinks(ms[1..], maxChars);
      if IsLong(ms[0], maxChars) {
        TruncateLength(ms[0].content.text, maxChars);
      }
      assert TruncateAll(ms, maxChars)[1..] == TruncateAll(ms[1..], maxChars);
    }
  }

  // ---------------------------------------------------------------- pruning

  /**
   From the newest message to the oldest, keep each one that still fits the budget.
   The budget may be negative, and then nothing fits.
   */
  function Prune(head: seq<Message>, budget: int): seq<Message>
    decreases |head|
  {
    if head == [] then []
    else
      var last := head[|head| - 1];
      var cost := EstimateOne(last);
      if cost <= budget then Prune(head[..|head| - 1], budget - cost) + [last]
      else Prune(head[..|head| - 1], budget)
  }

  lemma {:induction false} PruneFits(head: seq<Message>, budget: int)
    ensures Estimate(Prune(head, budget)) <= Max(budget, 0)
    ensures budget < 0 ==> Prune(head, budget) == []
    ensures |Prune(head, budget)| <= |head|
    decreases |head|
  {
    if head != [] {
      var last := head[|head| - 1];
      var front := head[..|head| - 1];
      PruneFits(front, budget);
      if EstimateOne(last) <= budget {
        PruneFits(front, budget - EstimateOne(last));
        EstimateConcat(Prune(front, budget - EstimateOne(last)), [last]);
      }
    }
  }

  /** a is what is left of b after deleting some elements. */
  predicate IsSubsequence(a: seq<Message>, b: seq<Message>)
    decreases |b|
  {
    if a == [] then true
    else if b == [] then false
    else if a[|a| - 1] == b[|b| - 1] then IsSubsequence(a[..|a| - 1], b[..|b| - 1])
    else IsSubsequence(a, b[..|b| - 1])
  }

  lemma {:induction false} SubsequenceDropLast(a: seq<Message>, b: seq<Message>)
    requires a != [] && IsSubsequence(a, b)
    ensures IsSubsequence(a[..|a| - 1], b)
    decreases |b|
  {
    var front := b[..|b| - 1];
    var a' := a[..|a| - 1];
    if a' != [] {
      if a[|a| - 1] == b[|b| - 1] {
        if a'[|a'| - 1] == b[|b| - 1] {
          SubsequenceDropLast(a', front);
        }
      } else {
        SubsequenceDropLast(a, front);
        if a'[|a'| - 1] == b[|b| - 1] {
          SubsequenceDropLast(a', front);
        }
      }
    }
  }

  lemma {:induction false} SubsequenceOfLonger(a: seq<Message>, b: seq<Message>)
    requires b != [] && IsSubsequence(a, b[..|b| - 1])
    ensures IsSubsequence(a, b)
  {
    if a != [] && a[|a| - 1] == b[|b| - 1] {
      SubsequenceDropLast(a, b[..|b| - 1]);
    }
  }

  lemma {:induction false} PruneIsSubsequence(head: seq<Message>, budget: int)
    ensures IsSubsequence(Prune(head, budget), head)
    decreases |head|
  {
    if head != [] {
      var last := head[|head| - 1];
      var front := head[..|head| - 1];
      if EstimateOne(last) <= budget {
        var kept := Prune(front, budget - EstimateOne(last));
        PruneIsSubsequence(front, budget - EstimateOne(last));
        assert (kept + [last])[..|kept|] == kept;
      } else {
        PruneIsSubsequence(front, budget);
        SubsequenceOfLonger(Prune(front, budget), head);
      }
    }
  }

  // ---------------------------------------------------------------- the compressor

  datatype Meta = Meta(estimatedBefore: nat, estimatedAfter: nat, truncated: nat, removed: nat)

  function ProtectedTail(s: Settings): nat {
    Max(2, s.tailSetting)
  }

  /** Where the protected tail starts; the first message is never part of what may change. */
  function TailStart(n: nat, s: Settings): nat {
    Max(1, n - ProtectedTail(s))
  }

  function Truncated(ms: seq<Message>, s: Settings): seq<Message> {
    if |ms| <= 1 then ms
    else
      var t := TailStart(|ms|, s);
      ms[..1] + TruncateAll(ms[1..t], s.truncateChars) + ms[t..]
  }

  function Pruned(ms: seq<Message>, s: Settings): seq<Message> {
    if Estimate(ms) <= s.threshold || |ms| <= 2 then ms
    else
      var t := TailStart(|ms|, s);
      ms[..1] + Prune(ms[1..t], s.threshold - Estimate(ms[..1] + ms[t..])) + ms[t..]
  }

  function Compress(ms: seq<Message>, s: Settings): seq<Message> {
    if Estimate(ms) <= s.threshold then ms else Pruned(Truncated(ms, s), s)
  }

  /** Step 2 of the compressor: the loop over the head from its newest message. */
  method PruneHead(head: seq<Message>, compact: nat, threshold: nat) returns (kept: seq<Message>, removed: nat)
    ensures kept == Prune(head, threshold - compact)
    ensures |kept| + removed == |head|
  {
    var compactTokens := compact;
    kept, removed := [], 0;
    var i := |head|;
    assert head[..i] == head && Prune(head, threshold - compact) + [] == Prune(head, threshold - compact);
    while i > 0
      invariant 0 <= i <= |head|
      invariant Prune(head[..i], threshold - compactTokens) + kept == Prune(head, threshold - compact)
      invariant |kept| + removed == |head| - i
    {
      i := i - 1;
      var cost := EstimateOne(head[i]);
      ghost var before := head[..i + 1];
      assert before[..i] == head[..i] && before[i] == head[i];
      if compactTokens + cost <= threshold {
        assert Prune(before, threshold - compactTokens) ==
               Prune(head[..i], threshold - compactTokens - cost) + [head[i]];
        kept := [head[i]] + kept;
        compactTokens := compactTokens + cost;
      } else {
        removed := removed + 1;
      }
    }
  }

  /** Step 1 of the compressor: truncates the long texts between the first message and the tail. */
  method TruncateOld(ms: seq<Message>, s: Settings) returns (r: seq<Message>, truncated: nat)
    ensures r == Truncated(ms, s)
    ensures truncated == if |ms| <= 1 then 0 else CountLong(ms[1..TailStart(|ms|, s)], s.truncateChars)
  {
    r, truncated := ms, 0;
    var mutableEnd := Max(1, |ms| - ProtectedTail(s));
    var idx := 1;
    while idx < mutableEnd
      invariant 1 <= idx <= mutableEnd
      invariant |r| == |ms|
      invariant forall i :: 0 <= i < |ms| ==>
        r[i] == if 1 <= i < idx then TruncateMessage(ms[i], s.truncateChars) else ms[i]
      invariant truncated == if |ms| <= 1 then 0 else CountLong(ms[1..idx], s.truncateChars)
    {
      assert ms[1..idx + 1] == ms[1..idx] + [ms[idx]];
      CountLongConcat(ms[1..idx], [ms[idx]], s.truncateChars);
      var msg := r[idx];
      if IsLong(msg, s.truncateChars) {
        if msg.cloneable {
          r := r[idx := msg.(content := Text(TruncateText(msg.content.text, s.truncateChars)))];
        }
        truncated := truncated + 1;
      }
      idx := idx + 1;
    }
    TruncatedAt(ms, s);
    assert |ms| > 1 ==> idx == TailStart(|ms|, s);
    hide CountLong, Truncated, TruncateMessage;
    assert forall i :: 0 <= i < |ms| ==> r[i] == Truncated(ms, s)[i];
  }

  lemma TruncatedAt(ms: seq<Message>, s: Settings)
    ensures |Truncated(ms, s)| == |ms|
    ensures forall i :: 0 <= i < |ms| ==>
      Truncated(ms, s)[i] == if 1 <= i < TailStart(|ms|, s) then TruncateMessage(ms[i], s.truncateChars) else ms[i]
  {
  }

  /** _compress_messages_if_needed. Kept and removed messages account for all. */
  method CompressMessagesIfNeeded(ms: seq<Message>, s: Settings) returns (r: seq<Message>, meta: Option<Meta>)
    ensures r == Compress(ms, s)
    ensures meta.None? ==> r == ms
    ensures Estimate(ms) <= s.threshold ==> meta.None?
    ensures meta.Some? ==>
      && meta.value.estimatedBefore == Estimate(ms) && meta.value.estimatedAfter == Estimate(r)
      && |r| + meta.value.removed == |ms|
      && meta.value.truncated == |LongPlaces(Head(ms, s), s.truncateChars)|
  {
    var before := Estimate(ms);
    if before <= s.threshold {
      return ms, None;
    }
    var truncated, removed := 0, 0;
    r, truncated := TruncateOld(ms, s);
    var afterTruncate := Estimate(r);
    ghost var mid := r;
    if afterTruncate > s.threshold && |r| > 2 {
      var t := TailStart(|r|, s);
      var compact := Estimate(r[..1] + r[t..]);
      var kept;
      kept, removed := PruneHead(r[1..t], compact, s.threshold);
      r := r[..1] + kept + r[t..];
    }
    assert r == Pruned(mid, s);
    var after := Estimate(r);
    if truncated == 0 && removed == 0 && after >= before {
      Untouched(ms, s, r);
      return ms, None;
    }
    CountLongIs(Head(ms, s), s.truncateChars);
    meta := Some(Meta(before, after, truncated, removed));
  }

  lemma {:induction false} NoneLong(ms: seq<Message>, maxChars: nat)
    requires CountLong(ms, maxChars) == 0
    ensures TruncateAll(ms, maxChars) == ms
  {
    if ms != [] {
      NoneLong(ms[1..], maxChars);
    }
  }

  lemma {:induction false} PruneKeepsAll(head: seq<Message>, budget: int)
    requires |Prune(head, budget)| == |head|
    ensures Prune(head, budget) == head
    decreases |head|
  {
    if head != [] {
      var last := head[|head| - 1];
      var front := head[..|head| - 1];
      PruneFits(front, budget);
      if EstimateOne(last) <= budget {
        PruneFits(front, budget - EstimateOne(last));
        PruneKeepsAll(front, budget - EstimateOne(last));
      }
    }
  }

  lemma Untouched(ms: seq<Message>, s: Settings, r: seq<Message>)
    requires r == Pruned(Truncated(ms, s), s) && |r| == |ms|
    requires |ms| > 1 ==> CountLong(ms[1..TailStart(|ms|, s)], s.truncateChars) == 0
    ensures r == ms
  {
    if |ms| > 1 {
      var t := TailStart(|ms|, s);
      NoneLong(ms[1..t], s.truncateChars);
      assert ms[..1] + ms[1..t] + ms[t..] == ms;
      assert Truncated(ms, s) == ms;
      if r != ms {
        PruneKeepsAll(ms[1..t], s.threshold - Estimate(ms[..1] + ms[t..]));
      }
    }
  }

  // ---------------------------------------------------------------- what compression guarantees

  /** The parts of a message list: its first message, what may change, and the protected tail. */
  function Head(ms: seq<Message>, s: Settings): seq<Message> {
    if ms == [] then [] else ms[1..TailStart(|ms|, s)]
  }

  function Tail(ms: seq<Message>, s: Settings): seq<Message> {
    if ms == [] then [] else ms[TailStart(|ms|, s)..]
  }

  /**
   The result is the first message verbatim, an order-preserving selection of the middle with only its long texts
   truncated, and the tail verbatim: at least two messages, or as many as the setting says. Within the threshold nothing
   changes.
   */
  lemma CompressShape(ms: seq<Message>, s: Settings) returns (middle: seq<Message>, kept: seq<Message>)
    requires ms != []
    ensures IsSubsequence(kept, middle) && |middle| == |Head(ms, s)|
    ensures Compress(ms, s) == ms[..1] + kept + Tail(ms, s)
    ensures ms == ms[..1] + Head(ms, s) + Tail(ms, s) && |Tail(ms, s)| == Min(|ms| - 1, Max(2, s.tailSetting))
    ensures forall i :: 0 <= i < |middle| ==>
      middle[i] == if Estimate(ms) > s.threshold then Shortened(Head(ms, s)[i], s.truncateChars) else Head(ms, s)[i]
    ensures Estimate(ms) <= s.threshold ==> kept == middle
  {
    var t := TailStart(|ms|, s);
    middle := Head(ms, s);
    kept := middle;
    assert ms[..1] + middle + ms[t..] == ms;
    if Estimate(ms) > s.threshold {
      if |ms| == 1 {
        assert Truncated(ms, s) == ms;
      } else {
        middle := TruncateAll(middle, s.truncateChars);
        kept := PrunedShape(ms[..1], middle, ms[t..], t, s);
        return;
      }
    }
    hide Estimate;
    SubsequenceSelf(middle);
  }

  lemma PrunedShape(first: seq<Message>, head: seq<Message>, tail: seq<Message>, t: nat, s: Settings)
    returns (kept: seq<Message>)
    requires |first| == 1 && t == |first + head| && t == TailStart(|first + head + tail|, s)
    ensures IsSubsequence(kept, head)
    ensures Pruned(first + head + tail, s) == first + kept + tail
  {
    hide Estimate, TruncateAll;
    var mid := first + head + tail;
    assert mid[..1] == first && mid[1..t] == head && mid[t..] == tail;
    if Estimate(mid) <= s.threshold || |mid| <= 2 {
      kept := head;
      SubsequenceSelf(head);
    } else {
      kept := Prune(head, s.threshold - Estimate(first + tail));
      PruneIsSubsequence(head, s.threshold - Estimate(first + tail));
    }
  }

  lemma {:induction false} SubsequenceSelf(a: seq<Message>)
    ensures IsSubsequence(a, a)
    decreases |a|
  {
    if a != [] {
      SubsequenceSelf(a[..|a| - 1]);
    }
  }

  /** A message whose text is too long, cut to size; other contents, and messages of a foreign kind, stay. */
  function Shortened(m: Message, maxChars: nat): Message {
    match m.content
    case Text(text) =>
      if m.cloneable && |text| >= maxChars + 1 then Message(Text(TruncateText(text, maxChars)), true) else m
    case _ => m
  }

  /** The estimate never grows, and ends within the threshold or at what first message and tail alone cost. */
  lemma {:induction false} CompressEstimate(ms: seq<Message>, s: Settings)
    requires ms != []
    ensures Estimate(Compress(ms, s)) <= Estimate(ms)
    ensures Estimate(Compress(ms, s)) <= Max(s.threshold, Estimate(ms[..1] + Tail(ms, s)))
  {
    hide Prune, TruncateAll, EstimateOne;
    var t := TailStart(|ms|, s);
    Parts3(ms[..1], ms[1..t], ms[t..]);
    assert ms[..1] + ms[1..t] + ms[t..] == ms;
    if Estimate(ms) > s.threshold {
      if |ms| <= 2 {
        assert ms[..1] + Tail(ms, s) == ms;
        assert |ms| == 1 ==> Truncated(ms, s) == ms;
        assert |ms| == 2 ==> ms[1..t] == [] && Truncated(ms, s) == ms;
      } else {
        var head := TruncateAll(ms[1..t], s.truncateChars);
        TruncateShrinks(ms[1..t], s.truncateChars);
        PrunedEstimate(ms[..1], head, ms[t..], t, s);
        Parts3(ms[..1], head, ms[t..]);
      }
    }
  }

  lemma PrunedEstimate(first: seq<Message>, head: seq<Message>, tail: seq<Message>, t: nat, s: Settings)
    requires |first| == 1 && t == |first + head| && t == TailStart(|first + head + tail|, s)
    requires |first + head + tail| > 2
    ensures Estimate(Pruned(first + head + tail, s)) <= Estimate(first + head + tail)
    ensures Estimate(Pruned(first + head + tail, s)) <= Max(s.threshold, Estimate(first + tail))
  {
    var mid := first + head + tail;
    Parts3(first, head, tail);
    if Estimate(mid) > s.threshold {
      assert mid[..1] == first && mid[1..t] == head && mid[t..] == tail;
      var budget := s.threshold - Estimate(first + tail);
      PruneFits(head, budget);
      Parts3(first, Prune(head, budget), tail);
    }
  }

  lemma Parts3(a: seq<Message>, b: seq<Message>, c: seq<Message>)
    ensures Estimate(a + b + c) == Estimate(a) + Estimate(b) + Estimate(c)
    ensures Estimate(a + c) == Estimate(a) + Estimate(c)
  {
    EstimateConcat(a + b, c);
    EstimateConcat(a, b);
    EstimateConcat(a, c);
  }

  /** Compressing a compressed history changes nothing. */
  lemma CompressIdempotent(ms: seq<Message>, s: Settings)
    ensures Compress(Compress(ms, s), s) == Compress(ms, s)
  {
    var r := Compress(ms, s);
    if ms != [] && Estimate(r) > s.threshold {
      var t := TailStart(|ms|, s);
      OverThresholdIsMinimal(ms, s);
      MinimalIsStable(r, s);
    }
  }

  /** A result still over the threshold is just the first message and the tail. */
  lemma OverThresholdIsMinimal(ms: seq<Message>, s: Settings)
    requires ms != [] && Estimate(Compress(ms, s)) > s.threshold
    ensures |Compress(ms, s)| <= 1 + ProtectedTail(s)
  {
    if |ms| > 2 && Estimate(ms) > s.threshold {
      var t := TailStart(|ms|, s);
      var head := TruncateAll(ms[1..t], s.truncateChars);
      PrunedOverThreshold(ms[..1], head, ms[t..], t, s);
    }
  }

  lemma PrunedOverThreshold(first: seq<Message>, head: seq<Message>, tail: seq<Message>, t: nat, s: Settings)
    requires |first| == 1 && t == |first + head| && t == TailStart(|first + head + tail|, s)
    requires |first + head + tail| > 2 && Estimate(Pruned(first + head + tail, s)) > s.threshold
    ensures |Pruned(first + head + tail, s)| <= 1 + ProtectedTail(s)
  {
    var mid := first + head + tail;
    assert mid[..1] == first && mid[1..t] == head && mid[t..] == tail;
    var budget := s.threshold - Estimate(first + tail);
    PruneFits(head, budget);
    Parts3(first, Prune(head, budget), tail);
  }

  lemma MinimalIsStable(ms: seq<Message>, s: Settings)
    requires |ms| <= 1 + ProtectedTail(s)
    ensures Compress(ms, s) == ms
  {
    if |ms| > 1 {
      assert TailStart(|ms|, s) == 1;
      assert Truncated(ms, s) == ms;
      assert ms[..1] + [] + ms[1..] == ms;
    }
  }

  /**
   The pruning is greedy from the newest message: whatever is dropped would not have fitted
   beside the first message, the tail and everything newer that was kept.
   */
  lemma {:induction false} PruneIsGreedy(head: seq<Message>, budget: int, i: nat)
    requires i < |head|
    ensures var newer := Prune(head[i + 1..], budget);
      Prune(head, budget) == Prune(head[..i + 1], budget - Estimate(newer)) + newer
    ensures var newer := Prune(head[i + 1..], budget);
      Prune(head[..i + 1], budget - Estimate(newer)) ==
        if EstimateOne(head[i]) <= budget - Estimate(newer)
        then Prune(head[..i], budget - Estimate(newer) - EstimateOne(head[i])) + [head[i]]
        else Prune(head[..i], budget - Estimate(newer))
    decreases |head|
  {
    var first := head[..i + 1];
    assert first[..i] == head[..i] && first[i] == head[i];
    PruneSplit(first, head[i + 1..], budget);
    assert first + head[i + 1..] == head;
  }

  lemma OneCost(m: Message)
    ensures Estimate([m]) == EstimateOne(m)
  {
    assert [m][1..] == [];
  }

  lemma {:induction false} PruneSplit(a: seq<Message>, b: seq<Message>, budget: int)
    ensures Prune(a + b, budget) == Prune(a, budget - Estimate(Prune(b, budget))) + Prune(b, budget)
    decreases |b|
  {
    if b == [] {
      assert a + b == a;
      assert Prune(a, budget) + [] == Prune(a, budget);
    } else {
      hide Estimate, EstimateOne;
      var last := b[|b| - 1];
      var front := b[..|b| - 1];
      assert (a + b)[..|a + b| - 1] == a + front;
      OneCost(last);
      if EstimateOne(last) <= budget {
        var rest := budget - EstimateOne(last);
        PruneSplit(a, front, rest);
        EstimateConcat(Prune(front, rest), [last]);
        assert Prune(a, rest - Estimate(Prune(front, rest))) + Prune(front, rest) + [last] ==
               Prune(a, rest - Estimate(Prune(front, rest))) + (Prune(front, rest) + [last]);
      } else {
        PruneSplit(a, front, budget);
      }
    }
  }
}
