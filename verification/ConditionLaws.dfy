/**
 What a condition tree and a policy mean, told without the evaluator: laws of the groups, of dotted paths, and what
 a change to a tree can do to a decision.
 */
module ConditionLaws {
  import opened Common
  import opened JsonText
  import opened Abac

  // ---------------------------------------------------------------- groups

  /** No conditions hold; one condition holds when it does, and its negation when it does not. */
  lemma SmallGroups(logical: LogicalOperator, c: Condition, context: Json, compare: Comparison)
    ensures Evaluate(Group(logical, []), context, compare)
    ensures Evaluate(Group(And, [c]), context, compare) <==> Evaluate(c, context, compare)
    ensures Evaluate(Group(Or, [c]), context, compare) <==> Evaluate(c, context, compare)
    ensures Evaluate(Group(Not, [c]), context, compare) <==> !Evaluate(c, context, compare)
  {
    assert [c][0] == c;
  }

  lemma AndConcat(a: seq<Condition>, b: seq<Condition>, context: Json, compare: Comparison)
    ensures Evaluate(Group(And, a + b), context, compare) <==>
            Evaluate(Group(And, a), context, compare) && Evaluate(Group(And, b), context, compare)
  {
    assert forall i :: 0 <= i < |a| ==> (a + b)[i] == a[i];
    assert forall i :: 0 <= i < |b| ==> (a + b)[|a| + i] == b[i];
  }

  lemma OrConcat(a: seq<Condition>, b: seq<Condition>, context: Json, compare: Comparison)
    requires a != [] && b != []
    ensures Evaluate(Group(Or, a + b), context, compare) <==>
            Evaluate(Group(Or, a), context, compare) || Evaluate(Group(Or, b), context, compare)
  {
    assert forall i :: 0 <= i < |a| ==> (a + b)[i] == a[i];
    assert forall i :: 0 <= i < |b| ==> (a + b)[|a| + i] == b[i];
  }

  /** A negation looks at the first of its conditions and at no other. */
  lemma NotReadsFirst(c: Condition, more: seq<Condition>, context: Json, compare: Comparison)
    ensures Evaluate(Group(Not, [c] + more), context, compare) <==> !Evaluate(c, context, compare)
  {
    assert ([c] + more)[0] == c;
  }

  // ---------------------------------------------------------------- dotted paths

  predicate PlainParts(parts: seq<string>) {
    forall i :: 0 <= i < |parts| ==> '.' !in parts[i]
  }

  function JoinDots(parts: seq<string>): string
    requires parts != []
  {
    if |parts| == 1 then parts[0] else parts[0] + "." + JoinDots(parts[1..])
  }

  /** Splitting takes apart what joining put together, and the other way round. */
  lemma {:induction false} SplitJoin(parts: seq<string>)
    requires parts != [] && PlainParts(parts)
    ensures SplitDots(JoinDots(parts)) == parts
  {
    if |parts| == 1 {
      SplitPlain(parts[0]);
      assert parts == [parts[0]];
    } else {
      SplitJoin(parts[1..]);
      SplitAtDot(parts[0], JoinDots(parts[1..]));
      assert parts == [parts[0]] + parts[1..];
      assert parts[0] + "." + JoinDots(parts[1..]) == parts[0] + ("." + JoinDots(parts[1..]));
    }
  }

  lemma {:induction false} SplitPlain(s: string)
    requires '.' !in s
    ensures SplitDots(s) == [s]
  {
    if s != "" {
      assert s == [s[0]] + s[1..];
      SplitPlain(s[1..]);
      var rest := SplitDots(s[1..]);
      assert SplitDots(s) == [[s[0]] + rest[0]] + rest[1..];
    }
  }

  lemma {:induction false} SplitAtDot(name: string, rest: string)
    requires '.' !in name
    ensures SplitDots(name + ("." + rest)) == [name] + SplitDots(rest)
  {
    var all := name + ("." + rest);
    if name == "" {
      assert all == "." + rest && all[1..] == rest && all[0] == '.';
    } else {
      assert all[1..] == name[1..] + ("." + rest) && all[0] == name[0];
      assert name[0] in name;
      SplitAtDot(name[1..], rest);
      assert [name[0]] + name[1..] == name;
    }
  }

  lemma {:induction false} JoinSplit(s: string)
    ensures PlainParts(SplitDots(s)) && JoinDots(SplitDots(s)) == s
  {
    if s != "" {
      JoinSplit(s[1..]);
      var rest := SplitDots(s[1..]);
      assert s == [s[0]] + s[1..];
      if s[0] == '.' {
        assert ([""] + rest)[1..] == rest;
      } else {
        var parts := [[s[0]] + rest[0]] + rest[1..];
        assert parts[1..] == rest[1..];
      }
    }
  }

  function FieldsOf(j: Json): seq<Field> {
    if j.Obj? then j.fields else []
  }

  /** The context with a value stored at a path of names, through objects where there were none. */
  function Stored(context: Json, parts: seq<string>, value: Json): Json
    decreases |parts|
  {
    if parts == [] then value
    else Obj([Field(parts[0], Stored(FieldOf(context, parts[0]), parts[1..], value))] + FieldsOf(context))
  }

  /** Reading a dotted path gives what was stored there. */
  lemma {:induction false} ReadsStored(context: Json, parts: seq<string>, value: Json)
    ensures AttributeValue(Stored(context, parts, value), parts) == value
    decreases |parts|
  {
    if parts != [] {
      var inner := Stored(FieldOf(context, parts[0]), parts[1..], value);
      FirstField(Field(parts[0], inner), FieldsOf(context), parts[0]);
      assert FieldOf(Stored(context, parts, value), parts[0]) == inner;
      ReadsStored(FieldOf(context, parts[0]), parts[1..], value);
    }
  }

  /** Storing under one name leaves what is read under another. */
  lemma StoredElsewhere(context: Json, parts: seq<string>, value: Json, other: seq<string>)
    requires context.Obj? && parts != [] && other != [] && parts[0] != other[0]
    ensures AttributeValue(Stored(context, parts, value), other) == AttributeValue(context, other)
  {
    var inner := Stored(FieldOf(context, parts[0]), parts[1..], value);
    FirstField(Field(parts[0], inner), FieldsOf(context), other[0]);
    hide Stored, AttributeValue;
    StoredOuter(context, parts, value);
    FirstStep(Stored(context, parts, value), other);
    FirstStep(context, other);
  }

  lemma StoredOuter(context: Json, parts: seq<string>, value: Json)
    requires parts != []
    ensures Stored(context, parts, value) ==
            Obj([Field(parts[0], Stored(FieldOf(context, parts[0]), parts[1..], value))] + FieldsOf(context))
  {
  }

  lemma FirstStep(context: Json, parts: seq<string>)
    requires !context.Null? && parts != []
    ensures AttributeValue(context, parts) == AttributeValue(FieldOf(context, parts[0]), parts[1..])
  {
  }

  /** Nothing can be read through a value that is no object. */
  lemma NothingBelowScalar(context: Json, parts: seq<string>, value: Json, more: seq<string>)
    requires !value.Obj? && more != []
    ensures AttributeValue(Stored(context, parts, value), parts + more) == Null
    decreases |parts|
  {
    if parts == [] {
      assert parts + more == more;
      NullBelow(more[1..]);
    } else {
      var inner := Stored(FieldOf(context, parts[0]), parts[1..], value);
      FirstField(Field(parts[0], inner), FieldsOf(context), parts[0]);
      assert (parts + more)[1..] == parts[1..] + more && (parts + more)[0] == parts[0];
      NothingBelowScalar(FieldOf(context, parts[0]), parts[1..], value, more);
    }
  }

  lemma NullBelow(parts: seq<string>)
    ensures AttributeValue(Null, parts) == Null
  {
  }

  /** A condition on a dotted path compares the value stored there; a missing value fails every comparison. */
  lemma LeafReadsStored(context: Json, parts: seq<string>, actual: Json, operator: ConditionOperator, value: Json,
                        compare: Comparison)
    requires parts != [] && PlainParts(parts)
    ensures Evaluate(Leaf(Str(JoinDots(parts)), operator, value), Stored(context, parts, actual), compare) <==>
            actual != Null && compare(actual, operator, value)
  {
    SplitJoin(parts);
    ReadsStored(context, parts, actual);
  }

  /** An attribute that is no text fails, whatever the context. */
  lemma LeafNeedsPath(attribute: Json, operator: ConditionOperator, value: Json, context: Json, compare: Comparison)
    requires !attribute.Str?
    ensures !Evaluate(Leaf(attribute, operator, value), context, compare)
  {
  }

  // ---------------------------------------------------------------- decisions

  /** The policies with one policy's conditions replaced. */
  function WithConditions(ps: seq<Policy>, i: nat, c: Condition): seq<Policy>
    requires i < |ps|
  {
    ps[i := ps[i].(conditions := c)]
  }

  ghost predicate SomeMatch(ps: seq<Policy>, request: Request, effect: Effect, compare: Comparison) {
    exists j :: 0 <= j < |ps| && Matches(ps[j], request, effect, compare)
  }

  /** A request is permitted when some enabled policy for it allows it and none denies it. */
  lemma DecisionMeans(ps: seq<Policy>, request: Request, compare: Comparison)
    requires UniqueIds(ps)
    ensures EngineDecision(ps, request, compare) <==>
            SomeMatch(ps, request, Allow, compare) && !SomeMatch(ps, request, Deny, compare)
  {
    hide Matches, EngineDecision, AsMap;
    DecisionIsPermits(ps, request, compare);
    AsMapContents(ps);
    var m := AsMap(ps);
    forall effect: Effect
      ensures SomeMatch(ps, request, effect, compare) <==>
              exists id :: id in m && Matches(m[id], request, effect, compare)
    {
      if j :| 0 <= j < |ps| && Matches(ps[j], request, effect, compare) {
        assert ps[j] in ps && m[ps[j].id] == ps[j];
      }
      if id :| id in m && Matches(m[id], request, effect, compare) {
        var j :| 0 <= j < |ps| && ps[j] == m[id];
      }
    }
  }

  /** How a change to the conditions of one policy can change who it applies to. */
  ghost predicate Narrows(c: Condition, d: Condition, context: Json, compare: Comparison) {
    Evaluate(c, context, compare) ==> Evaluate(d, context, compare)
  }

  /**
   A policy that allows and comes to hold less often, or one that denies and comes to hold more often, never turns a
   refusal into permission.
   */
  lemma NarrowingIsSafe(ps: seq<Policy>, i: nat, c: Condition, request: Request, compare: Comparison)
    requires UniqueIds(ps) && i < |ps|
    requires if ps[i].effect == Allow then Narrows(c, ps[i].conditions, request.context, compare)
             else Narrows(ps[i].conditions, c, request.context, compare)
    ensures EngineDecision(WithConditions(ps, i, c), request, compare) ==> EngineDecision(ps, request, compare)
  {
    var qs := WithConditions(ps, i, c);
    assert UniqueIds(qs);
    hide Evaluate, EngineDecision;
    DecisionMeans(ps, request, compare);
    DecisionMeans(qs, request, compare);
    if SomeMatch(qs, request, Allow, compare) {
      var j :| 0 <= j < |qs| && Matches(qs[j], request, Allow, compare);
      assert Matches(ps[j], request, Allow, compare);
    }
    if SomeMatch(ps, request, Deny, compare) {
      var j :| 0 <= j < |ps| && Matches(ps[j], request, Deny, compare);
      assert Matches(qs[j], request, Deny, compare);
    }
  }

  /**
   A further condition in the And group of a policy that allows never turns a refusal into permission; nor does a
   further alternative in the Or group of one that denies.
   */
  lemma FurtherConditionIsSafe(ps: seq<Policy>, i: nat, cs: seq<Condition>, c: Condition, request: Request,
                               compare: Comparison)
    requires UniqueIds(ps) && i < |ps|
    requires ps[i].conditions == Group(if ps[i].effect == Allow then And else Or, cs)
    requires ps[i].effect == Deny ==> cs != []
    ensures EngineDecision(WithConditions(ps, i, Group(ps[i].conditions.logical, cs + [c])), request, compare) ==>
            EngineDecision(ps, request, compare)
  {
    AndConcat(cs, [c], request.context, compare);
    if cs != [] {
      OrConcat(cs, [c], request.context, compare);
    }
    hide Evaluate, EngineDecision;
    NarrowingIsSafe(ps, i, Group(ps[i].conditions.logical, cs + [c]), request, compare);
  }
}
