/** Attribute-based policies: condition trees, policies, and the engine that decides a request. */
module Abac {
  import opened Common
  import opened JsonText

  datatype ConditionOperator =
    | Equals | NotEquals | GreaterThan | GreaterOrEqual | LessThan | LessOrEqual
    | In | NotIn | Contains | StartsWith | EndsWith

  datatype LogicalOperator = And | Or | Not

  /** A stored attribute may be any value; one that is no path of names fails every evaluation. */
  datatype Condition =
    | Leaf(attribute: Json, operator: ConditionOperator, value: Json)
    | Group(logical: LogicalOperator, conditions: seq<Condition>)

  /** The verdict of one operator on two values; an exception counts as false. */
  type Comparison = (Json, ConditionOperator, Json) -> bool

  // ---------------------------------------------------------------- evaluation

  /** path.split(".") */
  function SplitDots(path: string): (parts: seq<string>)
    ensures parts != []
  {
    if path == "" then [""]
    else
      var rest := SplitDots(path[1..]);
      if path[0] == '.' then [""] + rest else [[path[0]] + rest[0]] + rest[1..]
  }

  function FieldOf(j: Json, key: string): Json {
    if !j.Obj? then Null else GetOrNull(j.fields, key)
  }

  /** The value at a path of nested dictionaries, Null when any step is missing. */
  function AttributeValue(context: Json, parts: seq<string>): Json
    decreases |parts|
  {
    if parts == [] || context.Null? then context else AttributeValue(FieldOf(context, parts[0]), parts[1..])
  }

  predicate Evaluate(c: Condition, context: Json, compare: Comparison) {
    match c
    case Leaf(attribute, operator, value) =>
      attribute.Str? &&
      var actual := AttributeValue(context, SplitDots(attribute.s));
      !actual.Null? && compare(actual, operator, value)
    case Group(logical, conditions) =>
      if conditions == [] then true
      else
        match logical
        case And => forall i :: 0 <= i < |conditions| ==> Evaluate(conditions[i], context, compare)
        case Or => exists i :: 0 <= i < |conditions| && Evaluate(conditions[i], context, compare)
        case Not => !Evaluate(conditions[0], context, compare)
  }

  // ---------------------------------------------------------------- policies

  datatype Effect = Allow | Deny

  datatype Policy = Policy(id: string, name: string, description: string, effect: Effect, resourceType: string,
                           actions: seq<string>, conditions: Condition, priority: int, enabled: bool)

  datatype Request = Request(resourceType: string, action: string, context: Json)

  function EvaluatePolicy(p: Policy, request: Request, compare: Comparison): Option<Effect> {
    if !p.enabled then None
    else if request.action !in p.actions && "*" !in p.actions then None
    else if Evaluate(p.conditions, request.context, compare) then Some(p.effect) else None
  }

  /** An empty resource type in the request selects every policy. */
  predicate Selected(p: Policy, resourceType: string, enabledOnly: bool) {
    (resourceType == "" || p.resourceType == resourceType) && (enabledOnly ==> p.enabled)
  }

  /** What it takes for a policy to have a say in a request: all of this, whatever the engine does in which order. */
  predicate Matches(p: Policy, request: Request, effect: Effect, compare: Comparison) {
    && p.enabled && p.effect == effect
    && (request.resourceType == "" || request.resourceType == p.resourceType)
    && (request.action in p.actions || "*" in p.actions)
    && Evaluate(p.conditions, request.context, compare)
  }

  lemma MatchesWhenSelected(p: Policy, request: Request, effect: Effect, compare: Comparison)
    ensures Matches(p, request, effect, compare) <==>
      Selected(p, request.resourceType, true) && EvaluatePolicy(p, request, compare) == Some(effect)
  {
    hide Evaluate;
  }

  /** The decision as the policies define it: some matching allow and no matching deny. */
  ghost predicate Permits(policies: map<string, Policy>, request: Request, compare: Comparison) {
    && (exists id :: id in policies && Matches(policies[id], request, Allow, compare))
    && !(exists id :: id in policies && Matches(policies[id], request, Deny, compare))
  }

  // ---------------------------------------------------------------- the engine's dictionary

  ghost predicate UniqueIds(ps: seq<Policy>) {
    forall i, j :: 0 <= i < j < |ps| ==> ps[i].id != ps[j].id
  }

  function AsMap(ps: seq<Policy>): map<string, Policy> {
    if ps == [] then map[] else AsMap(ps[..|ps| - 1])[ps[|ps| - 1].id := ps[|ps| - 1]]
  }

  /** policies[id] = p: an existing key keeps its place. */
  function PutPolicy(ps: seq<Policy>, p: Policy): seq<Policy> {
    if ps == [] then [p] else if ps[0].id == p.id then [p] + ps[1..] else [ps[0]] + PutPolicy(ps[1..], p)
  }

  function WithoutPolicy(ps: seq<Policy>, id: string): seq<Policy> {
    Filter((p: Policy) => p.id != id, ps)
  }

  lemma {:induction false} AsMapContents(ps: seq<Policy>)
    requires UniqueIds(ps)
    ensures forall p :: p in ps ==> p.id in AsMap(ps) && AsMap(ps)[p.id] == p
    ensures forall id :: id in AsMap(ps) ==> AsMap(ps)[id] in ps && AsMap(ps)[id].id == id
    ensures |AsMap(ps)| == |ps|
    decreases |ps|
  {
    if ps != [] {
      var front := ps[..|ps| - 1];
      AsMapContents(front);
      assert forall p :: p in ps <==> p in front || p == ps[|ps| - 1];
      forall p | p in front
        ensures p.id != ps[|ps| - 1].id
      {
        var i :| 0 <= i < |front| && front[i] == p;
        assert ps[i] == p;
      }
    }
  }

  /** Lists with the same policies, each under its own key, are the same dictionary. */
  lemma AsMapDetermined(ps: seq<Policy>, m: map<string, Policy>)
    requires UniqueIds(ps)
    requires forall p :: p in ps ==> p.id in m && m[p.id] == p
    requires forall id :: id in m ==> m[id] in ps && m[id].id == id
    ensures AsMap(ps) == m
  {
    AsMapContents(ps);
  }

  lemma {:induction false} PutPolicyContents(ps: seq<Policy>, p: Policy)
    requires UniqueIds(ps)
    ensures UniqueIds(PutPolicy(ps, p))
    ensures forall q :: q in PutPolicy(ps, p) <==> q == p || (q in ps && q.id != p.id)
  {
    if ps != [] {
      assert forall q :: q in ps <==> q == ps[0] || q in ps[1..];
      forall q | q in ps[1..]
        ensures q.id != ps[0].id
      {
        var i :| 0 <= i < |ps[1..]| && ps[1..][i] == q;
        assert ps[i + 1] == q;
      }
      if ps[0].id != p.id {
        PutPolicyContents(ps[1..], p);
        UniqueCons(ps[0], PutPolicy(ps[1..], p));
      } else {
        UniqueCons(p, ps[1..]);
      }
    }
  }

  lemma UniqueCons(p: Policy, ps: seq<Policy>)
    requires UniqueIds(ps) && forall q :: q in ps ==> q.id != p.id
    ensures UniqueIds([p] + ps)
  {
  }

  lemma AsMapPut(ps: seq<Policy>, p: Policy)
    requires UniqueIds(ps)
    ensures UniqueIds(PutPolicy(ps, p)) && AsMap(PutPolicy(ps, p)) == AsMap(ps)[p.id := p]
  {
    AsMapContents(ps);
    PutPolicyContents(ps, p);
    AsMapDetermined(PutPolicy(ps, p), AsMap(ps)[p.id := p]);
  }

  lemma {:induction false} FilterUnique(keep: Policy -> bool, ps: seq<Policy>)
    requires UniqueIds(ps)
    ensures UniqueIds(Filter(keep, ps))
  {
    if ps != [] {
      FilterUnique(keep, ps[1..]);
      forall q | q in Filter(keep, ps[1..])
        ensures q.id != ps[0].id
      {
        var i :| 0 <= i < |ps[1..]| && ps[1..][i] == q;
        assert ps[i + 1] == q;
      }
      UniqueCons(ps[0], Filter(keep, ps[1..]));
    }
  }

  lemma AsMapWithout(ps: seq<Policy>, id: string)
    requires UniqueIds(ps)
    ensures UniqueIds(WithoutPolicy(ps, id)) && AsMap(WithoutPolicy(ps, id)) == AsMap(ps) - {id}
  {
    AsMapContents(ps);
    FilterUnique((p: Policy) => p.id != id, ps);
    AsMapDetermined(WithoutPolicy(ps, id), AsMap(ps) - {id});
  }

  // ---------------------------------------------------------------- sorting and deciding

  function InsertByPriority(p: Policy, sorted: seq<Policy>): seq<Policy> {
    if sorted == [] || p.priority >= sorted[0].priority then [p] + sorted
    else [sorted[0]] + InsertByPriority(p, sorted[1..])
  }

  /** A stable sort by descending priority. */
  function SortByPriority(ps: seq<Policy>): seq<Policy> {
    if ps == [] then [] else InsertByPriority(ps[0], SortByPriority(ps[1..]))
  }

  ghost predicate Descending(ps: seq<Policy>) {
    ps == [] || ((forall q :: q in ps[1..] ==> q.priority <= ps[0].priority) && Descending(ps[1..]))
  }

  lemma {:induction false} InsertMembers(p: Policy, sorted: seq<Policy>)
    ensures multiset(InsertByPriority(p, sorted)) == multiset(sorted) + multiset{p}
  {
    if sorted != [] && p.priority < sorted[0].priority {
      InsertMembers(p, sorted[1..]);
      assert sorted == [sorted[0]] + sorted[1..];
    }
  }

  lemma {:induction false} InsertDescending(p: Policy, sorted: seq<Policy>)
    requires Descending(sorted)
    ensures Descending(InsertByPriority(p, sorted))
  {
    var r := InsertByPriority(p, sorted);
    if sorted == [] || p.priority >= sorted[0].priority {
      assert r[1..] == sorted;
      assert forall q :: q in sorted ==> q == sorted[0] || q in sorted[1..];
    } else {
      InsertDescending(p, sorted[1..]);
      var rest := InsertByPriority(p, sorted[1..]);
      assert r[1..] == rest;
      InsertMembers(p, sorted[1..]);
      forall q | q in rest
        ensures q.priority <= sorted[0].priority
      {
        assert q in multiset(rest);
        assert q == p || q in multiset(sorted[1..]);
      }
    }
  }

  lemma {:induction false} SortSorts(ps: seq<Policy>)
    ensures multiset(SortByPriority(ps)) == multiset(ps) && Descending(SortByPriority(ps))
  {
    if ps != [] {
      SortSorts(ps[1..]);
      InsertMembers(ps[0], SortByPriority(ps[1..]));
      InsertDescending(ps[0], SortByPriority(ps[1..]));
      assert ps == [ps[0]] + ps[1..];
    }
  }

  /** The engine's loop over the sorted policies, with its early exit on a deny. */
  function DecideList(ps: seq<Policy>, request: Request, allowSeen: bool, compare: Comparison): bool {
    if ps == [] then allowSeen
    else
      var effect := EvaluatePolicy(ps[0], request, compare);
      if effect == Some(Deny) then false
      else DecideList(ps[1..], request, allowSeen || effect == Some(Allow), compare)
  }

  ghost predicate AnyMatches(ps: seq<Policy>, request: Request, effect: Effect, compare: Comparison) {
    exists p :: p in ps && EvaluatePolicy(p, request, compare) == Some(effect)
  }

  lemma AnyMatchesCons(ps: seq<Policy>, request: Request, effect: Effect, compare: Comparison)
    requires ps != []
    ensures AnyMatches(ps, request, effect, compare) <==>
      EvaluatePolicy(ps[0], request, compare) == Some(effect) || AnyMatches(ps[1..], request, effect, compare)
  {
    hide EvaluatePolicy;
    assert ps == [ps[0]] + ps[1..];
    assert forall p :: p in ps <==> p == ps[0] || p in ps[1..];
  }

  lemma {:induction false} DecideListMeans(ps: seq<Policy>, request: Request, allowSeen: bool, compare: Comparison)
    ensures DecideList(ps, request, allowSeen, compare) <==>
      (allowSeen || AnyMatches(ps, request, Allow, compare)) && !AnyMatches(ps, request, Deny, compare)
  {
    if ps != [] {
      var effect := EvaluatePolicy(ps[0], request, compare);
      AnyMatchesCons(ps, request, Allow, compare);
      AnyMatchesCons(ps, request, Deny, compare);
      hide EvaluatePolicy, AnyMatches;
      if effect != Some(Deny) {
        DecideListMeans(ps[1..], request, allowSeen || effect == Some(Allow), compare);
      }
    }
  }

  /** What the engine computes from a list of policies: the loop over its sorted selection. */
  function EngineDecision(ps: seq<Policy>, request: Request, compare: Comparison): bool {
    var selected := Filter((p: Policy) => Selected(p, request.resourceType, true), ps);
    DecideList(SortByPriority(selected), request, false, compare)
  }

  /**
   Sorting and early exit do not matter: the engine's answer over its sorted selection is the decision
   its policies define, whatever their order and priorities.
   */
  lemma DecisionIsPermits(ps: seq<Policy>, request: Request, compare: Comparison)
    requires UniqueIds(ps)
    ensures EngineDecision(ps, request, compare) <==> Permits(AsMap(ps), request, compare)
  {
    var selected := Filter((p: Policy) => Selected(p, request.resourceType, true), ps);
    var sorted := SortByPriority(selected);
    SortSorts(selected);
    DecideListMeans(sorted, request, false, compare);
    AsMapContents(ps);
    hide EvaluatePolicy, Matches, SortByPriority, DecideList, AsMap;
    forall p
      ensures p in sorted <==> p in ps && Selected(p, request.resourceType, true)
    {
      assert p in sorted <==> p in multiset(sorted);
      assert p in selected <==> p in multiset(selected);
    }
    var m := AsMap(ps);
    forall effect: Effect
      ensures AnyMatches(sorted, request, effect, compare) <==>
              (exists id :: id in m && Matches(m[id], request, effect, compare))
    {
      if p :| p in sorted && EvaluatePolicy(p, request, compare) == Some(effect) {
        MatchesWhenSelected(p, request, effect, compare);
        assert p.id in m && Matches(m[p.id], request, effect, compare);
      }
      if id :| id in m && Matches(m[id], request, effect, compare) {
        MatchesWhenSelected(m[id], request, effect, compare);
        assert m[id] in sorted;
      }
    }
  }

  lemma DecideStep(ps: seq<Policy>, i: nat, request: Request, allowSeen: bool, compare: Comparison)
    requires i < |ps|
    ensures DecideList(ps[i..], request, allowSeen, compare) ==
      var effect := EvaluatePolicy(ps[i], request, compare);
      if effect == Some(Deny) then false
      else DecideList(ps[i + 1..], request, allowSeen || effect == Some(Allow), compare)
  {
    assert ps[i..][1..] == ps[i + 1..] && ps[i..][0] == ps[i];
  }

  /** The loop of evaluate over the policies that apply, in their order. */
  method DecideInOrder(applicable: seq<Policy>, request: Request, compare: Comparison) returns (allowed: bool)
    ensures allowed == DecideList(applicable, request, false, compare)
  {
    hide EvaluatePolicy;
    if applicable == [] {
      return false;
    }
    var allowMatched := false;
    var i := 0;
    assert applicable[0..] == applicable;
    while i < |applicable|
      invariant i <= |applicable|
      invariant DecideList(applicable[i..], request, allowMatched, compare) ==
                DecideList(applicable, request, false, compare)
    {
      DecideStep(applicable, i, request, allowMatched, compare);
      var effect := EvaluatePolicy(applicable[i], request, compare);
      if effect == Some(Deny) {
        return false;
      }
      if effect == Some(Allow) {
        allowMatched := true;
      }
      i := i + 1;
    }
    allowed := allowMatched;
  }

  class Engine {
    var policies: seq<Policy>

    ghost predicate Valid()
      reads this
    {
      UniqueIds(policies)
    }

    function Contents(): map<string, Policy>
      reads this
    {
      AsMap(policies)
    }

    constructor ()
      ensures Valid() && Contents() == map[]
    {
      policies := [];
    }

    method AddPolicy(p: Policy)
      requires Valid()
      modifies this
      ensures Valid() && Contents() == old(Contents())[p.id := p]
    {
      AsMapPut(policies, p);
      policies := PutPolicy(policies, p);
    }

    method RemovePolicy(id: string) returns (found: bool)
      requires Valid()
      modifies this
      ensures Valid() && Contents() == old(Contents()) - {id}
      ensures found <==> id in old(Contents())
    {
      found := exists i :: 0 <= i < |policies| && policies[i].id == id;
      AsMapContents(policies);
      AsMapWithout(policies, id);
      policies := WithoutPolicy(policies, id);
    }

    method ClearPolicies()
      modifies this
      ensures Valid() && Contents() == map[]
    {
      policies := [];
    }

    method ListPolicies(resourceType: string, enabledOnly: bool) returns (listed: seq<Policy>)
      ensures listed == SortByPriority(Filter((p: Policy) => Selected(p, resourceType, enabledOnly), policies))
      ensures multiset(listed) == multiset(Filter((p: Policy) => Selected(p, resourceType, enabledOnly), policies))
      ensures Descending(listed)
      ensures forall p :: p in listed <==>
        p in policies && (resourceType == "" || resourceType == p.resourceType) && (enabledOnly ==> p.enabled)
    {
      var selected := Filter((p: Policy) => Selected(p, resourceType, enabledOnly), policies);
      SortSorts(selected);
      listed := SortByPriority(selected);
      assert forall p :: p in listed <==> p in multiset(listed);
      assert forall p :: p in selected <==> p in multiset(selected);
    }

    /** evaluate */
    method Decide(request: Request, compare: Comparison) returns (allowed: bool)
      requires Valid()
      ensures allowed == EngineDecision(policies, request, compare)
      ensures allowed <==> Permits(Contents(), request, compare)
    {
      var applicable := ListPolicies(request.resourceType, true);
      allowed := DecideInOrder(applicable, request, compare);
      DecisionIsPermits(policies, request, compare);
    }
  }
}
