/**
 Policies in the database and in the engine: how condition trees are stored as JSON and read back, and
 that the engine's dictionary keeps agreeing with the enabled rows through every operation.
 */
module PolicyLoader {
  import opened Common
  import opened JsonText
  import opened Abac

  datatype DecodeError = MissingKey | UnknownOperator | UnknownType | WrongShape

  // ---------------------------------------------------------------- condition trees as JSON

  function OperatorText(op: ConditionOperator): string {
    match op
    case Equals => "=="
    case NotEquals => "!="
    case GreaterThan => ">"
    case GreaterOrEqual => ">="
    case LessThan => "<"
    case LessOrEqual => "<="
    case In => "in"
    case NotIn => "not_in"
    case Contains => "contains"
    case StartsWith => "starts_with"
    case EndsWith => "ends_with"
  }

  function LogicalText(op: LogicalOperator): string {
    match op case And => "AND" case Or => "OR" case Not => "NOT"
  }

  function ParseOperator(j: Json): Option<ConditionOperator> {
    if j == Str("==") then Some(Equals)
    else if j == Str("!=") then Some(NotEquals)
    else if j == Str(">") then Some(GreaterThan)
    else if j == Str(">=") then Some(GreaterOrEqual)
    else if j == Str("<") then Some(LessThan)
    else if j == Str("<=") then Some(LessOrEqual)
    else if j == Str("in") then Some(In)
    else if j == Str("not_in") then Some(NotIn)
    else if j == Str("contains") then Some(Contains)
    else if j == Str("starts_with") then Some(StartsWith)
    else if j == Str("ends_with") then Some(EndsWith)
    else None
  }

  function ParseLogical(j: Json): Option<LogicalOperator> {
    if j == Str("AND") then Some(And)
    else if j == Str("OR") then Some(Or)
    else if j == Str("NOT") then Some(Not)
    else None
  }

  lemma OperatorRoundTrip(op: ConditionOperator)
    ensures ParseOperator(Str(OperatorText(op))) == Some(op)
  {
    assert "=="[0] != "!="[0] && ">"[0] != "<"[0];
  }

  lemma LogicalRoundTrip(op: LogicalOperator)
    ensures ParseLogical(Str(LogicalText(op))) == Some(op)
  {
  }

  /** _serialize_condition */
  function SerializeCondition(c: Condition): Json
    decreases c, 1
  {
    match c
    case Leaf(attribute, operator, value) =>
      Obj([Field("type", Str("condition")), Field("attribute", attribute),
           Field("operator", Str(OperatorText(operator))), Field("value", value)])
    case Group(logical, conditions) =>
      Obj([Field("type", Str("group")), Field("operator", Str(LogicalText(logical))),
           Field("conditions", Arr(SerializeAll(conditions)))])
  }

  function SerializeAll(cs: seq<Condition>): seq<Json>
    decreases cs, 0
  {
    if cs == [] then [] else [SerializeCondition(cs[0])] + SerializeAll(cs[1..])
  }

  /** _serialize_conditions: the top group is stored without a type. */
  function SerializeTop(group: Condition): Json
    requires group.Group?
  {
    Obj([Field("operator", Str(LogicalText(group.logical))), Field("conditions", Arr(SerializeAll(group.conditions)))])
  }

  /** What iterating over a JSON value yields, for the values that can end in a condition list. */
  function Iterate(j: Json): (r: Option<seq<Json>>)
    ensures r.Some? ==> r.value == [] || (j.Arr? && r.value == j.items)
  {
    match j
    case Arr(items) => Some(items)
    case Obj(fields) => if fields == [] then Some([]) else None
    case Str(s) => if s == "" then Some([]) else None
    case _ => None
  }

  /** _deserialize_condition */
  function DeserializeCondition(data: Json): Result<Condition, DecodeError>
    decreases data, 1
  {
    if !data.Obj? then Err(WrongShape)
    else
      var kind := if Has(data.fields, "type") then GetOrNull(data.fields, "type") else Str("condition");
      if kind == Str("condition") then
        if !Has(data.fields, "attribute") || !Has(data.fields, "operator") then Err(MissingKey)
        else
          var operator := ParseOperator(GetOrNull(data.fields, "operator"));
          if operator.None? then Err(UnknownOperator)
          else if !Has(data.fields, "value") then Err(MissingKey)
          else
            Ok(Leaf(GetOrNull(data.fields, "attribute"), operator.value, GetOrNull(data.fields, "value")))
      else if kind == Str("group") then DeserializeGroup(data)
      else Err(UnknownType)
  }

  /** The part that a nested group and _deserialize_conditions share. */
  function DeserializeGroup(data: Json): (r: Result<Condition, DecodeError>)
    ensures r.Ok? ==> r.value.Group?
    decreases data, 0
  {
    if !data.Obj? then Err(WrongShape)
    else if !Has(data.fields, "operator") then Err(MissingKey)
    else
      var logical := ParseLogical(GetOrNull(data.fields, "operator"));
      if logical.None? then Err(UnknownOperator)
      else if !Has(data.fields, "conditions") then Err(MissingKey)
      else
        var list := GetOrNull(data.fields, "conditions");
        var items := Iterate(list);
        if items.None? then Err(WrongShape)
        else if items.value == [] then Ok(Group(logical.value, []))
        else
          FieldIsPart(data.fields, "conditions");
          match DeserializeAll(list.items)
          case Ok(conditions) => Ok(Group(logical.value, conditions))
          case Err(e) => Err(e)
  }

  lemma FieldIsPart(fields: seq<Field>, key: string)
    requires Has(fields, key)
    ensures Obj(fields) decreases to GetOrNull(fields, key)
    ensures GetOrNull(fields, key).Arr? ==> (Obj(fields) decreases to GetOrNull(fields, key).items)
  {
    var i := ValueInFields(fields, key);
    assert fields[i].value == GetOrNull(fields, key);
  }

  function DeserializeAll(items: seq<Json>): Result<seq<Condition>, DecodeError>
    decreases items, 0
  {
    if items == [] then Ok([])
    else
      match DeserializeCondition(items[0])
      case Err(e) => Err(e)
      case Ok(c) =>
        match DeserializeAll(items[1..])
        case Err(e) => Err(e)
        case Ok(cs) => Ok([c] + cs)
  }

  /** A stored condition tree of any depth reads back as itself. */
  lemma {:induction false} ConditionRoundTrip(c: Condition)
    ensures DeserializeCondition(SerializeCondition(c)) == Ok(c)
    decreases c, 1
  {
    match c
    case Leaf(attribute, operator, value) =>
      OperatorRoundTrip(operator);
      hide ParseOperator, OperatorText;
      LeafFields(attribute, operator, value);
    case Group(logical, conditions) =>
      LogicalRoundTrip(logical);
      AllRoundTrip(conditions);
      assert SerializeAll(conditions) == [] <==> conditions == [];
      hide ParseLogical, LogicalText, DeserializeAll, SerializeAll;
      GroupFields(logical, SerializeAll(conditions));
  }

  lemma LeafFields(attribute: Json, operator: ConditionOperator, value: Json)
    ensures var fields := SerializeCondition(Leaf(attribute, operator, value)).fields;
      && Has(fields, "type") && GetOrNull(fields, "type") == Str("condition")
      && Has(fields, "attribute") && GetOrNull(fields, "attribute") == attribute
      && Has(fields, "operator") && GetOrNull(fields, "operator") == Str(OperatorText(operator))
      && Has(fields, "value") && GetOrNull(fields, "value") == value
  {
    var f1, f2 := Field("type", Str("condition")), Field("attribute", attribute);
    var f3, f4 := Field("operator", Str(OperatorText(operator))), Field("value", value);
    assert SerializeCondition(Leaf(attribute, operator, value)).fields == [f1] + ([f2] + ([f3] + ([f4] + [])));
    hide Has, Get, GetOrNull, OperatorText;
    FirstField(f1, [f2] + ([f3] + ([f4] + [])), "type");
    FirstField(f1, [f2] + ([f3] + ([f4] + [])), "attribute");
    FirstField(f2, [f3] + ([f4] + []), "attribute");
    FirstField(f1, [f2] + ([f3] + ([f4] + [])), "operator");
    FirstField(f2, [f3] + ([f4] + []), "operator");
    FirstField(f3, [f4] + [], "operator");
    FirstField(f1, [f2] + ([f3] + ([f4] + [])), "value");
    FirstField(f2, [f3] + ([f4] + []), "value");
    FirstField(f3, [f4] + [], "value");
    FirstField(f4, [], "value");
  }

  lemma GroupFields(logical: LogicalOperator, items: seq<Json>)
    ensures var fields := [Field("type", Str("group")), Field("operator", Str(LogicalText(logical))),
                           Field("conditions", Arr(items))];
      && Has(fields, "type") && GetOrNull(fields, "type") == Str("group")
      && Has(fields, "operator") && GetOrNull(fields, "operator") == Str(LogicalText(logical))
      && Has(fields, "conditions") && GetOrNull(fields, "conditions") == Arr(items)
    ensures var top := [Field("operator", Str(LogicalText(logical))), Field("conditions", Arr(items))];
      && Has(top, "operator") && GetOrNull(top, "operator") == Str(LogicalText(logical))
      && Has(top, "conditions") && GetOrNull(top, "conditions") == Arr(items)
  {
    var f1, f2 := Field("type", Str("group")), Field("operator", Str(LogicalText(logical)));
    var f3 := Field("conditions", Arr(items));
    assert [f1, f2, f3] == [f1] + ([f2] + ([f3] + [])) && [f2, f3] == [f2] + ([f3] + []);
    hide Has, Get, GetOrNull, LogicalText;
    FirstField(f1, [f2] + ([f3] + []), "type");
    FirstField(f1, [f2] + ([f3] + []), "operator");
    FirstField(f2, [f3] + [], "operator");
    FirstField(f1, [f2] + ([f3] + []), "conditions");
    FirstField(f2, [f3] + [], "conditions");
    FirstField(f3, [], "conditions");
  }

  lemma {:induction false} AllRoundTrip(cs: seq<Condition>)
    ensures DeserializeAll(SerializeAll(cs)) == Ok(cs)
    decreases cs, 0
  {
    if cs != [] {
      ConditionRoundTrip(cs[0]);
      AllRoundTrip(cs[1..]);
      assert SerializeAll(cs)[1..] == SerializeAll(cs[1..]);
      hide SerializeCondition, DeserializeCondition;
      assert [cs[0]] + cs[1..] == cs;
    }
  }

  lemma TopRoundTrip(group: Condition)
    requires group.Group?
    ensures DeserializeGroup(SerializeTop(group)) == Ok(group)
  {
    LogicalRoundTrip(group.logical);
    AllRoundTrip(group.conditions);
    assert SerializeAll(group.conditions) == [] <==> group.conditions == [];
    hide ParseLogical, LogicalText, DeserializeAll, SerializeAll;
    GroupFields(group.logical, SerializeAll(group.conditions));
  }

  /** So a stored policy decides every request as before, and no two trees share their stored form. */
  lemma StoredConditionsMeanTheSame(group: Condition, context: Json, compare: Comparison)
    requires group.Group?
    ensures DeserializeGroup(SerializeTop(group)).Ok?
    ensures Evaluate(DeserializeGroup(SerializeTop(group)).value, context, compare) == Evaluate(group, context, compare)
    ensures forall other: Condition :: other.Group? && SerializeTop(other) == SerializeTop(group) ==> other == group
  {
    TopRoundTrip(group);
    forall other: Condition | other.Group? && SerializeTop(other) == SerializeTop(group)
      ensures other == group
    {
      TopRoundTrip(other);
    }
  }

  // ---------------------------------------------------------------- what can be read

  /** The field is there and holds this. */
  predicate Holds(j: Json, key: string, value: Json) {
    j.Obj? && Get(j.fields, key) == Some(value)
  }

  /** The field is an empty list, or one of the other values that iterate over nothing. */
  predicate HoldsNothing(j: Json, key: string) {
    Holds(j, key, Arr([])) || Holds(j, key, Obj([])) || Holds(j, key, Str(""))
  }

  /** The value is a stored form of the condition: the one that is written, with any other fields beside. */
  ghost predicate Stores(j: Json, c: Condition)
    decreases c, 1
  {
    match c
    case Leaf(attribute, operator, value) =>
      && j.Obj? && (Holds(j, "type", Str("condition")) || Get(j.fields, "type") == None)
      && Holds(j, "attribute", attribute) && Holds(j, "value", value)
      && Holds(j, "operator", Str(OperatorText(operator)))
    case Group(_, _) => Holds(j, "type", Str("group")) && StoresGroup(j, c)
  }

  ghost predicate StoresGroup(j: Json, c: Condition)
    requires c.Group?
    decreases c, 0
  {
    && Holds(j, "operator", Str(LogicalText(c.logical)))
    && if c.conditions == [] then HoldsNothing(j, "conditions")
       else exists items :: Holds(j, "conditions", Arr(items)) && StoresAll(items, c.conditions)
  }

  ghost predicate StoresAll(items: seq<Json>, cs: seq<Condition>)
    decreases cs
  {
    |items| == |cs| && forall i :: 0 <= i < |cs| ==> Stores(items[i], cs[i])
  }

  lemma ParsesIff(j: Json, operator: ConditionOperator)
    ensures ParseOperator(j) == Some(operator) <==> j == Str(OperatorText(operator))
  {
    OperatorRoundTrip(operator);
  }

  lemma ParsesLogicalIff(j: Json, logical: LogicalOperator)
    ensures ParseLogical(j) == Some(logical) <==> j == Str(LogicalText(logical))
  {
    LogicalRoundTrip(logical);
  }

  /** A value is read as a condition exactly when it is a stored form of it; whatever is none cannot be read. */
  lemma {:induction false} DecodesIff(j: Json, c: Condition)
    ensures DeserializeCondition(j) == Ok(c) <==> Stores(j, c)
    decreases c, 2
  {
    match c
    case Leaf(attribute, operator, value) =>
      if j.Obj? && Has(j.fields, "operator") {
        ParsesIff(GetOrNull(j.fields, "operator"), operator);
      }
      hide ParseOperator, OperatorText, Has;
      DecodedLeaf(j);
    case Group(_, _) =>
      GroupDecodesIff(j, c);
      hide ParseOperator, Has;
  }

  /** What is read as a group says so. */
  lemma DecodedLeaf(j: Json)
    ensures DeserializeCondition(j).Ok? ==> j.Obj?
    ensures DeserializeCondition(j).Ok? ==>
      (DeserializeCondition(j).value.Leaf? <==> Holds(j, "type", Str("condition")) || Get(j.fields, "type") == None)
  {
    hide ParseOperator, DeserializeGroup;
  }

  lemma {:induction false} GroupDecodesIff(j: Json, c: Condition)
    requires c.Group?
    ensures DeserializeGroup(j) == Ok(c) <==> StoresGroup(j, c)
    decreases c, 1
  {
    if j.Obj? {
      ParsesLogicalIff(GetOrNull(j.fields, "operator"), c.logical);
      var list := GetOrNull(j.fields, "conditions");
      if list.Arr? && Has(j.fields, "conditions") {
        ListDecodesIff(list.items, c.conditions);
      }
    }
    hide ParseLogical, LogicalText, DeserializeAll;
  }

  lemma {:induction false} ListDecodesIff(items: seq<Json>, cs: seq<Condition>)
    ensures DeserializeAll(items) == Ok(cs) <==> StoresAll(items, cs)
    decreases cs, 0
  {
    if items == [] || cs == [] {
      assert items == [] ==> DeserializeAll(items) == Ok([]);
    } else {
      DecodesIff(items[0], cs[0]);
      ListDecodesIff(items[1..], cs[1..]);
      assert items == [items[0]] + items[1..] && cs == [cs[0]] + cs[1..];
    }
  }

  // ---------------------------------------------------------------- rows

  datatype Row = Row(name: string, description: string, effect: string, resourceType: string,
                     actions: seq<string>, conditions: Json, priority: int, enabled: bool)

  type Database = map<string, Row>

  /** A policy as callers build it: its conditions are a group. */
  predicate Storable(p: Policy) { p.conditions.Group? }

  function EffectText(e: Effect): string { if e.Allow? then "allow" else "deny" }

  /** _policy_to_model, timestamps aside. */
  function ToRow(p: Policy): Row
    requires Storable(p)
  {
    Row(p.name, p.description, EffectText(p.effect), p.resourceType, p.actions, SerializeTop(p.conditions),
        p.priority, p.enabled)
  }

  /** _model_to_policy: None when the effect or the conditions cannot be read. */
  function FromRow(id: string, row: Row): (r: Option<Policy>)
    ensures r.Some? ==> Storable(r.value) && r.value.id == id && r.value.enabled == row.enabled
  {
    if row.effect != "allow" && row.effect != "deny" then None
    else
      match DeserializeGroup(row.conditions)
      case Err(_) => None
      case Ok(group) =>
        Some(Policy(id, row.name, row.description, if row.effect == "allow" then Allow else Deny, row.resourceType,
                    row.actions, group, row.priority, row.enabled))
  }

  lemma RowRoundTrip(p: Policy)
    requires Storable(p)
    ensures FromRow(p.id, ToRow(p)) == Some(p)
  {
    TopRoundTrip(p.conditions);
    assert "allow"[0] != "deny"[0];
  }

  /** A row is read as a policy exactly when it has its fields, its effect by name, and stores its conditions. */
  lemma RowDecodesIff(id: string, row: Row, p: Policy)
    ensures FromRow(id, row) == Some(p) <==>
      && p.id == id && p.name == row.name && p.description == row.description && p.resourceType == row.resourceType
      && p.actions == row.actions && p.priority == row.priority && p.enabled == row.enabled
      && row.effect == (if p.effect == Allow then "allow" else "deny")
      && p.conditions.Group? && StoresGroup(row.conditions, p.conditions)
  {
    assert "allow"[0] != "deny"[0];
    if p.conditions.Group? {
      GroupDecodesIff(row.conditions, p.conditions);
    }
    hide DeserializeGroup, StoresGroup;
  }

  /** Every enabled row can be read. */
  predicate EnabledDecode(db: Database) {
    forall id :: id in db ==> (db[id].enabled ==> FromRow(id, db[id]).Some?)
  }

  /** The policies that the database's enabled rows describe. */
  function EnabledPolicies(db: Database): map<string, Policy> {
    map id | id in db && db[id].enabled && FromRow(id, db[id]).Some? :: FromRow(id, db[id]).value
  }

  // ---------------------------------------------------------------- operations

  datatype State = State(db: Database, engine: map<string, Policy>)

  datatype Operation =
    | Create(policy: Policy)
    | UpdatePolicy(policy: Policy)
    | Delete(id: string)
    | SetEnabled(id: string, enabled: bool)
    | Load(clearExisting: bool)

  predicate Runnable(op: Operation) {
    (op.Create? || op.UpdatePolicy?) ==> Storable(op.policy)
  }

  function Reflect(engine: map<string, Policy>, p: Policy): map<string, Policy> {
    if p.enabled then engine[p.id := p] else engine - {p.id}
  }

  /** The effect of each operation; one that raises or finds no row changes nothing. */
  function Apply(s: State, op: Operation): State
    requires Runnable(op)
  {
    match op
    case Create(p) =>
      if p.id in s.db then s
      else State(s.db[p.id := ToRow(p)], if p.enabled then s.engine[p.id := p] else s.engine)
    case UpdatePolicy(p) =>
      if p.id !in s.db then s
      else State(s.db[p.id := ToRow(p)], Reflect(s.engine, p))
    case Delete(id) =>
      if id !in s.db then s else State(s.db - {id}, s.engine - {id})
    case SetEnabled(id, enabled) =>
      if id !in s.db || FromRow(id, s.db[id]).None? then s
      else
        var p := FromRow(id, s.db[id]).value.(enabled := enabled);
        State(s.db[id := ToRow(p)], Reflect(s.engine, p))
    case Load(clearExisting) =>
      var kept := if clearExisting then map[] else s.engine;
      s.(engine := if EnabledDecode(s.db) then kept + EnabledPolicies(s.db) else kept)
  }

  /**
   What each operation makes of the rows: a creation adds a row under a new id, an update or a switch replaces the row
   there is, and a deletion removes it; every other row stays, and an operation that cannot be done changes nothing.
   */
  lemma RowsAfter(s: State, op: Operation)
    requires Runnable(op)
    ensures var t := Apply(s, op);
      match op
      case Create(p) => t.db == if p.id in s.db then s.db else s.db[p.id := ToRow(p)]
      case UpdatePolicy(p) => t.db == if p.id in s.db then s.db[p.id := ToRow(p)] else s.db
      case Delete(id) => t.db.Keys == s.db.Keys - {id} && forall other :: other in t.db ==> t.db[other] == s.db[other]
      case SetEnabled(id, enabled) =>
        && t.db.Keys == s.db.Keys && (forall other :: other in s.db && other != id ==> t.db[other] == s.db[other])
        && (id in s.db ==>
              match FromRow(id, s.db[id])
              case None => t.db[id] == s.db[id]
              case Some(p) => FromRow(id, t.db[id]) == Some(p.(enabled := enabled)))
      case Load(_) => t.db == s.db
  {
    if op.SetEnabled? && op.id in s.db && FromRow(op.id, s.db[op.id]).Some? {
      RowRoundTrip(FromRow(op.id, s.db[op.id]).value.(enabled := op.enabled));
    }
    hide FromRow, ToRow, EnabledPolicies, EnabledDecode;
  }

  function RunAll(s: State, ops: seq<Operation>): State
    requires forall i :: 0 <= i < |ops| ==> Runnable(ops[i])
    decreases |ops|
  {
    if ops == [] then s else RunAll(Apply(s, ops[0]), ops[1..])
  }

  ghost predicate Agrees(s: State) {
    EnabledDecode(s.db) && s.engine == EnabledPolicies(s.db)
  }

  lemma ApplyAgrees(s: State, op: Operation)
    requires Agrees(s) && Runnable(op)
    ensures Agrees(Apply(s, op))
  {
    hide FromRow, ToRow;
    match op
    case Create(p) => RowRoundTrip(p); StoreAgrees(s, p);
    case UpdatePolicy(p) => RowRoundTrip(p); StoreAgrees(s, p);
    case Delete(id) =>
    case SetEnabled(id, enabled) =>
      if id in s.db && FromRow(id, s.db[id]).Some? {
        var p := FromRow(id, s.db[id]).value.(enabled := enabled);
        RowRoundTrip(p);
        StoreAgrees(s, p);
      }
    case Load(_) =>
  }

  lemma StoreAgrees(s: State, p: Policy)
    requires Agrees(s) && Storable(p) && FromRow(p.id, ToRow(p)) == Some(p)
    ensures Agrees(State(s.db[p.id := ToRow(p)], Reflect(s.engine, p)))
    ensures p.id !in s.db ==> p.id !in s.engine
  {
    EnabledAfterStore(s.db, p);
    hide FromRow, ToRow, EnabledDecode, EnabledPolicies;
  }

  lemma EnabledEntry(db: Database, id: string)
    ensures id in EnabledPolicies(db) <==> id in db && db[id].enabled && FromRow(id, db[id]).Some?
    ensures id in EnabledPolicies(db) ==> FromRow(id, db[id]) == Some(EnabledPolicies(db)[id])
  {
    hide FromRow;
  }

  /** Storing a readable row changes the enabled policies at its own id only. */
  lemma EnabledAfterStore(db: Database, p: Policy)
    requires EnabledDecode(db) && Storable(p) && FromRow(p.id, ToRow(p)) == Some(p)
    ensures EnabledDecode(db[p.id := ToRow(p)])
    ensures EnabledPolicies(db[p.id := ToRow(p)]) == Reflect(EnabledPolicies(db), p)
    ensures p.id !in db ==> p.id !in EnabledPolicies(db)
  {
    hide FromRow, ToRow, EnabledPolicies, EnabledDecode;
    var stored := db[p.id := ToRow(p)];
    assert EnabledDecode(stored) by {
      DecodeAfterStore(db, p);
    }
    EnabledEntry(db, p.id);
    forall id: string
      ensures id in EnabledPolicies(stored) <==> id in Reflect(EnabledPolicies(db), p)
      ensures id in EnabledPolicies(stored) ==> EnabledPolicies(stored)[id] == Reflect(EnabledPolicies(db), p)[id]
    {
      EntryAfterStore(db, p, id);
    }
    hide Reflect;
    assert EnabledPolicies(stored).Keys == Reflect(EnabledPolicies(db), p).Keys;
  }

  lemma DecodeAfterStore(db: Database, p: Policy)
    requires EnabledDecode(db) && Storable(p) && FromRow(p.id, ToRow(p)) == Some(p)
    ensures EnabledDecode(db[p.id := ToRow(p)])
  {
    hide FromRow, ToRow;
  }

  lemma EntryAfterStore(db: Database, p: Policy, id: string)
    requires Storable(p) && FromRow(p.id, ToRow(p)) == Some(p)
    ensures var after, expected := EnabledPolicies(db[p.id := ToRow(p)]), Reflect(EnabledPolicies(db), p);
      && (id in after <==> id in expected)
      && (id in after ==> after[id] == expected[id])
  {
    assert ToRow(p).enabled == p.enabled;
    hide FromRow, ToRow, EnabledPolicies;
    EnabledEntry(db, id);
    EnabledEntry(db[p.id := ToRow(p)], id);
  }

  lemma {:induction false} RunAgrees(s: State, ops: seq<Operation>)
    requires Agrees(s) && forall i :: 0 <= i < |ops| ==> Runnable(ops[i])
    ensures Agrees(RunAll(s, ops))
    decreases |ops|
  {
    if ops != [] {
      ApplyAgrees(s, ops[0]);
      RunAgrees(Apply(s, ops[0]), ops[1..]);
    }
  }

  /**
   Main result: after a startup load and any sequence of operations the engine holds exactly the policies
   of the enabled rows, so whatever order they were added in, what it decides is what those rows define.
   */
  lemma {:induction false} CacheAgreement(s: State, ops: seq<Operation>, request: Request, compare: Comparison)
    requires EnabledDecode(s.db) && forall i :: 0 <= i < |ops| ==> Runnable(ops[i])
    ensures var t := RunAll(Apply(s, Load(true)), ops);
      && t.engine == EnabledPolicies(t.db)
      && forall ps :: UniqueIds(ps) && AsMap(ps) == t.engine ==>
           (EngineDecision(ps, request, compare) <==> Permits(EnabledPolicies(t.db), request, compare))
  {
    StartupAgrees(s);
    hide Permits, EnabledPolicies, EnabledDecode, Apply, RunAll, EngineDecision, AsMap, UniqueIds;
    RunAgrees(Apply(s, Load(true)), ops);
    var t := RunAll(Apply(s, Load(true)), ops);
    forall ps | UniqueIds(ps) && AsMap(ps) == t.engine
      ensures EngineDecision(ps, request, compare) <==> Permits(EnabledPolicies(t.db), request, compare)
    {
      DecisionIsPermits(ps, request, compare);
    }
  }

  lemma StartupAgrees(s: State)
    requires EnabledDecode(s.db)
    ensures Agrees(Apply(s, Load(true)))
  {
    assert map[] + EnabledPolicies(s.db) == EnabledPolicies(s.db);
  }

  /**
   A startup load agrees with the enabled rows that can be read exactly when all of them can, or none:
   one unreadable enabled row empties the engine, which then denies every request.
   */
  lemma LoadAgreesIff(s: State, request: Request, compare: Comparison)
    ensures var t := Apply(s, Load(true));
      var allRead := forall id :: id in s.db && s.db[id].enabled ==> exists p :: FromRow(id, s.db[id]) == Some(p);
      && (t.engine == EnabledPolicies(s.db) <==> allRead || EnabledPolicies(s.db) == map[])
      && (!allRead ==> t.engine == map[] && !Permits(t.engine, request, compare))
  {
    assert forall id :: id in s.db && FromRow(id, s.db[id]).Some? ==>
      FromRow(id, s.db[id]) == Some(FromRow(id, s.db[id]).value);
    var t := Apply(s, Load(true));
    assert map[] + EnabledPolicies(s.db) == EnabledPolicies(s.db);
  }

  /** What a load leaves, by the list of policies it was given. */
  lemma LoadLeaves(s: State, clearExisting: bool, policies: seq<Policy>, engine: map<string, Policy>)
    requires !EnabledDecode(s.db) ==> policies == []
    requires EnabledDecode(s.db) ==> AsMap(policies) == EnabledPolicies(s.db)
    requires engine == (if clearExisting then map[] else s.engine) + AsMap(policies)
    ensures Apply(s, Load(clearExisting)) == State(s.db, engine)
  {
    hide EnabledPolicies, EnabledDecode;
  }

  // ---------------------------------------------------------------- runs with rows that cannot be read

  ghost predicate AllRunnable(ops: seq<Operation>) {
    forall i :: 0 <= i < |ops| ==> Runnable(ops[i])
  }

  /** The operation leaves what the row of this id describes in the engine. */
  predicate Brings(s: State, op: Operation, id: string) {
    match op
    case Create(p) => p.id == id && id !in s.db
    case UpdatePolicy(p) => p.id == id && id in s.db
    case Delete(_) => false
    case SetEnabled(changed, _) => changed == id && id in s.db && FromRow(id, s.db[id]).Some?
    case Load(_) => EnabledDecode(s.db)
  }

  /** A load that clears the engine and then reads nothing. */
  predicate Empties(s: State, op: Operation) {
    op.Load? && op.clearExisting && !EnabledDecode(s.db)
  }

  /** The k-th operation brought the id, and none since has emptied the engine. */
  ghost predicate BroughtAt(s: State, ops: seq<Operation>, id: string, k: nat)
    requires AllRunnable(ops)
  {
    && k < |ops| && Brings(RunAll(s, ops[..k]), ops[k], id)
    && forall j :: k < j < |ops| ==> !Empties(RunAll(s, ops[..j]), ops[j])
  }

  ghost predicate Cached(s: State, ops: seq<Operation>, id: string)
    requires AllRunnable(ops)
  {
    exists k: nat :: BroughtAt(s, ops, id, k)
  }

  /** The engine has the policy of an enabled row when it is cached, and nothing else under this id. */
  ghost predicate HoldsAt(s: State, id: string, cached: bool) {
    && (id in s.engine <==> id in EnabledPolicies(s.db) && cached)
    && (id in s.engine ==> s.engine[id] == EnabledPolicies(s.db)[id])
  }

  lemma StepHolds(s: State, op: Operation, id: string, cached: bool)
    requires Runnable(op) && HoldsAt(s, id, cached)
    ensures HoldsAt(Apply(s, op), id, Brings(s, op, id) || (cached && !Empties(s, op)))
  {
    hide FromRow, ToRow, EnabledPolicies, EnabledDecode;
    EnabledEntry(s.db, id);
    match op
    case Create(p) => RowRoundTrip(p); EntryAfterStore(s.db, p, id);
    case UpdatePolicy(p) => RowRoundTrip(p); EntryAfterStore(s.db, p, id);
    case Delete(gone) => EnabledEntry(s.db - {gone}, id);
    case SetEnabled(changed, enabled) =>
      if changed in s.db && FromRow(changed, s.db[changed]).Some? {
        var p := FromRow(changed, s.db[changed]).value.(enabled := enabled);
        RowRoundTrip(p);
        EntryAfterStore(s.db, p, id);
      }
    case Load(_) =>
  }

  lemma {:induction false} RunAllSnoc(s: State, ops: seq<Operation>, op: Operation)
    requires AllRunnable(ops) && Runnable(op)
    ensures AllRunnable(ops + [op]) && RunAll(s, ops + [op]) == Apply(RunAll(s, ops), op)
    decreases |ops|
  {
    hide Apply;
    if ops == [] {
      assert RunAll(Apply(s, op), []) == Apply(s, op);
      assert ops + [op] == [op];
    } else {
      assert (ops + [op])[1..] == ops[1..] + [op];
      RunAllSnoc(Apply(s, ops[0]), ops[1..], op);
    }
  }

  lemma CachedSnoc(s: State, ops: seq<Operation>, op: Operation, id: string)
    requires AllRunnable(ops) && Runnable(op) && AllRunnable(ops + [op])
    ensures var t := RunAll(s, ops);
      Cached(s, ops + [op], id) <==> Brings(t, op, id) || (Cached(s, ops, id) && !Empties(t, op))
  {
    hide Apply, Brings, Empties, RunAll;
    var all := ops + [op];
    assert all[..|ops|] == ops && all[|ops|] == op;
    assert forall k :: 0 <= k < |ops| ==> all[..k] == ops[..k] && all[k] == ops[k];
    if Brings(RunAll(s, ops), op, id) {
      assert BroughtAt(s, all, id, |ops|);
    }
    if k: nat :| BroughtAt(s, ops, id, k) {
      assert !Empties(RunAll(s, ops), op) ==> BroughtAt(s, all, id, k);
    }
    if k: nat :| BroughtAt(s, all, id, k) {
      assert k < |ops| ==> BroughtAt(s, ops, id, k) && !Empties(RunAll(s, all[..|ops|]), all[|ops|]);
    }
  }

  lemma {:induction false} RunHolds(s: State, ops: seq<Operation>, id: string)
    requires AllRunnable([Load(true)] + ops)
    ensures var all := [Load(true)] + ops;
      HoldsAt(RunAll(s, all), id, Cached(s, all, id))
    decreases |ops|
  {
    hide Apply, Brings, Empties, HoldsAt, RunAll, Cached;
    if ops == [] {
      assert [Load(true)] + ops == [] + [Load(true)];
      RunAllSnoc(s, [], Load(true));
      CachedSnoc(s, [], Load(true), id);
      assert RunAll(s, []) == s && !Cached(s, [], id) by { NothingRun(s, id); }
      FirstLoadHolds(s, id);
    } else {
      var init, last := ops[..|ops| - 1], ops[|ops| - 1];
      var before := [Load(true)] + init;
      assert [Load(true)] + ops == before + [last];
      assert AllRunnable(before) && Runnable(last) by { RunnablePrefix(before, last); }
      RunHolds(s, init, id);
      RunAllSnoc(s, before, last);
      CachedSnoc(s, before, last, id);
      StepHolds(RunAll(s, before), last, id, Cached(s, before, id));
    }
  }

  lemma RunnablePrefix(ops: seq<Operation>, last: Operation)
    requires AllRunnable(ops + [last])
    ensures AllRunnable(ops) && Runnable(last)
  {
    assert (ops + [last])[|ops|] == last;
    assert forall i :: 0 <= i < |ops| ==> (ops + [last])[i] == ops[i];
  }

  lemma NothingRun(s: State, id: string)
    ensures RunAll(s, []) == s && !Cached(s, [], id)
  {
  }

  lemma FirstLoadHolds(s: State, id: string)
    ensures HoldsAt(Apply(s, Load(true)), id, Brings(s, Load(true), id))
  {
    hide FromRow, EnabledDecode, EnabledPolicies;
  }

  /**
   Main result, for any database and any run from startup: the engine never holds anything but policies of enabled
   rows, and it holds one exactly when some step since it was last emptied wrote its row or loaded all rows. So it
   agrees with the enabled rows that can be read exactly when that is so for each of them.
   */
  lemma EngineHoldsIff(s: State, ops: seq<Operation>)
    requires AllRunnable([Load(true)] + ops)
    ensures var all := [Load(true)] + ops;
      var t := RunAll(s, all);
      var enabled := EnabledPolicies(t.db);
      && (forall id :: id in t.engine <==> id in enabled && Cached(s, all, id))
      && (forall id :: id in t.engine ==> t.engine[id] == enabled[id])
      && (t.engine == enabled <==> forall id :: id in enabled ==> Cached(s, all, id))
  {
    hide RunAll, Cached, EnabledPolicies;
    var all := [Load(true)] + ops;
    var t := RunAll(s, all);
    var enabled := EnabledPolicies(t.db);
    forall id
      ensures id in t.engine <==> id in enabled && Cached(s, all, id)
      ensures id in t.engine ==> t.engine[id] == enabled[id]
    {
      RunHolds(s, ops, id);
    }
    if forall id :: id in enabled ==> Cached(s, all, id) {
      assert t.engine.Keys == enabled.Keys;
    }
  }

  // ---------------------------------------------------------------- the loader

  class Loader {
    var db: Database
    const engine: Engine

    function View(): State
      reads this, engine
    {
      State(db, engine.Contents())
    }

    constructor (engine: Engine, db: Database)
      ensures this.engine == engine && this.db == db
    {
      this.engine := engine;
      this.db := db;
    }

    method CreatePolicy(p: Policy) returns (created: bool)
      requires engine.Valid() && Storable(p)
      modifies this, engine
      ensures engine.Valid() && View() == Apply(old(View()), Create(p))
      ensures created <==> p.id !in old(db)
    {
      if p.id in db {
        return false;
      }
      db := db[p.id := ToRow(p)];
      if p.enabled {
        engine.AddPolicy(p);
      }
      created := true;
    }

    method Update(p: Policy) returns (updated: bool)
      requires engine.Valid() && Storable(p)
      modifies this, engine
      ensures engine.Valid() && View() == Apply(old(View()), UpdatePolicy(p))
      ensures updated <==> p.id in old(db)
    {
      if p.id !in db {
        return false;
      }
      db := db[p.id := ToRow(p)];
      var before := engine.Contents();
      var found := engine.RemovePolicy(p.id);
      if p.enabled {
        engine.AddPolicy(p);
        assert (before - {p.id})[p.id := p] == before[p.id := p];
      }
      updated := true;
    }

    method DeletePolicy(id: string) returns (deleted: bool)
      requires engine.Valid()
      modifies this, engine
      ensures engine.Valid() && View() == Apply(old(View()), Delete(id))
      ensures deleted <==> id in old(db)
    {
      if id !in db {
        return false;
      }
      db := db - {id};
      var found := engine.RemovePolicy(id);
      deleted := true;
    }

    /** enable_policy and disable_policy */
    method SetPolicyEnabled(id: string, enabled: bool) returns (done: bool)
      requires engine.Valid()
      modifies this, engine
      ensures engine.Valid() && View() == Apply(old(View()), SetEnabled(id, enabled))
      ensures done <==> id in old(db) && FromRow(id, old(db)[id]).Some?
    {
      if id !in db {
        return false;
      }
      var policy := FromRow(id, db[id]);
      if policy.None? {
        return false;
      }
      done := Update(policy.value.(enabled := enabled));
    }

    /** list_policies with enabled_only: one row that cannot be read makes it return nothing. */
    method ListEnabledPolicies() returns (policies: seq<Policy>)
      ensures !EnabledDecode(db) ==> policies == []
      ensures EnabledDecode(db) ==> UniqueIds(policies) && AsMap(policies) == EnabledPolicies(db)
      ensures EnabledDecode(db) ==> |policies| == |EnabledPolicies(db)|
    {
      policies := [];
      var pending := db.Keys;
      while pending != {}
        invariant pending <= db.Keys && UniqueIds(policies)
        invariant forall id :: id in db.Keys - pending && db[id].enabled ==> FromRow(id, db[id]).Some?
        invariant forall p :: p in policies ==>
          p.id in db && db[p.id].enabled && p.id !in pending && FromRow(p.id, db[p.id]) == Some(p)
        invariant forall id :: id in db.Keys - pending && db[id].enabled ==> FromRow(id, db[id]).value in policies
        decreases |pending|
      {
        var id :| id in pending;
        pending := pending - {id};
        if db[id].enabled {
          var policy := FromRow(id, db[id]);
          if policy.None? {
            return [];
          }
          policies := policies + [policy.value];
        }
      }
      AsMapDetermined(policies, EnabledPolicies(db));
      AsMapContents(policies);
    }

    method LoadPoliciesIntoEngine(clearExisting: bool) returns (count: nat)
      requires engine.Valid()
      modifies engine
      ensures engine.Valid() && View() == Apply(old(View()), Load(clearExisting))
      ensures count == if EnabledDecode(db) then |EnabledPolicies(db)| else 0
    {
      hide Apply, AsMap, EnabledPolicies, EnabledDecode, UniqueIds;
      if clearExisting {
        engine.ClearPolicies();
      }
      var policies := ListEnabledPolicies();
      AddAll(policies);
      LoadLeaves(old(View()), clearExisting, policies, engine.Contents());
      count := |policies|;
    }

    method AddAll(policies: seq<Policy>)
      requires engine.Valid()
      modifies engine
      ensures engine.Valid() && engine.Contents() == old(engine.Contents()) + AsMap(policies)
    {
      ghost var kept := engine.Contents();
      for i := 0 to |policies|
        invariant engine.Valid() && engine.Contents() == kept + AsMap(policies[..i])
      {
        engine.AddPolicy(policies[i]);
        assert policies[..i + 1][..i] == policies[..i];
        assert AsMap(policies[..i + 1]) == AsMap(policies[..i])[policies[i].id := policies[i]];
      }
      assert policies[..|policies|] == policies;
    }
  }
}
