/** Tool-call payloads: how a call is written as a JSON object, and how several shapes of objects are read. */
module ToolPayload {
  import opened Common
  import opened JsonText
  import BraceScanner

  type Fields = seq<Field>

  datatype PayloadError = InvalidType | MissingField

  datatype Call = Call(tool: string, arguments: Fields)

  // ---------------------------------------------------------------- dictionaries

  ghost predicate UniqueKeys(fields: Fields) {
    forall i, j :: 0 <= i < j < |fields| ==> fields[i].key != fields[j].key
  }

  /** Equality of dictionaries, which ignores the order of their entries. */
  ghost predicate SameDict(a: Fields, b: Fields) {
    forall key :: Get(a, key) == Get(b, key)
  }

  function Drop(fields: Fields, keys: set<string>): Fields {
    if fields == [] then []
    else (if fields[0].key in keys then [] else [fields[0]]) + Drop(fields[1..], keys)
  }

  /** d[key] = value: an existing entry keeps its place, a new one goes to the end. */
  function Put(fields: Fields, entry: Field): Fields {
    if fields == [] then [entry]
    else if fields[0].key == entry.key then [entry] + fields[1..]
    else [fields[0]] + Put(fields[1..], entry)
  }

  /** d.update(more) */
  function Update(fields: Fields, more: Fields): Fields
    decreases |more|
  {
    if more == [] then fields else Update(Put(fields, more[0]), more[1..])
  }

  lemma {:induction false} GetDrop(fields: Fields, keys: set<string>, key: string)
    ensures Get(Drop(fields, keys), key) == if key in keys then None else Get(fields, key)
  {
    if fields != [] {
      GetDrop(fields[1..], keys, key);
      var rest := Drop(fields[1..], keys);
      if fields[0].key in keys {
        assert Drop(fields, keys) == rest;
      } else {
        assert Drop(fields, keys)[1..] == rest;
      }
    }
  }

  lemma {:induction false} GetPut(fields: Fields, entry: Field, key: string)
    ensures Get(Put(fields, entry), key) == if key == entry.key then Some(entry.value) else Get(fields, key)
  {
    if fields == [] {
      assert [entry][1..] == [];
    } else if fields[0].key == entry.key {
      assert ([entry] + fields[1..])[1..] == fields[1..];
    } else {
      GetPut(fields[1..], entry, key);
      assert ([fields[0]] + Put(fields[1..], entry))[1..] == Put(fields[1..], entry);
    }
  }

  lemma {:induction false} GetUpdate(fields: Fields, more: Fields, key: string)
    requires UniqueKeys(more)
    ensures Get(Update(fields, more), key) == if Has(more, key) then Get(more, key) else Get(fields, key)
    decreases |more|
  {
    if more != [] {
      GetUpdate(Put(fields, more[0]), more[1..], key);
      GetPut(fields, more[0], key);
      GetTail(more, key);
    }
  }

  lemma GetTail(fields: Fields, key: string)
    requires fields != [] && UniqueKeys(fields)
    ensures key == fields[0].key ==> !Has(fields[1..], key)
    ensures key != fields[0].key ==> Get(fields, key) == Get(fields[1..], key)
  {
  }

  lemma {:induction false} PutNew(fields: Fields, entry: Field)
    requires !Has(fields, entry.key)
    ensures Put(fields, entry) == fields + [entry]
  {
    if fields != [] {
      assert fields[0].key != entry.key;
      assert forall i :: 0 <= i < |fields[1..]| ==> fields[1..][i] == fields[i + 1];
      PutNew(fields[1..], entry);
    }
  }

  lemma {:induction false} UpdateNew(fields: Fields, more: Fields)
    requires UniqueKeys(more) && forall i :: 0 <= i < |more| ==> !Has(fields, more[i].key)
    ensures Update(fields, more) == fields + more
    decreases |more|
  {
    if more != [] {
      PutNew(fields, more[0]);
      forall i | 0 <= i < |more[1..]|
        ensures !Has(fields + [more[0]], more[1..][i].key)
      {
        assert more[1..][i] == more[i + 1];
      }
      UpdateNew(fields + [more[0]], more[1..]);
      assert fields + [more[0]] + more[1..] == fields + more;
    }
  }

  lemma {:induction false} DropNone(fields: Fields, keys: set<string>)
    requires forall i :: 0 <= i < |fields| ==> fields[i].key !in keys
    ensures Drop(fields, keys) == fields
  {
    if fields != [] {
      DropNone(fields[1..], keys);
    }
  }

  // ---------------------------------------------------------------- writing

  /** _serialize_tool_call_payload, before it is printed. */
  function SerializePayload(name: string, arguments: Fields): Fields {
    Update([Field("tool", Str(Strip(name)))], arguments)
  }

  // ---------------------------------------------------------------- reading

  /** payload.get(k1, payload.get(k2, payload.get(k3))): the first key present wins, even with a null. */
  function FirstOf(fields: Fields, k1: string, k2: string, k3: string): Json {
    if Has(fields, k1) then GetOrNull(fields, k1)
    else if Has(fields, k2) then GetOrNull(fields, k2)
    else GetOrNull(fields, k3)
  }

  /** str() of a scalar. */
  function ScalarText(j: Json): string {
    match j
    case Bool(b) => if b then "True" else "False"
    case _ => Print(j)
  }

  /** loads is json.loads restricted to objects: None when the text is no JSON object. */
  function DecodePositional(text: string, loads: string -> Option<Fields>): Option<Fields> {
    var stripped := Strip(text);
    if stripped == "" || (stripped[0] != '{' && stripped[0] != '[') then None else loads(stripped)
  }

  function CoerceArguments(payload: Json, loads: string -> Option<Fields>): Fields {
    match payload
    case Null => []
    case Obj(fields) => fields
    case Str(s) =>
      var decoded := DecodePositional(s, loads);
      if decoded.Some? then decoded.value else [Field("__arg1", payload)]
    case Arr(_) => [Field("__arg1", Str(Print(payload)))]
    case _ => [Field("__arg1", Str(ScalarText(payload)))]
  }

  const ENVELOPE: set<string> := {"tool", "arguments", "args", "parameters"}

  /** The value that names the tool and the arguments, for the three recognised shapes. */
  function Unwrap(payload: Fields, loads: string -> Option<Fields>): Result<(Json, Fields), PayloadError> {
    if Has(payload, "tool") then
      var wrapped := FirstOf(payload, "arguments", "args", "parameters");
      Ok((GetOrNull(payload, "tool"),
          if wrapped.Null? then Drop(payload, {"tool"})
          else Update(Drop(payload, ENVELOPE), CoerceArguments(wrapped, loads))))
    else if Has(payload, "tool_name") then
      var wrapped := FirstOf(payload, "parameters", "arguments", "args");
      Ok((GetOrNull(payload, "tool_name"),
          if wrapped.Null? then Drop(payload, {"tool_name", "type"}) else CoerceArguments(wrapped, loads)))
    else if Has(payload, "name") then
      var wrapped := FirstOf(payload, "arguments", "args", "parameters");
      Ok((GetOrNull(payload, "name"),
          if wrapped.Null? then Drop(payload, {"name", "type"}) else CoerceArguments(wrapped, loads)))
    else Err(MissingField)
  }

  /** _normalize_tool_payload_object */
  function NormalizePayload(data: Json, loads: string -> Option<Fields>): Result<Call, PayloadError> {
    if !data.Obj? then Err(InvalidType)
    else
      match Unwrap(data.fields, loads)
      case Err(e) => Err(e)
      case Ok((name, arguments)) =>
        if !name.Str? then Err(InvalidType)
        else
          var stripped := Strip(name.s);
          if stripped == "" then Err(InvalidType) else Ok(Call(stripped, arguments))
  }

  // ---------------------------------------------------------------- the round trip

  /** A decoded object holds only strings shorter than the text it was decoded from, and unique keys. */
  ghost predicate DecodesText(loads: string -> Option<Fields>) {
    forall text: string :: loads(text).Some? ==>
      && UniqueKeys(loads(text).value)
      && forall key, s :: Get(loads(text).value, key) == Some(Str(s)) ==> |s| < |text|
  }

  ghost predicate WellFormed(j: Json) {
    match j
    case Arr(items) => forall i :: 0 <= i < |items| ==> WellFormed(items[i])
    case Obj(fields) => UniqueKeys(fields) && forall i :: 0 <= i < |fields| ==> WellFormed(fields[i].value)
    case _ => true
  }

  /** Nothing in the arguments looks like the envelope to the reader. */
  predicate PlainArguments(arguments: Fields) {
    !Has(arguments, "tool") && FirstOf(arguments, "arguments", "args", "parameters").Null?
  }

  ghost predicate Recovers(name: string, arguments: Fields, loads: string -> Option<Fields>) {
    var r := NormalizePayload(Obj(SerializePayload(name, arguments)), loads);
    r.Ok? && r.value.tool == Strip(name) && SameDict(r.value.arguments, arguments)
  }

  lemma PlainRecovers(name: string, arguments: Fields, loads: string -> Option<Fields>)
    requires UniqueKeys(arguments) && PlainArguments(arguments) && Strip(name) != ""
    ensures NormalizePayload(Obj(SerializePayload(name, arguments)), loads) == Ok(Call(Strip(name), arguments))
  {
    var entry := Field("tool", Str(Strip(name)));
    assert forall i :: 0 <= i < |arguments| ==> arguments[i].key != "tool";
    UpdateNew([entry], arguments);
    var payload := SerializePayload(name, arguments);
    assert payload == [entry] + arguments && payload[1..] == arguments;
    assert Get(payload, "tool") == Some(entry.value);
    StripStripped(Strip(name));
    FirstOfShifted(entry, arguments);
    DropNone(arguments, {"tool"});
    assert Drop(payload, {"tool"}) == arguments;
    hide FirstOf, Strip, Drop, Update, SerializePayload, UniqueKeys, CoerceArguments;
  }

  lemma FirstOfShifted(entry: Field, arguments: Fields)
    requires entry.key == "tool"
    ensures FirstOf([entry] + arguments, "arguments", "args", "parameters") ==
            FirstOf(arguments, "arguments", "args", "parameters")
  {
    assert ([entry] + arguments)[1..] == arguments;
  }

  lemma SerializedGet(name: string, arguments: Fields, key: string)
    requires UniqueKeys(arguments)
    ensures Get(SerializePayload(name, arguments), key) ==
      if Has(arguments, key) then Get(arguments, key)
      else if key == "tool" then Some(Str(Strip(name))) else None
  {
    var entry := Field("tool", Str(Strip(name)));
    GetUpdate([entry], arguments, key);
    assert [entry][1..] == [];
  }

  /** The key whose value the reader takes for the wrapped arguments. */
  function WrapKey(arguments: Fields): string {
    if Has(arguments, "arguments") then "arguments" else if Has(arguments, "args") then "args" else "parameters"
  }

  /** No wrapped value can hold itself under the key it came from. */
  lemma CoercedLacksItself(wrapped: Json, key: string, loads: string -> Option<Fields>)
    requires DecodesText(loads) && key != "__arg1"
    ensures Get(CoerceArguments(wrapped, loads), key) != Some(wrapped)
  {
    var c := CoerceArguments(wrapped, loads);
    match wrapped
    case Obj(fields) =>
      if Has(fields, key) {
        var i := ValueInFields(fields, key);
        assert fields[i].value != wrapped;
      }
    case Str(s) =>
    case _ =>
  }

  lemma WrappedNotRecovered(name: string, arguments: Fields, loads: string -> Option<Fields>)
    requires UniqueKeys(arguments) && WellFormed(Obj(arguments)) && DecodesText(loads)
    requires !FirstOf(arguments, "arguments", "args", "parameters").Null?
    ensures !Recovers(name, arguments, loads)
  {
    var wrapped := FirstOf(arguments, "arguments", "args", "parameters");
    var key := WrapKey(arguments);
    WrappedCall(name, arguments, loads);
    var coerced := CoerceArguments(wrapped, loads);
    var rest := Drop(SerializePayload(name, arguments), ENVELOPE);
    CoercedUnique(arguments, key, loads);
    CoercedLacksItself(wrapped, key, loads);
    GetUpdate(rest, coerced, key);
    GetDrop(SerializePayload(name, arguments), ENVELOPE, key);
    hide Get, Has, GetOrNull, FirstOf, Update, Drop, SerializePayload, CoerceArguments, NormalizePayload, UniqueKeys;
    assert Get(Update(rest, coerced), key) != Get(arguments, key);
  }

  /** How a call with a wrapped value is read: its other arguments, updated by what the value holds. */
  lemma WrappedCall(name: string, arguments: Fields, loads: string -> Option<Fields>)
    requires UniqueKeys(arguments) && !FirstOf(arguments, "arguments", "args", "parameters").Null?
    ensures var wrapped := FirstOf(arguments, "arguments", "args", "parameters");
      && Get(arguments, WrapKey(arguments)) == Some(wrapped) && WrapKey(arguments) in ENVELOPE
      && var r := NormalizePayload(Obj(SerializePayload(name, arguments)), loads);
         r.Ok? ==> r.value.arguments ==
                   Update(Drop(SerializePayload(name, arguments), ENVELOPE), CoerceArguments(wrapped, loads))
  {
    var payload := SerializePayload(name, arguments);
    SerializedGet(name, arguments, "tool");
    SerializedGet(name, arguments, "arguments");
    SerializedGet(name, arguments, "args");
    SerializedGet(name, arguments, "parameters");
    hide SerializePayload, Update, Drop, CoerceArguments, UniqueKeys;
    assert FirstOf(payload, "arguments", "args", "parameters") ==
           FirstOf(arguments, "arguments", "args", "parameters");
  }

  lemma CoercedUnique(arguments: Fields, key: string, loads: string -> Option<Fields>)
    requires WellFormed(Obj(arguments)) && DecodesText(loads) && Has(arguments, key)
    ensures UniqueKeys(CoerceArguments(Get(arguments, key).value, loads))
  {
    var i := ValueInFields(arguments, key);
    assert WellFormed(arguments[i].value);
  }

  lemma ToolKeyNotRecovered(name: string, arguments: Fields, loads: string -> Option<Fields>)
    requires UniqueKeys(arguments) && Has(arguments, "tool")
    requires FirstOf(arguments, "arguments", "args", "parameters").Null?
    ensures !Recovers(name, arguments, loads)
  {
    var payload := SerializePayload(name, arguments);
    SerializedGet(name, arguments, "tool");
    SerializedGet(name, arguments, "arguments");
    SerializedGet(name, arguments, "args");
    SerializedGet(name, arguments, "parameters");
    GetDrop(payload, {"tool"}, "tool");
    assert Get(Drop(payload, {"tool"}), "tool") != Get(arguments, "tool");
  }

  /**
   A written call is read back as itself exactly when its stripped name is not blank, its arguments have
   no "tool" key, and the first envelope key they have, if any, is null.
   */
  lemma RecoversIff(name: string, arguments: Fields, loads: string -> Option<Fields>)
    requires WellFormed(Obj(arguments)) && DecodesText(loads)
    ensures Recovers(name, arguments, loads) <==> Strip(name) != "" && PlainArguments(arguments)
  {
    if !FirstOf(arguments, "arguments", "args", "parameters").Null? {
      WrappedNotRecovered(name, arguments, loads);
    } else if Has(arguments, "tool") {
      ToolKeyNotRecovered(name, arguments, loads);
    } else if Strip(name) != "" {
      PlainRecovers(name, arguments, loads);
    } else {
      var r := NormalizePayload(Obj(SerializePayload(name, arguments)), loads);
      assert r.Ok? ==> r.value.tool != "";
    }
  }

  // ---------------------------------------------------------------- calls the models write themselves

  /** The object names its tool under this key, and under no key that would come first. */
  predicate Names(payload: Fields, shape: string, name: string) {
    && Get(payload, shape) == Some(Str(name)) && Strip(name) != ""
    && match shape
       case "tool" => true
       case "tool_name" => !Has(payload, "tool")
       case "name" => !Has(payload, "tool") && !Has(payload, "tool_name")
       case _ => false
  }

  /** The keys that may hold the arguments, the first one present winning. */
  function WrapOrder(shape: string): (r: seq<string>)
    ensures |r| == 3
  {
    if shape == "tool_name" then ["parameters", "arguments", "args"] else ["arguments", "args", "parameters"]
  }

  /** The arguments lie under the i-th of these keys. */
  ghost predicate WrapsAt(payload: Fields, shape: string, i: nat, wrapped: Json) {
    i < 3 && Get(payload, WrapOrder(shape)[i]) == Some(wrapped) &&
    forall j :: 0 <= j < i ==> !Has(payload, WrapOrder(shape)[j])
  }

  lemma WrapsFirst(payload: Fields, shape: string, i: nat, wrapped: Json)
    requires WrapsAt(payload, shape, i, wrapped)
    ensures var order := WrapOrder(shape); FirstOf(payload, order[0], order[1], order[2]) == wrapped
  {
    assert i == 0 || !Has(payload, WrapOrder(shape)[0]);
    assert i < 2 || !Has(payload, WrapOrder(shape)[1]);
  }

  lemma EnvelopeReads(payload: Fields, shape: string, name: string, i: nat, wrapped: Json,
                      loads: string -> Option<Fields>)
    requires Names(payload, shape, name) && shape != "tool" && WrapsAt(payload, shape, i, wrapped) && wrapped != Null
    ensures NormalizePayload(Obj(payload), loads) == Ok(Call(Strip(name), CoerceArguments(wrapped, loads)))
  {
    WrapsFirst(payload, shape, i, wrapped);
    hide CoerceArguments, FirstOf, Strip, Drop, Update;
    assert Has(payload, shape);
  }

  /** A call under "name" or "tool_name" with an object of arguments is that call, whatever other keys it has. */
  lemma EnvelopeRoundTrip(payload: Fields, shape: string, name: string, i: nat, arguments: Fields,
                          loads: string -> Option<Fields>)
    requires Names(payload, shape, name) && shape != "tool" && WrapsAt(payload, shape, i, Obj(arguments))
    ensures NormalizePayload(Obj(payload), loads) == Ok(Call(Strip(name), arguments))
  {
    EnvelopeReads(payload, shape, name, i, Obj(arguments), loads);
    hide NormalizePayload;
  }

  /** So it is when the arguments are a printed object, wherever the decoder inverts the printer on them. */
  lemma PrintedEnvelopeRoundTrip(payload: Fields, shape: string, name: string, i: nat, arguments: Fields,
                                 loads: string -> Option<Fields>)
    requires Names(payload, shape, name) && shape != "tool"
    requires WrapsAt(payload, shape, i, Str(Print(Obj(arguments)))) && loads(Print(Obj(arguments))) == Some(arguments)
    ensures NormalizePayload(Obj(payload), loads) == Ok(Call(Strip(name), arguments))
  {
    EnvelopeReads(payload, shape, name, i, Str(Print(Obj(arguments))), loads);
    PrintedDecodes(arguments, loads);
    hide NormalizePayload;
  }

  lemma PrintedDecodes(arguments: Fields, loads: string -> Option<Fields>)
    requires loads(Print(Obj(arguments))) == Some(arguments)
    ensures CoerceArguments(Str(Print(Obj(arguments))), loads) == arguments
  {
    var text := Print(Obj(arguments));
    assert text[0] == '{' && text[|text| - 1] == '}';
    StripStripped(text);
  }

  /** What str() and the printer make of a value that is no object. */
  function PositionalText(wrapped: Json): string
    requires !wrapped.Null? && !wrapped.Obj?
  {
    match wrapped
    case Str(s) => s
    case Bool(true) => "True"
    case Bool(false) => "False"
    case _ => Print(wrapped)
  }

  /** Any other value is the one positional argument. */
  lemma PositionalEnvelope(payload: Fields, shape: string, name: string, i: nat, wrapped: Json,
                           loads: string -> Option<Fields>)
    requires Names(payload, shape, name) && shape != "tool" && WrapsAt(payload, shape, i, wrapped)
    requires !wrapped.Null? && !wrapped.Obj?
    requires wrapped.Str? ==> Strip(wrapped.s) == "" || Strip(wrapped.s)[0] !in "{[" || loads(Strip(wrapped.s)).None?
    ensures NormalizePayload(Obj(payload), loads) ==
            Ok(Call(Strip(name), [Field("__arg1", Str(PositionalText(wrapped)))]))
  {
    EnvelopeReads(payload, shape, name, i, wrapped, loads);
    hide NormalizePayload, Strip, Print;
  }

  /** Without arguments under such a key, or with null there, the other keys are the arguments. */
  lemma FlatEnvelope(payload: Fields, shape: string, name: string, loads: string -> Option<Fields>, key: string)
    requires Names(payload, shape, name)
    requires (exists i :: WrapsAt(payload, shape, i, Null)) ||
             forall j :: 0 <= j < 3 ==> !Has(payload, WrapOrder(shape)[j])
    ensures var r := NormalizePayload(Obj(payload), loads);
      && r.Ok? && r.value.tool == Strip(name)
      && Get(r.value.arguments, key) ==
           if key == shape || (shape != "tool" && key == "type") then None else Get(payload, key)
  {
    var order := WrapOrder(shape);
    if i :| WrapsAt(payload, shape, i, Null) {
      WrapsFirst(payload, shape, i, Null);
    }
    assert FirstOf(payload, order[0], order[1], order[2]) == Null by {
      if forall j :: 0 <= j < 3 ==> !Has(payload, order[j]) {
        assert !Has(payload, order[0]) && !Has(payload, order[1]) && !Has(payload, order[2]);
      }
    }
    GetDrop(payload, if shape == "tool" then {"tool"} else {shape, "type"}, key);
    hide FirstOf, Strip, Drop, Update, CoerceArguments;
    assert Has(payload, shape);
  }

  /** Under "tool" wrapped arguments are added to the other keys, and win over them. */
  lemma ToolEnvelopeMerges(payload: Fields, name: string, i: nat, arguments: Fields,
                           loads: string -> Option<Fields>, key: string)
    requires Names(payload, "tool", name) && WrapsAt(payload, "tool", i, Obj(arguments)) && UniqueKeys(arguments)
    ensures var r := NormalizePayload(Obj(payload), loads);
      && r.Ok? && r.value.tool == Strip(name)
      && Get(r.value.arguments, key) ==
           if Has(arguments, key) then Get(arguments, key)
           else if key in {"tool", "arguments", "args", "parameters"} then None else Get(payload, key)
  {
    assert key in {"tool", "arguments", "args", "parameters"} <==> key in ENVELOPE;
    hide *;
    ToolReads(payload, name, i, arguments, loads);
    GetUpdate(Drop(payload, ENVELOPE), arguments, key);
    GetDrop(payload, ENVELOPE, key);
  }

  lemma ToolReads(payload: Fields, name: string, i: nat, arguments: Fields, loads: string -> Option<Fields>)
    requires Names(payload, "tool", name) && WrapsAt(payload, "tool", i, Obj(arguments))
    ensures NormalizePayload(Obj(payload), loads) == Ok(Call(Strip(name), Update(Drop(payload, ENVELOPE), arguments)))
  {
    WrapsFirst(payload, "tool", i, Obj(arguments));
    hide FirstOf, Strip, Drop, Update;
    assert Has(payload, "tool");
  }

  /** The first key of these that the object has does not hold a name. */
  predicate Misnames(payload: Fields, shape: string) {
    && Has(payload, shape) && (!GetOrNull(payload, shape).Str? || Strip(GetOrNull(payload, shape).s) == "")
    && match shape
       case "tool" => true
       case "tool_name" => !Has(payload, "tool")
       case "name" => !Has(payload, "tool") && !Has(payload, "tool_name")
       case _ => false
  }

  /** An object that names no tool is refused, and so is one whose name is no text or blank. */
  lemma NamelessRefused(payload: Fields, shape: string, loads: string -> Option<Fields>)
    ensures !Has(payload, "tool") && !Has(payload, "tool_name") && !Has(payload, "name") ==>
      NormalizePayload(Obj(payload), loads) == Err(MissingField)
    ensures Misnames(payload, shape) ==> NormalizePayload(Obj(payload), loads) == Err(InvalidType)
  {
    hide FirstOf, Strip, Drop, Update, CoerceArguments;
  }

  // ---------------------------------------------------------------- from text to calls

  datatype Written = Written(gap: string, name: string, arguments: Fields)

  function Segments(written: seq<Written>): (r: seq<BraceScanner.Segment>)
    ensures |r| == |written|
    ensures forall i :: 0 <= i < |written| ==>
      r[i] == BraceScanner.Segment(written[i].gap, SerializePayload(written[i].name, written[i].arguments))
  {
    if written == [] then []
    else
      [BraceScanner.Segment(written[0].gap, SerializePayload(written[0].name, written[0].arguments))] +
      Segments(written[1..])
  }

  /**
   Calls written between stretches of text free of quotes and braces are all found by the scanner and
   read back as themselves, in order, given a decoder that inverts the printer on them.
   */
  lemma {:induction false} WrittenCallsRecovered(written: seq<Written>, tail: string, loads: string -> Option<Fields>,
                                                 i: nat)
    requires i < |written| && IsPlain(tail)
    requires forall k :: 0 <= k < |written| ==>
      IsPlain(written[k].gap) && UniqueKeys(written[k].arguments) && PlainArguments(written[k].arguments) &&
      Strip(written[k].name) != ""
    requires var payload := SerializePayload(written[i].name, written[i].arguments);
      loads(Print(Obj(payload))) == Some(payload)
    ensures var text := BraceScanner.Render(Segments(written), tail);
      var spans := BraceScanner.Spans(text);
      && |spans| == |written|
      && spans[i].from <= spans[i].to <= |text|
      && var decoded := loads(text[spans[i].from..spans[i].to]);
         && decoded.Some?
         && NormalizePayload(Obj(decoded.value), loads) == Ok(Call(Strip(written[i].name), written[i].arguments))
  {
    var segments := Segments(written);
    var text := BraceScanner.Render(segments, tail);
    BraceScanner.PrintedObjectsFound(segments, tail);
    BraceScanner.SpanTexts(segments, tail, "", i);
    assert "" + text == text;
    PlainRecovers(written[i].name, written[i].arguments, loads);
  }
}
