/**
 JSON values and their text as json.dumps(..., ensure_ascii=False) prints it; strings follow section 7 of RFC 8259.
 */
module JsonText {
  import opened Common

  predicate IsPlain(s: string) {
    forall i :: 0 <= i < |s| ==> s[i] != '"' && s[i] != '{' && s[i] != '}'
  }

  /** The text of a number: it holds neither quotes nor braces. */
  type NumberText = s: string | IsPlain(s) witness "0"

  datatype Json =
    | Null
    | Bool(b: bool)
    | Number(text: NumberText)
    | Str(s: string)
    | Arr(items: seq<Json>)
    | Obj(fields: seq<Field>)

  datatype Field = Field(key: string, value: Json)

  const HEX_DIGITS := "0123456789abcdef"

  function EscapeChar(c: char): string {
    if c == '"' then "\\\""
    else if c == '\\' then "\\\\"
    else if c == '\n' then "\\n"
    else if c == '\r' then "\\r"
    else if c == '\t' then "\\t"
    else if c == 8 as char then "\\b"
    else if c == 12 as char then "\\f"
    else if c < 16 as char then "\\u000" + [HEX_DIGITS[c as int]]
    else if c < 32 as char then "\\u001" + [HEX_DIGITS[c as int - 16]]
    else [c]
  }

  function Escape(s: string): string {
    if s == "" then "" else EscapeChar(s[0]) + Escape(s[1..])
  }

  function Quote(s: string): string {
    "\"" + Escape(s) + "\""
  }

  function Print(j: Json): string
    decreases j, 1
  {
    match j
    case Null => "null"
    case Bool(b) => if b then "true" else "false"
    case Number(text) => text
    case Str(s) => Quote(s)
    case Arr(items) => "[" + PrintItems(items) + "]"
    case Obj(fields) => "{" + PrintFields(fields) + "}"
  }

  function PrintItems(items: seq<Json>): string
    decreases items, 0
  {
    if items == [] then ""
    else Print(items[0]) + if |items| == 1 then "" else ", " + PrintItems(items[1..])
  }

  function PrintFields(fields: seq<Field>): string
    decreases fields, 0
  {
    if fields == [] then ""
    else
      Quote(fields[0].key) + ": " + Print(fields[0].value) +
      if |fields| == 1 then "" else ", " + PrintFields(fields[1..])
  }

  // ---------------------------------------------------------------- lookup

  predicate Has(fields: seq<Field>, key: string) {
    exists i :: 0 <= i < |fields| && fields[i].key == key
  }

  function Get(fields: seq<Field>, key: string): (r: Option<Json>)
    ensures r.Some? <==> Has(fields, key)
  {
    if fields == [] then None
    else if fields[0].key == key then Some(fields[0].value)
    else
      var rest := Get(fields[1..], key);
      assert Has(fields[1..], key) ==> Has(fields, key);
      assert Has(fields, key) ==> Has(fields[1..], key) by {
        if Has(fields, key) {
          var i :| 0 <= i < |fields| && fields[i].key == key;
          assert fields[1..][i - 1].key == key;
        }
      }
      rest
  }

  /** d.get(key) */
  function GetOrNull(fields: seq<Field>, key: string): Json {
    match Get(fields, key) case Some(v) => v case None => Null
  }

  lemma {:induction false} ValueInFields(fields: seq<Field>, key: string) returns (i: nat)
    requires Has(fields, key)
    ensures i < |fields| && Get(fields, key) == Some(fields[i].value)
  {
    if fields[0].key == key {
      i := 0;
    } else {
      assert Get(fields, key) == Get(fields[1..], key);
      i := ValueInFields(fields[1..], key);
      i := i + 1;
    }
  }

  lemma FirstField(f: Field, rest: seq<Field>, key: string)
    ensures Has([f] + rest, key) <==> f.key == key || Has(rest, key)
    ensures GetOrNull([f] + rest, key) == if f.key == key then f.value else GetOrNull(rest, key)
  {
    assert ([f] + rest)[1..] == rest;
    assert Get([f] + rest, key) == if f.key == key then Some(f.value) else Get(rest, key);
  }
}
