/** JavaScript values as they travel through the session layer: JSON data read from
    response bodies and from `localStorage`, plus the JavaScript operators the code applies to
    them (truthiness, `?.`, `??`, template-literal conversion). */
module Json {
  import opened Base
  import Text

  /** A JSON value. Numbers are integers in this model. An object keeps its members in
      order; reading a property takes the last member of that name, as `JSON.parse` keeps
      the last of duplicated names. */
  datatype Json =
    | JNull
    | JBool(b: bool)
    | JNum(n: int)
    | JStr(s: string)
    | JArr(items: seq<Json>)
    | JObj(members: seq<Member>)

  datatype Member = Member(name: string, value: Json)

  /** A JavaScript value that may be `undefined` (None). */
  type JsValue = Option<Json>

  /** JavaScript truthiness (`if (v)`, `!v`, `a || b`). */
  predicate Truthy(v: Json) {
    match v
    case JNull => false
    case JBool(b) => b
    case JNum(n) => n != 0
    case JStr(s) => s != ""
    case JArr(_) => true
    case JObj(_) => true
  }

  /** Truthiness of a possibly-undefined value. */
  predicate TruthyJs(v: JsValue) {
    v.Some? && Truthy(v.value)
  }

  /** `null` or `undefined`, the values `??` and `?.` test for. */
  predicate Nullish(v: JsValue) {
    v.None? || v.value.JNull?
  }

  /** `a ?? b`. */
  function Coalesce(a: JsValue, b: Json): (r: Json)
    ensures Nullish(a) ==> r == b
    ensures !Nullish(a) ==> Some(r) == a
  {
    if Nullish(a) then b else a.value
  }

  /** `a || b`. */
  function Or(a: JsValue, b: JsValue): (r: JsValue)
    ensures TruthyJs(a) ==> r == a
    ensures !TruthyJs(a) ==> r == b
  {
    if TruthyJs(a) then a else b
  }

  /** The value of the last member called `name`, as `JSON.parse` keeps the last of
      duplicate keys. */
  function LastMember(ms: seq<Member>, name: string): (r: JsValue)
    ensures r.Some? <==> exists i :: 0 <= i < |ms| && ms[i].name == name
    ensures r.Some? ==> exists i :: && 0 <= i < |ms| && ms[i].name == name && ms[i].value == r.value
                                   && (forall j :: i < j < |ms| ==> ms[j].name != name)
  {
    if |ms| == 0 then None
    else if ms[|ms| - 1].name == name then Some(ms[|ms| - 1].value)
    else
      var r := LastMember(ms[..|ms| - 1], name);
      assert forall i :: 0 <= i < |ms| - 1 ==> ms[..|ms| - 1][i] == ms[i];
      r
  }

  /** `v.name` on a non-nullish value: only objects carry the properties this code reads;
      strings, numbers, booleans and arrays yield `undefined` for them. */
  function Get(v: Json, name: string): JsValue {
    if v.JObj? then LastMember(v.members, name) else None
  }

  /** `v?.name`: `undefined` when `v` is nullish. */
  function GetOpt(v: JsValue, name: string): (r: JsValue)
    ensures Nullish(v) ==> r.None?
  {
    if v.Some? then Get(v.value, name) else None
  }

  /** `String(v)`, as a template literal `${v}` converts a value. Array elements that are
      `null` print as nothing, and an object prints as `[object Object]`. */
  function ToJsString(v: Json): string {
    match v
    case JNull => "null"
    case JBool(b) => if b then "true" else "false"
    case JNum(n) => Text.IntToString(n)
    case JStr(s) => s
    case JArr(items) => JoinItems(items)
    case JObj(_) => "[object Object]"
  }

  /** `Array.prototype.join(',')`. */
  function JoinItems(items: seq<Json>): string
    decreases items, 1
  {
    if |items| == 0 then ""
    else
      var head := if items[0].JNull? then "" else ToJsString(items[0]);
      if |items| == 1 then head else head + "," + JoinItems(items[1..])
  }

  /** A value `JSON.parse` can produce: no object has two members with the same name. */
  predicate Canonical(v: Json) {
    match v
    case JArr(items) => forall i :: 0 <= i < |items| ==> Canonical(items[i])
    case JObj(ms) =>
      && (forall i, j :: 0 <= i < j < |ms| ==> ms[i].name != ms[j].name)
      && (forall i :: 0 <= i < |ms| ==> Canonical(ms[i].value))
    case _ => true
  }

  /** `JSON.parse` and `JSON.stringify`, which this model does not implement: a parser that
      answers None where `JSON.parse` throws, and a printer. */
  datatype Codec = Codec(parse: string -> Option<Json>, stringify: Json -> string)

  /** The two facts about the real JSON functions the session store relies on: printing a
      parseable value never yields the empty string, and parsing what was printed gives the
      value back. */
  ghost predicate Lawful(c: Codec) {
    forall v: Json {:trigger c.stringify(v)} :: Canonical(v) ==>
      c.stringify(v) != "" && c.parse(c.stringify(v)) == Some(v)
  }
}
