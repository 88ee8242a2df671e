/**
 The JavaScript values the handlers receive, store and return.

 `Json` is a parsed JSON document. Numbers are integers here: the handlers
 never compute with them, they only test them for truthiness and render them
 with `String()` (a number in a subject or a file name).

 `Value` is what a handler holds after `JSON.parse` of a stored text, and what
 it passes to `JSON.stringify`: either a document, or a string that itself is
 the JSON text of another value. Writing `JSON.stringify(JSON.stringify(doc))`
 stores the text of `Enc(Doc(doc))`; parsing that text once gives back
 `Enc(Doc(doc))`, a string, not the document.
 */
module Json {
  import opened Text

  datatype Json =
    | JNull
    | JBool(b: bool)
    | JNum(n: int)
    | JStr(s: string)
    | JArr(items: seq<Json>)
    | JObj(fields: map<string, Json>)

  datatype Value = Doc(doc: Json) | Enc(inner: Value)

  /** The JavaScript `null`. */
  const Null: Value := Doc(JNull)

  /** An empty JSON array, the `[]` of the handlers. */
  const EmptyArray: Json := JArr([])

  /** How many `JSON.parse` calls are still needed to reach the document. */
  function Depth(v: Value): nat {
    match v
    case Doc(_) => 0
    case Enc(inner) => 1 + Depth(inner)
  }

  /** JavaScript truthiness: `null`, `false`, `0` and `""` are falsy. */
  predicate Truthy(v: Json) {
    match v
    case JNull => false
    case JBool(b) => b
    case JNum(n) => n != 0
    case JStr(s) => s != ""
    case JArr(_) => true
    case JObj(_) => true
  }

  /** Truthiness of a value; the JSON text inside a string is never empty. */
  predicate TruthyValue(v: Value) {
    match v
    case Doc(d) => Truthy(d)
    case Enc(_) => true
  }

  /** `!!body[k]`: a missing field is `undefined`, hence falsy. */
  predicate FieldTruthy(body: map<string, Json>, k: string) {
    k in body && Truthy(body[k])
  }

  /** `Array.isArray(body[k])`. */
  predicate FieldIsArray(body: map<string, Json>, k: string) {
    k in body && body[k].JArr?
  }

  /** The outcome of reading the property `k` of a value. */
  datatype Prop = Defined(v: Json) | Undefined | TypeError

  /** `v[k]` for an own property `k`: reading a property of `null` throws a TypeError;
      strings, numbers, booleans and arrays have none of the names the handlers read. */
  function Property(v: Value, k: string): (r: Prop)
    ensures r.TypeError? <==> v == Null
    ensures r.Defined? <==> v.Doc? && v.doc.JObj? && k in v.doc.fields
    ensures r.Defined? ==> r.v == v.doc.fields[k]
  {
    match v
    case Doc(JObj(m)) => if k in m then Defined(m[k]) else Undefined
    case Doc(JNull) => TypeError
    case _ => Undefined
  }

  /** `v[k] || fallback` once the read has not thrown. */
  function OrElse(p: Prop, fallback: Json): Json
    requires !p.TypeError?
  {
    if p.Defined? && Truthy(p.v) then p.v else fallback
  }

  /** `String(v)`, as a template literal renders a value: arrays are joined with
      commas, `null` elements render empty, objects render as `[object Object]`. */
  function Render(v: Json): (r: string)
    ensures v.JStr? ==> r == v.s
    ensures v.JObj? ==> r == "[object Object]"
    ensures v.JArr? && v.items == [] ==> r == ""
    ensures v.JArr? && |v.items| == 1 ==> r == (if v.items[0] == JNull then "" else Render(v.items[0]))
    decreases v
  {
    match v
    case JNull => "null"
    case JBool(b) => if b then "true" else "false"
    case JNum(n) => IntToString(n)
    case JStr(s) => s
    case JObj(_) => "[object Object]"
    case JArr(items) =>
      Join(seq(|items|, i requires 0 <= i < |items| => if items[i] == JNull then "" else Render(items[i])), ",")
  }

  /** A JSON object from its fields. */
  function Object(fields: map<string, Json>): Value {
    Doc(JObj(fields))
  }
}
