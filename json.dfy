/** JSON values as the hub and the dashboard exchange them. `JSON.stringify`
    and `JSON.parse` are not modelled character by character: a `Codec` is any
    pair of functions, and `Lawful` states the two facts the rest of the model
    relies on (parsing what was stringified gives the value back, and the text
    is one non-empty line). */
module Json {
  import opened Common

  /** Object key order is not observable anywhere in the model, so an object is a map. */
  datatype Json =
    | JNull
    | JBool(b: bool)
    | JNum(n: real)
    | JStr(s: string)
    | JArr(items: seq<Json>)
    | JObj(fields: map<string, Json>)

  datatype Codec = Codec(stringify: Json -> string, parse: string -> Option<Json>)

  ghost predicate Lawful(c: Codec) {
    forall v :: c.parse(c.stringify(v)) == Some(v) && '\n' !in c.stringify(v) && c.stringify(v) != ""
  }

  /** JavaScript truthiness of a JSON value (`if (body.stream)`). */
  predicate Truthy(j: Json) {
    match j
    case JNull => false
    case JBool(b) => b
    case JNum(n) => n != 0.0
    case JStr(s) => s != ""
    case _ => true
  }

  /** `obj.k` when `obj` is an object holding `k`. */
  function Field(j: Json, k: string): (r: Option<Json>)
    ensures r.Some? <==> j.JObj? && k in j.fields
  {
    if j.JObj? && k in j.fields then Some(j.fields[k]) else None
  }

  /** A field that a schema requires to be a string (`z.string()`). */
  function StrField(j: Json, k: string): (r: Option<string>)
    ensures r.Some? <==> Field(j, k).Some? && Field(j, k).value.JStr?
    ensures r.Some? ==> Field(j, k) == Some(JStr(r.value))
  {
    match Field(j, k)
    case Some(JStr(s)) => Some(s)
    case _ => None
  }

  /** A field that a schema requires to be a number (`z.number()`). */
  function NumField(j: Json, k: string): (r: Option<real>)
    ensures r.Some? <==> Field(j, k).Some? && Field(j, k).value.JNum?
    ensures r.Some? ==> Field(j, k) == Some(JNum(r.value))
  {
    match Field(j, k)
    case Some(JNum(n)) => Some(n)
    case _ => None
  }
}
