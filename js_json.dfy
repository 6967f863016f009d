/**
 * The values `JSON.parse` can produce, and the two JavaScript operations the
 * source applies to them: reading a property (`json.summary`) and testing for
 * truthiness (`json.summary || "..."`, `if (json.risks && ...)`).
 */
module JsJson {

  /** A parsed JSON value; an object is a map because `JSON.parse` keeps the last of duplicate keys. */
  datatype Json =
    | JNull
    | JBool(b: bool)
    | JNum(n: real)
    | JStr(s: string)
    | JArr(items: seq<Json>)
    | JObj(fields: map<string, Json>)

  /** The outcome of reading `v.key`: `undefined`, a value, or the TypeError raised on `null`. */
  datatype Prop = Undefined | Defined(value: Json) | ReadOnNull

  /**
   * Property read. Only `null` throws; arrays, strings, numbers and booleans have
   * none of the property names the source reads, so those reads give `undefined`.
   */
  function Get(v: Json, key: string): (p: Prop)
    ensures p.ReadOnNull? <==> v.JNull?
    ensures p.Defined? <==> v.JObj? && key in v.fields
    ensures p.Defined? ==> p.value == v.fields[key]
  {
    match v
    case JNull => ReadOnNull
    case JObj(fields) => if key in fields then Defined(fields[key]) else Undefined
    case _ => Undefined
  }

  /** JavaScript truthiness of a JSON value. */
  predicate Truthy(v: Json) {
    match v
    case JNull => false
    case JBool(b) => b
    case JNum(n) => n != 0.0
    case JStr(s) => s != []
    case JArr(_) => true
    case JObj(_) => true
  }

  /** Truthiness of a property read that did not throw (`undefined` is falsy). */
  predicate PropTruthy(p: Prop) {
    p.Defined? && Truthy(p.value)
  }
}
