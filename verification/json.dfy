/** Parsed JSON values, and the JavaScript notions of truthiness and `typeof` on them. */
module Json {
  import opened Wrappers

  datatype Json =
    | JNull
    | JBool(b: bool)
    | JNum(n: real)
    | JStr(s: string)
    | JArr(items: seq<Json>)
    | JObj(fields: map<string, Json>)

  /**
    JavaScript truthiness of a value that may be `undefined` (`None`):
    `undefined`, `null`, `false`, `0` and `""` are falsy.
   */
  predicate Truthy(v: Option<Json>) {
    match v
    case None => false
    case Some(JNull) => false
    case Some(JBool(b)) => b
    case Some(JNum(n)) => n != 0.0
    case Some(JStr(s)) => |s| > 0
    case Some(JArr(_)) => true
    case Some(JObj(_)) => true
  }

  /**
    Reading property `key` of a non-null value: an object's own field, or
    `undefined` for every other value (arrays, strings, numbers and booleans
    have no property of the names used here).
   */
  function Property(v: Json, key: string): (r: Option<Json>)
    requires !v.JNull?
    ensures r.Some? ==> v.JObj? && key in v.fields && r.value == v.fields[key]
    ensures v.JObj? && key in v.fields ==> r.Some?
  {
    match v
    case JObj(fields) => if key in fields then Some(fields[key]) else None
    case _ => None
  }

  /** `typeof p === 'number'` for a property read. */
  predicate IsNumber(p: Option<Json>) {
    p.Some? && p.value.JNum?
  }

  /** `typeof p === 'string'` for a property read. */
  predicate IsString(p: Option<Json>) {
    p.Some? && p.value.JStr?
  }
}
