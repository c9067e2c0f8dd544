/** The JSON values that travel in push payloads and request bodies, and the
    two JavaScript operations the code applies to them: property reads and
    the `||` default. */
module Json {
  import opened Wrappers

  /** A parsed JSON value. Numbers are kept as integers: only their
      truthiness matters to the code modelled here. */
  datatype JsonValue =
    | JNull
    | JBool(b: bool)
    | JNumber(n: int)
    | JString(s: string)
    | JArray(items: seq<JsonValue>)
    | JObject(fields: map<string, JsonValue>)

  /** JavaScript truthiness: `null`, `false`, `0` and `""` are falsy. */
  predicate Truthy(v: JsonValue) {
    match v
    case JNull => false
    case JBool(b) => b
    case JNumber(n) => n != 0
    case JString(s) => s != ""
    case JArray(_) => true
    case JObject(_) => true
  }

  /** Reading property `key` of a value that is not `null`: an object's own
      field, and `undefined` (None) for a missing field or a primitive. */
  function Get(v: JsonValue, key: string): Option<JsonValue> {
    if v.JObject? && key in v.fields then Some(v.fields[key]) else None
  }

  /** `a || fallback`, where `a` may be `undefined`. */
  function Or(a: Option<JsonValue>, fallback: JsonValue): JsonValue {
    if a.Some? && Truthy(a.value) then a.value else fallback
  }

  /** The fields of an object literal whose value may be `undefined`:
      `JSON.stringify` leaves such a field out. */
  function Defined(key: string, a: Option<JsonValue>): map<string, JsonValue> {
    if a.Some? then map[key := a.value] else map[]
  }
}
