/** Already-parsed JSON values, as the resolver reads them from record files. */
module Json {

  /** A JSON document. Objects are maps: the model does not keep key order. */
  datatype Json =
    | JNull
    | JBool(b: bool)
    | JNum(n: real)
    | JStr(s: string)
    | JArr(items: seq<Json>)
    | JObj(fields: map<string, Json>)

  /** The JSON values Python's `bool()` treats as false once parsed:
      `None`, `False`, zero, the empty string, the empty list and the empty dict. */
  const FalsyValues: set<Json> :=
    {JNull, JBool(false), JNum(0.0), JStr(""), JArr([]), JObj(map[])}

  /** Python truthiness of a parsed JSON value, as used by `if record:`. */
  predicate Truthy(j: Json)
    ensures Truthy(j) <==> j !in FalsyValues
  {
    match j
    case JNull => false
    case JBool(b) => b
    case JNum(n) => n != 0.0
    case JStr(s) => |s| > 0
    case JArr(items) => |items| > 0
    case JObj(fields) => |fields| > 0
  }

  /** Python's `obj.get(key)` on a dict: a missing key reads as `None`, serialised as `null`. */
  function Get(fields: map<string, Json>, key: string): (v: Json)
    ensures key in fields ==> v == fields[key]
    ensures key !in fields ==> v == JNull
  {
    if key in fields then fields[key] else JNull
  }
}
