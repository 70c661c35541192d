/** JSON documents as Python's `json` module loads them, and Python's
    truthiness of the loaded values. */
module JsonValue {
  import opened Common

  datatype Json =
    | JNull
    | JBool(b: bool)
    | JInt(i: int)
    | JFloat(f: real)
    | JStr(s: string)
    | JList(items: seq<Json>)
    | JObj(fields: map<string, Json>)

  /** Python's `bool(v)`: `None`, `False`, zero, and empty strings,
      lists and dicts are false; everything else is true. */
  predicate Truthy(v: Json) {
    match v
    case JNull => false
    case JBool(b) => b
    case JInt(i) => i != 0
    case JFloat(f) => f != 0.0
    case JStr(s) => s != []
    case JList(items) => items != []
    case JObj(fields) => fields != map[]
  }

  /** A value a database cell can hold: no list and no object. */
  predicate Scalar(v: Json) {
    !v.JList? && !v.JObj?
  }

  /** Python's `str()` of a scalar. The text of a float is Python's
      shortest round-trip `repr`, which is supplied as `reprFloat`. */
  function Str(v: Json, reprFloat: real -> string): (r: string)
    requires Scalar(v)
    ensures v.JStr? ==> r == v.s
    ensures v.JInt? ==> r == IntToString(v.i)
    ensures v.JNull? ==> r == "None"
  {
    match v
    case JNull => "None"
    case JBool(b) => if b then "True" else "False"
    case JInt(i) => IntToString(i)
    case JFloat(f) => reprFloat(f)
    case JStr(s) => s
  }

  /** A database row as a dict (`dict(row)`), or `{}` for a missing one. */
  type Record = map<string, Json>

  /** `d.get(k, default)`. */
  function Get(d: Record, k: string, default: Json): (v: Json)
    ensures k in d ==> v == d[k]
    ensures k !in d ==> v == default
  {
    if k in d then d[k] else default
  }
}
