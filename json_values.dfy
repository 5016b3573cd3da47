/**
  Parsed JSON documents as the validator sees them: the values `json.loads`
  produces, with Python's truthiness and Python's `doc[key]` lookup.
  `JNull` stands for Python's `None`, which is also what the loader hands back
  when a file cannot be parsed.
 */
module JsonValues {

  datatype Option<+T> = None | Some(value: T)

  /**
    `json.loads` keeps integers and floats apart (`1` and `1.0` parse to
    different values, and `json.dumps` writes them back differently), so the
    two kinds of number are two constructors.
   */
  datatype Json =
    | JNull
    | JBool(b: bool)
    | JInt(i: int)
    | JFloat(f: real)
    | JStr(s: string)
    | JArr(items: seq<Json>)
    | JObj(fields: map<string, Json>)

  /** Python's `bool(v)`: None, False, zero and empty containers are false. */
  predicate Truthy(j: Json)
  {
    match j
    case JNull => false
    case JBool(b) => b
    case JInt(i) => i != 0
    case JFloat(f) => f != 0.0
    case JStr(s) => s != ""
    case JArr(a) => a != []
    case JObj(m) => m != map[]
  }

  /**
    Python's `v[key]` with a string key: the member value when `v` is an object
    holding `key`; `None` when the subscript raises (KeyError on an object
    without the key, TypeError on every other kind of value).
   */
  function Lookup(j: Json, key: string): Option<Json>
  {
    match j
    case JObj(m) => if key in m then Some(m[key]) else None
    case _ => None
  }

  /** The falsy values are exactly `None`, `False`, `0`, `0.0`, `""`, `[]` and `{}`. */
  lemma FalsyValues(j: Json)
    ensures !Truthy(j) <==> j in {JNull, JBool(false), JInt(0), JFloat(0.0), JStr(""), JArr([]), JObj(map[])}
  {
  }

  /**
    `v[key]` succeeds exactly on an object holding `key`, and then gives that
    member, a proper part of `v`.
   */
  lemma LookupSucceedsIff(j: Json, key: string)
    ensures Lookup(j, key).Some? <==> j.JObj? && key in j.fields
    ensures Lookup(j, key).Some? ==> Lookup(j, key).value == j.fields[key] && Lookup(j, key).value < j
  {
  }
}
