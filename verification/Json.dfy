/** Plain data as Python's json and yaml loaders hand it over: string-keyed mappings, lists and scalars. */
module Json {
  datatype Value =
    | Null
    | Bool(flag: bool)
    | Int(n: int)
    | Float(x: real)
    | Str(text: string)
    | List(items: seq<Value>)
    | Object(fields: map<string, Value>)

  /** `mapping.get(key)`: an absent key reads as null. */
  function Get(fields: map<string, Value>, key: string): Value {
    if key in fields then fields[key] else Null
  }

  /** Python truthiness, as used by `x or {}`. */
  predicate Truthy(v: Value) {
    match v
    case Null => false
    case Bool(flag) => flag
    case Int(n) => n != 0
    case Float(x) => x != 0.0
    case Str(text) => text != ""
    case List(items) => items != []
    case Object(fields) => fields != map[]
  }

  /** Values Python can put in a set or test against a frozenset; the others raise TypeError. */
  predicate Hashable(v: Value) {
    !v.List? && !v.Object?
  }

  /** `v == 1`: Python's numeric equality reaches across int, float and bool. */
  predicate EqualsOne(v: Value) {
    v == Int(1) || v == Float(1.0) || v == Bool(true)
  }
}
