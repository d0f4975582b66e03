/**
  The decoded JSON values the server works on. A market record from the
  upstream API is a JSON object; the server reads it as a Python dict, so the
  helpers here give the Python meaning of the few operations it applies:
  truthiness (`not v`), `d.get(key, default)` and use as a number.
 */
module Json {
  import opened Wrappers

  datatype Json =
    | Null
    | Bool(b: bool)
    | Num(x: real)
    | Str(s: string)
    | Arr(items: seq<Json>)
    | Obj(fields: map<string, Json>)

  /** Python truthiness: `not v` is true exactly when `Truthy(v)` is false. */
  predicate Truthy(v: Json) {
    match v
    case Null => false
    case Bool(b) => b
    case Num(x) => x != 0.0
    case Str(s) => |s| > 0
    case Arr(items) => |items| > 0
    case Obj(fields) => |fields| > 0
  }

  /** `d.get(key, default)`: a key that is present yields its value, even when that value is null. */
  function Get(fields: map<string, Json>, key: string, default: Json): Json {
    if key in fields then fields[key] else default
  }

  /**
    The number Python arithmetic and ordering see in a value, or `None` when
    they raise `TypeError`. A Python bool is an int, so `True` reads as 1.
   */
  function AsNumber(v: Json): Option<real> {
    match v
    case Num(x) => Some(x)
    case Bool(b) => Some(if b then 1.0 else 0.0)
    case _ => None
  }
}
