/** Decoded JSON values as the source sees them after `response.json()`,
    with Python's truthiness and `dict.get`. Floating-point numbers are not
    modelled: a number is an integer. */
module JsonValues {

  datatype Json =
    | Null
    | Bool(b: bool)
    | Num(n: int)
    | Str(s: string)
    | List(items: seq<Json>)
    | Object(fields: map<string, Json>)

  /** Python's `bool(v)` for a decoded JSON value: `None`, `False`, `0`, `""`,
      `[]` and `{}` are falsy, every other value is truthy. */
  predicate Truthy(v: Json)
  {
    match v
    case Null => false
    case Bool(b) => b
    case Num(n) => n != 0
    case Str(s) => s != ""
    case List(items) => items != []
    case Object(fields) => fields != map[]
  }

  /** Python's `d.get(key, default)` on a decoded JSON object; a JSON `null`
      and a missing key both read as `None`, which is `Null` here. */
  function Get(d: map<string, Json>, key: string, default: Json): (v: Json)
    ensures key in d ==> v == d[key]
    ensures key !in d ==> v == default
  {
    if key in d then d[key] else default
  }
}
