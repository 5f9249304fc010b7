/**
 * The JSON-safe base types a converted test record is made of (Python's
 * None, bool, int, str, list and dict), and Python's truth test on them.
 * Floating-point numbers are not part of this model.
 */
module JsonValues {

  datatype Json =
    | Null
    | Bool(b: bool)
    | Int(i: int)
    | Str(s: string)
    | Arr(items: seq<Json>)
    | Obj(fields: map<string, Json>)

  /** Python's `bool(value)`: false exactly for None, False, 0 and the empty string, list or dict. */
  function Truthy(j: Json): (t: bool)
    ensures !t <==> j in {Null, Bool(false), Int(0), Str(""), Arr([]), Obj(map[])}
  {
    match j
    case Null => false
    case Bool(b) => b
    case Int(i) => i != 0
    case Str(s) => s != ""
    case Arr(items) => items != []
    case Obj(fields) => fields != map[]
  }
}
