/** JSON values, as Python's decoder presents them. */
module JsonValues {
  datatype Json =
    | Null
    | Bool(flag: bool)
    | Num(number: real)
    | Str(text: string)
    | Arr(items: seq<Json>)
    | Obj(fields: map<string, Json>)

  /** Python's truth value. */
  predicate Truthy(value: Json) {
    match value
    case Null => false
    case Bool(flag) => flag
    case Num(number) => number != 0.0
    case Str(text) => |text| > 0
    case Arr(items) => |items| > 0
    case Obj(fields) => |fields| > 0
  }
}
