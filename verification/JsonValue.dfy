/** Decoded documents. */
module JsonValue {

  datatype Json =
    | Null
    | Bool(b: bool)
    | Int(n: int)
    | Text(s: string)
    | List(items: seq<Json>)
    | Object(fields: map<string, Json>)

  type Fields = map<string, Json>

  predicate HasNull(v: Json) {
    match v
    case Null => true
    case List(items) => exists i :: 0 <= i < |items| && HasNull(items[i])
    case Object(fields) => exists k :: k in fields && HasNull(fields[k])
    case _ => false
  }
}
