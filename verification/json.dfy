/** The JSON-like values the Python dictionaries of the system hold. */
module Json {

  /** A Python value that can appear in a dictionary exchanged between the agents. */
  datatype Value =
    | Null
    | Bool(b: bool)
    | Int(i: int)
    | Real(r: real)
    | Str(s: string)
    | List(items: seq<Value>)
    | Dict(fields: map<string, Value>)

  /** A Python dictionary with string keys. */
  type Object = map<string, Value>
}
