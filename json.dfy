/** The JSON values `json.load` produces from package.json, as the metadata code
    sees them. */
module Json {

  /** A JSON value. Numbers are kept as integers: the hook only copies them. */
  datatype Json =
    | JNull
    | JBool(b: bool)
    | JNumber(n: int)
    | JString(s: string)
    | JArray(items: seq<Json>)
    | JObject(fields: map<string, Json>)

  /** The name of the Python type `json.load` gives a value, as a `TypeError`
      message names it. */
  function TypeName(j: Json): (name: string)
    ensures name in {"NoneType", "bool", "int", "str", "list", "dict"}
    ensures j.JString? <==> name == "str"
    ensures j.JObject? <==> name == "dict"
  {
    match j
    case JNull => "NoneType"
    case JBool(_) => "bool"
    case JNumber(_) => "int"
    case JString(_) => "str"
    case JArray(_) => "list"
    case JObject(_) => "dict"
  }
}
