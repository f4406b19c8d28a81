/** JSON values and the members that are read of them. */
module JsonValue {
  import opened Wrappers
  import opened Text

  /** Numbers are integers. */
  datatype Json =
    | Null
    | Bool(flag: bool)
    | Number(value: int)
    | String(text: string)
    | Array(items: seq<Json>)
    | Object(fields: map<string, Json>)

  type JsonObject = map<string, Json>

  function Get(obj: JsonObject, key: string): Option<Json> {
    if key in obj then Some(obj[key]) else None
  }

  function GetString(obj: JsonObject, key: string): Option<string> {
    if key in obj && obj[key].String? then Some(obj[key].text) else None
  }

  function GetObject(obj: JsonObject, key: string): Option<JsonObject> {
    if key in obj && obj[key].Object? then Some(obj[key].fields) else None
  }

  /** `nonempty`. */
  function NonEmpty(text: string): Option<string> {
    if Trim(text) == "" then None else Some(Trim(text))
  }

  function GetText(obj: JsonObject, key: string): Option<string> {
    match GetString(obj, key)
    case None => None
    case Some(text) => NonEmpty(text)
  }
}
