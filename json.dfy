/** The values `json.loads` and LangChain's JSON output parser produce. */
module Json {

  /** A parsed JSON document (RFC 8259). Numbers keep their literal text,
      since nothing here computes with them; an object is a Python `dict`,
      so a repeated key keeps its last value and keys are unordered. */
  datatype Json =
    | JNull
    | JBool(b: bool)
    | JNumber(literal: string)
    | JString(s: string)
    | JArray(items: seq<Json>)
    | JObject(fields: map<string, Json>)
}
