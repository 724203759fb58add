/** The structured values produced by decoding JSON text.
    The decoder itself belongs to the Python standard library and is not
    modelled: every operation that decodes takes it as a parameter. */
module Json {
  import opened Wrappers

  /** A decoded JSON document: Python's None, bool, a number (as a real), str, list or dict. */
  datatype Json =
    | JNull
    | JBool(b: bool)
    | JNumber(n: real)
    | JString(s: string)
    | JArray(items: seq<Json>)
    | JObject(fields: map<string, Json>)

  /** The exception `json.loads` raises on malformed text. */
  datatype DecodeError = DecodeError(message: string)

  /** The signature of `json.loads`: text to a value, or a decoding error. */
  type Loads = string -> Result<Json, DecodeError>
}
