/** The values that flow through the wire engine: what a JSON body decodes to,
    what a decoder produces and what a backend hands to a serializer.
    A Python `dict` becomes `VDict` (keys are strings), a `list` `VList`. */
module Values {

  datatype Value =
    | VUndefined                  // the decoders' sentinel for "absent from the request"
    | VNone
    | VBool(b: bool)
    | VInt(i: int)
    | VFloat(repr: string)        // a Python float, kept as its decimal text
    | VStr(s: string)
    | VBytes(bytes: seq<bv8>)
    | VTimestamp(epoch: int)      // a datetime, kept as a point in time
    | VList(items: seq<Value>)
    | VDict(fields: map<string, Value>)

  /** The outcome of decoding one shape: a value, which may be the
      `VUndefined` sentinel, or an exception, named by its class. */
  datatype Decoded = Ok(v: Value) | Raised(err: string)

  /** Python truthiness (`if value:`). */
  predicate Truthy(v: Value)
  {
    match v
    case VUndefined => true
    case VNone => false
    case VBool(b) => b
    case VInt(i) => i != 0
    case VFloat(r) => r != "0.0"
    case VStr(s) => s != ""
    case VBytes(bs) => bs != []
    case VTimestamp(_) => true
    case VList(items) => items != []
    case VDict(fields) => fields != map[]
  }

  /** `d.get(key)` on a value that is a dict; `None` otherwise and when the key is missing. */
  function Lookup(v: Value, key: string): Value
  {
    if v.VDict? && key in v.fields then v.fields[key] else VNone
  }

  /** The foreign codecs the engine calls but does not define: base64
      (section 4 of RFC 4648), timestamp parsing and formatting, percent
      encoding (section 2.1 of RFC 3986) and unquoting. `jsonValueHeader`
      is what a JSON-value header goes through: base64 decoding, UTF-8
      decoding and `json.loads`, raising where any of the three does. */
  datatype Codecs = Codecs(
    b64decode: string -> seq<bv8>,
    b64encode: seq<bv8> -> string,
    parseTimestamp: string -> int,
    formatTimestamp: int -> string,
    percentEncode: (string, string) -> string,
    unquote: string -> string,
    jsonValueHeader: string -> Decoded)
}
