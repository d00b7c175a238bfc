/**
 * Messages on the wire.  A ZeroMQ multipart message is a sequence of frames,
 * each a byte string.  Payloads are JSON text; the JSON library itself is not
 * modelled, it is a `Codec` passed in by the caller: `decode` stands for
 * `json.loads(frame.decode('utf-8'))` and `encode` for
 * `json.dumps(value).encode('utf-8')`.
 */
module Wire {
  import opened Dicts

  newtype byte = x: int | 0 <= x < 256

  type Frame = seq<byte>

  /** JSON values as `json.loads` returns them (numbers restricted to integers;
      objects keep their member order). */
  datatype Json =
    | JNull
    | JBool(b: bool)
    | JInt(i: int)
    | JStr(s: string)
    | JArr(items: seq<Json>)
    | JObj(members: seq<Entry<string, Json>>)

  /** The three outcomes of decoding a frame: a JSON value, text that is not
      JSON (`json.JSONDecodeError`), or bytes that are not UTF-8
      (`UnicodeDecodeError`, whose message is `detail`). */
  datatype Decoded = Parsed(value: Json) | NotJson | NotText(detail: string)

  datatype Codec = Codec(decode: Frame -> Decoded, encode: Json -> Frame)

  /** A codec whose decoder reads every error object its encoder writes as
      JSON (what `json.loads(json.dumps(...))` does for `{"error": msg}`). */
  ghost predicate ReadsErrors(c: Codec)
  {
    forall msg: string :: c.decode(c.encode(ErrorObject(msg))).Parsed?
  }

  /** Python truthiness of a decoded JSON value (`if json_data:`). */
  predicate Truthy(j: Json)
  {
    match j
    case JNull => false
    case JBool(b) => b
    case JInt(i) => i != 0
    case JStr(s) => s != ""
    case JArr(items) => items != []
    case JObj(members) => members != []
  }

  /** The Python type name that `AttributeError` and `TypeError` messages show. */
  function TypeName(j: Json): string
  {
    match j
    case JNull => "NoneType"
    case JBool(_) => "bool"
    case JInt(_) => "int"
    case JStr(_) => "str"
    case JArr(_) => "list"
    case JObj(_) => "dict"
  }

  /** The payload `{"error": msg}` used by every component for failures. */
  function ErrorObject(msg: string): Json
  {
    JObj([Entry("error", JStr(msg))])
  }

  /** `b""`, the empty delimiter frame. */
  const Empty: Frame := []

  /** `b"READY"`, the worker registration signal. */
  const Ready: Frame := [82, 69, 65, 68, 89]

  /** A member of a JSON object, when the value is an object (`d.get(key)`). */
  function Member(j: Json, key: string): Option<Json>
  {
    if j.JObj? then Get(j.members, key) else None
  }
}
