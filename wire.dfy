/** The wire-level vocabulary shared by the protocol layer: raw bytes, errors and
    decoded JSON objects. */
module Wire {

  /** A Go `byte`. */
  newtype byte = x: int | 0 <= x < 256

  /** A Go `[]byte` / `json.RawMessage`. */
  type Bytes = seq<byte>

  /** A Go `error` value; `nil` is modelled by `None` or `Success` around it. */
  type Error = string

  /** The four bytes of the JSON literal `null`. */
  const Null: Bytes := [110, 117, 108, 108]

  /** A JSON scalar as the encoder writes it for the protocol's typed fields. */
  datatype Value = Str(s: string) | Num(n: real) | Int(i: int) | Bool(b: bool)

  /** A JSON object, keyed by field name. */
  type Object = map<string, Value>
}
