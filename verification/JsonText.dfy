/** JSON texts of values that are marshalled once, or once more by mistake. */
module JsonText {
  import opened Wrappers

  /** The JSON of a value, or the JSON string that json.Marshal makes of a byte slice
      (the base64 of an inner text). */
  datatype Json<T> = Value(value: T) | Bytes(inner: Json<T>)

  /** `AsWritten` marshals a value and then marshals the resulting bytes once more;
      `Intended` marshals it once. */
  datatype Codec = AsWritten | Intended

  function Encode<T>(codec: Codec, x: T): Json<T> { if codec == AsWritten then Bytes(Value(x)) else Value(x) }

  /** json.Unmarshal into the value's type: a JSON string is not a JSON object. */
  function Decode<T>(text: Json<T>): Option<T> {
    match text
    case Value(x) => Some(x)
    case Bytes(_) => None
  }

  /** The value a text was made from, however often it was wrapped. */
  function Source<T>(text: Json<T>): T {
    match text
    case Value(x) => x
    case Bytes(inner) => Source(inner)
  }
}
