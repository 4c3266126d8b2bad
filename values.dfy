/** The two trees of the converter: the decoded wire document (type-tagged
    JSON as Go's encoding/json hands it over as `interface{}` values) and the
    plain native values the converter produces. */
module Values {

  datatype Option<+T> = None | Some(value: T)

  /** An IEEE 754 binary64 number, kept opaque: the model never computes with
      floating point, it only moves such values from the parser to the output. */
  datatype Float = Float(bits: bv64)

  /** Go's int64, the type of time.Time.Unix(). */
  type Int64 = x: int | -0x8000_0000_0000_0000 <= x < 0x8000_0000_0000_0000

  /** A decoded JSON value: string, float64, bool, nil, []interface{} or
      map[string]interface{}. */
  datatype Json =
    | JString(str: string)
    | JNumber(num: Float)
    | JBool(b: bool)
    | JNull
    | JArray(items: seq<Json>)
    | JObject(fields: map<string, Json>)

  /** A native value after transformation. `VNull` is Go's untyped nil, the
      only value that `transformedItem != nil` rejects. */
  datatype Value =
    | VString(str: string)
    | VInt(unix: Int64)
    | VFloat(num: Float)
    | VBool(b: bool)
    | VNull
    | VList(elems: seq<Value>)
    | VMap(entries: map<string, Value>)

  /** The `(value, error)` pair of every transformer: `Invalid` stands for a
      non-nil error (InvalidValueError), whatever value accompanies it. */
  datatype Outcome = Ok(value: Value) | Invalid
}
