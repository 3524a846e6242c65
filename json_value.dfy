/**
 * JSON documents as serde_json represents them, and the rules by which a
 * struct derived with `#[derive(Deserialize)]` reads its fields from a JSON
 * object: a required field must be present and of the right kind, an
 * `Option<T>` field is `None` when absent or `null` and must otherwise be of
 * the right kind, and keys the struct does not name are ignored.
 */
module JsonValue {
  import opened Wrappers

  datatype Value =
    | Null
    | Bool(b: bool)
    | Int(i: int)       // a number written without fraction or exponent
    | Float(f: real)    // any other number
    | Str(s: string)
    | Array(items: seq<Value>)
    | Object(fields: map<string, Value>)

  type JsonObject = map<string, Value>

  /** Rust's `usize` on a 64-bit target, `i16` and `i64`. */
  const USIZE_LIMIT: int := 0x1_0000_0000_0000_0000
  type Usize = x: int | 0 <= x < USIZE_LIMIT
  type I16 = x: int | -0x8000 <= x < 0x8000
  type I64 = x: int | -0x8000_0000_0000_0000 <= x < 0x8000_0000_0000_0000

  function AsString(v: Value): Option<string> {
    if v.Str? then Some(v.s) else None
  }

  /** A `usize` accepts only integer numbers in its range (a float such as 1.0 is refused). */
  function AsUsize(v: Value): Option<Usize> {
    if v.Int? && 0 <= v.i < USIZE_LIMIT then Some(v.i) else None
  }

  function AsI16(v: Value): Option<I16> {
    if v.Int? && -0x8000 <= v.i < 0x8000 then Some(v.i) else None
  }

  /** An `f64` accepts any number; precision is not modelled. */
  function AsF64(v: Value): Option<real> {
    match v
    case Int(i) => Some(i as real)
    case Float(f) => Some(f)
    case _ => None
  }

  function AsArray(v: Value): Option<seq<Value>> {
    if v.Array? then Some(v.items) else None
  }

  function AsObject(v: Value): Option<JsonObject> {
    if v.Object? then Some(v.fields) else None
  }

  /** A field of type `T`: `None` is a decoding error. */
  function RequiredField<T>(obj: JsonObject, key: string, decode: Value -> Option<T>): Option<T> {
    if key in obj then decode(obj[key]) else None
  }

  /**
   * A field of type `Option<T>`: the outer `None` is a decoding error, `Some(None)`
   * is an absent or null field.
   */
  function OptionalField<T>(obj: JsonObject, key: string, decode: Value -> Option<T>): (r: Option<Option<T>>)
    ensures r == None <==> key in obj && !obj[key].Null? && decode(obj[key]).None?
    ensures r == Some(None) <==> key !in obj || obj[key].Null?
  {
    if key !in obj || obj[key].Null? then Some(None)
    else match decode(obj[key])
      case None => None
      case Some(x) => Some(Some(x))
  }
}
