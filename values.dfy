/** Values shared by every part of the model: an Option and a Result for
    error paths, and the handful of Python values the modelled code inspects. */
module Values {

  datatype Option<+T> = None | Some(value: T)

  datatype Result<+T, +E> = Ok(value: T) | Err(error: E)

  /** A Python value, as far as the feed handler looks inside one. Lists and
      tuples are both `Seq`; a `datetime` is `Time` (microseconds on some
      fixed epoch); any other object (a dict, a pykx table) is `Opaque`. */
  datatype Value =
    | Null
    | Bool(b: bool)
    | Int(i: int)
    | Float(f: real)
    | Str(s: string)
    | Seq(items: seq<Value>)
    | Time(micros: int)
    | Opaque(id: nat)

  /** Python truthiness, as used by `x or []`. */
  predicate Truthy(v: Value)
  {
    match v
    case Null => false
    case Bool(b) => b
    case Int(i) => i != 0
    case Float(f) => f != 0.0
    case Str(s) => s != ""
    case Seq(items) => items != []
    case Time(_) => true
    case Opaque(_) => true
  }

  function Min(a: int, b: int): int { if a <= b then a else b }

  function Max(a: int, b: int): int { if a >= b then a else b }
}
