/**
 * The values the calculator handles: points, the sin/cos slots, the
 * heterogeneous values of its scratch store and result, and its errors.
 */
module Values {
  import opened PhpArrays

  datatype Option<+T> = None | Some(value: T)

  datatype Result<+T> = Ok(value: T) | Err(error: Error)

  /**
   * A point `[lat, long]` in degrees, or `[lat, long, 'key' => k]` once the
   * tour planner has tagged it with its position.
   */
  datatype Point = Coord(lat: real, long: real) | Keyed(lat: real, long: real, key: int)

  type TaggedPoint = p: Point | p.Keyed? witness Keyed(0.0, 0.0, 0)

  /** A `int|float|string` property: never assigned, a number, or a string. */
  datatype Slot = Uninitialized | Real(r: real) | Str(s: string)

  /** A value held in a PHP array of the calculator. */
  datatype Value =
    | Null
    | Bool(b: bool)
    | Int(i: int)
    | Num(r: real)
    | Text(s: string)
    | Pt(p: Point)
    | List(items: seq<Value>)
    | Dict(m: OMap<string, Value>)
    | Picked(index: int, item: Value)   // the one-entry array `[index => item]`

  /** An int or a float as a real number. */
  function Amount(v: Value): real
    requires v.Num? || v.Int?
  {
    if v.Num? then v.r else v.i as real
  }

  /**
   * Failures. `UnknownUnit` is the exception the unit check throws; the
   * others are the errors PHP raises (and the framework turns into
   * exceptions) when the code reads a missing key or offset, indexes into
   * a value that is not an array, or appends to a scalar. `TypeMismatch`
   * is arithmetic or a comparison on operands that are not numbers (PHP's
   * TypeError, or a loose comparison the model does not interpret), and
   * `DivisionByZero` PHP's DivisionByZeroError, `Unassigned` the Error a
   * typed property raises when it is read before it was ever assigned.
   */
  datatype Error =
    | UnknownUnit(unit: string)
    | UndefinedKey(key: string)
    | UndefinedIndex(index: int)
    | NotAnArray
    | IllegalOffset
    | TypeMismatch
    | DivisionByZero
    | Unassigned

  /** What `$a[$k] ?? $a` yields: the value under the key, or the whole array. */
  datatype Lookup<+V, +W> = Found(value: V) | Whole(all: W)
}
