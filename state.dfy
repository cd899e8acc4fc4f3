/**
 * The state of one `Geo` calculator, field by field, and the outcome of an
 * operation on it: the state it leaves behind (also when it throws), and
 * either its return value or the error it throws.
 */
module GeoState {
  import opened PhpArrays
  import opened Values
  import opened Kernel
  import opened DataStorage

  /** What the core reads from outside itself: the math library and the configured label prefix. */
  datatype Env = Env(trig: Trig, prefix: Option<string>)

  datatype State = State(
    points: seq<Point>,                           // PointsStorage::$points
    mainPoint: Option<Point>,                     // PointsStorage::$mainPoint (None: the initial `[]`)
    storage: Store,                               // DataStorage::$localStorage
    result: Store,                                // DataStorage::$result
    options: PhpArray<string, seq<string>>,       // DataStorage::$options
    longs: seq<real>,                             // AngleStorage::$longs
    sin: Slot,                                    // AngleStorage::$sin
    cos: Slot,                                    // AngleStorage::$cos
    units: PhpArray<string, real>,                // Distances::$units
    diameter: int,                                // DiametersStorage::$diameter
    appended: seq<int>)                           // Ordering::$pointsAppendedBefore

  /** The state after an operation, and what it returned or threw. */
  datatype Run<+T> = Run(st: State, out: Result<T>)

  /** The fields no distance computation touches. */
  ghost predicate SameConfig(a: State, b: State) {
    a.points == b.points && a.mainPoint == b.mainPoint && a.options == b.options &&
    a.units == b.units && a.diameter == b.diameter && a.appended == b.appended
  }

  /** `Geo::clearResult`: clearStorage, clearPoints, clearStoredResults, clearAngles. */
  function ClearResult(s: State): (r: State)
    ensures r.storage.keys == [] && r.points == [] && r.result.keys == [] && r.longs == []
    ensures r.sin == Str("") && r.cos == Str("")
    ensures r.mainPoint == s.mainPoint && r.options == s.options && r.units == s.units
    ensures r.diameter == s.diameter && r.appended == s.appended
  {
    s.(storage := Empty(), points := [], result := Empty(), longs := [], sin := Str(""), cos := Str(""))
  }

  /** Clearing twice is clearing once. */
  lemma ClearResultIdempotent(s: State)
    ensures ClearResult(ClearResult(s)) == ClearResult(s)
  {
  }
}
