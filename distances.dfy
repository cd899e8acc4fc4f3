/**
 * The distance engine: for each adjacent pair of points, the sin and cos
 * products of the latitudes, the recorded longitudes, the arc in degrees,
 * miles, and the distance in each requested unit, snapshotted into the result
 * under the pair's label. Each function takes the state before the step and
 * returns the state after it, also when the step throws.
 */
module Distances {
  import opened PhpArrays
  import opened Values
  import opened Kernel
  import opened Formatter
  import opened DataStorage
  import opened GeoState

  /** The unit table of a new calculator: factors from statute miles. */
  function DefaultUnits(): (r: PhpArray<string, real>)
    ensures r.keys == ["mile", "km", "m", "cm", "mm"]
    ensures r.vals == map["mile" := 1.0, "km" := 1.609344, "m" := 1609.344, "cm" := 160.9344, "mm" := 1609344.0]
  {
    var km := 1.609344;
    OMap(["mile", "km", "m", "cm", "mm"],
      map["mile" := 1.0, "km" := km, "m" := km * 1000.0, "cm" := km * 100.0, "mm" := km * 1000.0 * 1000.0])
  }

  /**
   * The default `cm` factor is a hundred kilometres' worth, a tenth of the
   * metres: a distance asked for in `cm` comes out in hectometres.
   */
  lemma CentimetresAsWritten()
    ensures DefaultUnits().vals["cm"] == DefaultUnits().vals["km"] * 100.0
    ensures DefaultUnits().vals["cm"] * 10.0 == DefaultUnits().vals["m"]
  {
  }

  /**
   * The default table with the evidently intended `cm` factor: a mile is
   * 160934.4 centimetres, a hundred times its metres.
   */
  function MetricUnits(): (r: PhpArray<string, real>)
    ensures r.keys == ["mile", "km", "m", "cm", "mm"] && forall u :: u in r.vals <==> u in r.keys
    ensures r.vals["m"] == r.vals["km"] * 1000.0 && r.vals["cm"] == r.vals["m"] * 100.0 && r.vals["mm"] == r.vals["cm"] * 10.0
    ensures forall u :: u in r.vals && u != "cm" ==> r.vals[u] == DefaultUnits().vals[u]
  {
    DefaultUnits().(vals := DefaultUnits().vals["cm" := 1.609344 * 100000.0])
  }

  /**
   * `resolveUnits` in the constructor: the configured table when the
   * configuration has a non-empty one, the default table otherwise.
   */
  function ResolveUnits(config: Option<PhpArray<string, real>>): (r: PhpArray<string, real>)
    ensures config.Some? && config.value.keys != [] ==> r == config.value
    ensures config.None? || config.value.keys == [] ==> r.keys == ["mile", "km", "m", "cm", "mm"]
  {
    if config.Some? && |config.value.keys| > 0 then config.value else DefaultUnits()
  }

  /** A new calculator: nothing stored, no points, no main point, sin and cos never set, diameter 0. */
  function Initial(config: Option<PhpArray<string, real>>): (r: State)
    ensures r.points == [] && r.mainPoint.None? && r.storage.keys == [] && r.result.keys == []
    ensures r.options.keys == [] && r.longs == [] && r.sin.Uninitialized? && r.cos.Uninitialized?
    ensures r.units == ResolveUnits(config) && r.diameter == 0 && r.appended == []
  {
    State([], None, Empty(), Empty(), Empty(), [], Uninitialized, Uninitialized, ResolveUnits(config), 0, [])
  }

  /**
   * The units a distance is asked for: the `units` option when `getOptions()`
   * is the whole map, holds `units`, and that list is not empty; none (so the
   * default, mile) otherwise.
   */
  function RequestedUnits(options: PhpArray<string, seq<string>>): (r: Option<seq<string>>)
    ensures r.Some? <==> OptionsLookup(options, "").Whole? && "units" in options.vals && options.vals["units"] != []
    ensures r.Some? ==> r.value == options.vals["units"]
  {
    match OptionsLookup(options, "")
    case Found(_) => None
    case Whole(all) =>
      if "units" in all.vals && |all.vals["units"]| > 0 then Some(all.vals["units"]) else None
  }

  /** The unit keys a distance is stored under. */
  function UnitsOf(options: PhpArray<string, seq<string>>): seq<string> {
    match RequestedUnits(options)
    case Some(us) => us
    case None => ["mile"]
  }

  /** `checkIfUnitExists`: nothing when the table has the unit, the exception otherwise. */
  function CheckIfUnitExists(units: PhpArray<string, real>, unit: string): (r: Option<Error>)
    ensures r.None? <==> unit in units.vals
    ensures r.Some? ==> r.value == UnknownUnit(unit)
  {
    if unit in units.vals then None else Some(UnknownUnit(unit))
  }

  /** A distance in a unit: the distance in miles times the unit's factor. */
  function InUnit(miles: real, factor: real): real {
    miles * factor
  }

  /** A store after a loop of writes, and the exception that stopped the loop, if one did. */
  datatype Written = Written(store: Store, failure: Option<Error>)

  /**
   * The loop over requested units, from the i-th on: check that the table
   * (given by its factors) has the unit, then store the distance in it.
   */
  function StoreUnitsFrom(a: Store, factors: map<string, real>, us: seq<string>, i: nat, distance: real): (r: Written)
    requires i <= |us|
    ensures r.failure.None? <==> forall k :: i <= k < |us| ==> us[k] in factors
    ensures r.failure.Some? ==> r.failure.value.UnknownUnit? && r.failure.value.unit !in factors
    decreases |us| - i
  {
    if i == |us| then Written(a, None)
    else if us[i] !in factors then Written(a, Some(UnknownUnit(us[i])))
    else StoreUnitsFrom(Put(a, us[i], Num(InUnit(distance, factors[us[i]]))), factors, us, i + 1, distance)
  }

  /** The unit part of `resolveDistanceWithUnits`: every requested unit, or mile when none is requested. */
  function StoreUnits(s: State, distance: real): (r: Run<()>)
    ensures r.st == s.(storage := r.st.storage)
  {
    var factors := s.units.vals;
    var w :=
      match RequestedUnits(s.options)
      case Some(us) => StoreUnitsFrom(s.storage, factors, us, 0, distance)
      case None =>
        if "mile" in factors then Written(Put(s.storage, "mile", Num(InUnit(distance, factors["mile"]))), None)
        else Written(s.storage, Some(UndefinedKey("mile")));
    Run(s.(storage := w.store), if w.failure.Some? then Err(w.failure.value) else Ok(()))
  }

  /** The keys a pair computation uses on its way and removes before the snapshot. */
  const ScratchKeys: seq<string> := ["position", "distance_key", "distance", "rad2deg", "correctDistanceValue"]

  /**
   * `resolveDistanceWithUnits`: store the distance (miles) in units, drop the
   * scratch keys, return `getFromStorage()`.
   */
  function ResolveDistanceWithUnits(s: State, distance: real): (r: Run<Value>)
    ensures r.st == s.(storage := r.st.storage)
  {
    var stored := StoreUnits(s, distance);
    if stored.out.Err? then Run(stored.st, Err(stored.out.error))
    else
      var t := stored.st.(storage := RemoveKeys(stored.st.storage, ScratchKeys));
      Run(t, Ok(AsValue(Coalesce(t.storage, ""))))
  }

  /** The miles between the latitudes of p and q for a longitude difference. */
  function PairMiles(t: Trig, p: Point, q: Point, dLong: real): real {
    CorrectDistanceValue(Rad2Deg(CentralAngle(t, GetAngle(t, p.lat, q.lat, SinFn), GetAngle(t, p.lat, q.lat, CosFn), dLong)))
  }

  /** The arc in radians from the stored sin and cos products and the first two recorded longitudes. */
  function Arc(env: Env, s: State): real
    requires s.sin.Real? && s.cos.Real? && |s.longs| >= 2
  {
    CentralAngle(env.trig, s.sin.r, s.cos.r, s.longs[0] - s.longs[1])
  }

  /**
   * `calcDistance`: the arc, kept as `distance`, `rad2deg` and
   * `correctDistanceValue`, then expressed in units.
   */
  function CalcDistance(env: Env, s: State): (r: Run<Value>)
    requires s.sin.Real? && s.cos.Real? && |s.longs| >= 2
    ensures SameConfig(s, r.st) && r.st.longs == s.longs && r.st.result == s.result
  {
    var arc := Arc(env, s);
    var miles := CorrectDistanceValue(Rad2Deg(arc));
    var stored := Put(Put(Put(s.storage, "distance", Num(arc)), "rad2deg", Num(Rad2Deg(arc))), "correctDistanceValue", Num(miles));
    ResolveDistanceWithUnits(s.(storage := stored), miles)
  }

  /**
   * The loop body of `getDistance` up to `calcDistance`, for the pair at i
   * and i + 1: the sin and cos products, the position, both longitudes, the
   * result key.
   */
  function PairSetup(env: Env, s: State, i: nat): (r: State)
    requires i + 1 < |s.points|
    ensures r.sin.Real? && r.cos.Real? && |r.longs| >= 2
    ensures SameConfig(s, r) && r.result == s.result
  {
    var p, q := s.points[i], s.points[i + 1];
    var s1 := s.(sin := Real(GetAngle(env.trig, p.lat, q.lat, SinFn)), cos := Real(GetAngle(env.trig, p.lat, q.lat, CosFn)));
    var s2 := s1.(storage := Put(s1.storage, "position", Text(Position(i))));
    var s3 := s2.(longs := s2.longs + [p.long, q.long]);
    s3.(storage := Put(s3.storage, "distance_key", Text(FormatDistanceKey(env.prefix, Position(i)))))
  }

  /** One pass of the loop body of `getDistance`: the distance of the pair, merged into the result under its key. */
  function PairStep(env: Env, s: State, i: nat): (r: Run<()>)
    requires i + 1 < |s.points|
    ensures SameConfig(s, r.st)
  {
    var c := CalcDistance(env, PairSetup(env, s, i));
    if c.out.Err? then Run(c.st, Err(c.out.error))
    else Run(c.st.(result := Merge(c.st.result, Single(FormatDistanceKey(env.prefix, Position(i)), c.out.value))), Ok(()))
  }

  /** The loop of `getDistance` from index i on. */
  function DistanceFrom(env: Env, s: State, i: nat): (r: Run<()>)
    ensures SameConfig(s, r.st)
    decreases |s.points| - i
  {
    if i >= |s.points| then Run(s, Ok(()))
    else if i + 1 < |s.points| then
      var t := PairStep(env, s, i);
      if t.out.Err? then t else DistanceFrom(env, t.st, i + 1)
    else DistanceFrom(env, s, i + 1)
  }

  /** `getDistance()`: the pair loop, then the whole result. */
  function GetDistance(env: Env, s: State): (r: Run<Store>)
    ensures SameConfig(s, r.st)
    ensures r.out.Ok? ==> r.out.value == r.st.result
  {
    var d := DistanceFrom(env, s, 0);
    if d.out.Err? then Run(d.st, Err(d.out.error)) else Run(d.st, Ok(d.st.result))
  }

  /**
   * A result callback `fn ($r) => $r->first()[$name]`: the named entry of the
   * first value of the result. Reading a key an array lacks, or a key of a
   * value that is not an array (what `first()` gives on an empty result
   * included), fails.
   */
  function FirstField(res: Store, name: string): (r: Result<Value>)
    ensures r.Ok? <==> |res.keys| > 0 && FirstValue(res).Dict? && name in FirstValue(res).m.vals
    ensures r.Ok? ==> r.value == FirstValue(res).m.vals[name]
  {
    if |res.keys| == 0 then Err(NotAnArray)
    else match FirstValue(res)
      case Dict(m) => if name in m.vals then Ok(m.vals[name]) else Err(UndefinedKey(name))
      case List(_) => Err(UndefinedKey(name))
      case Pt(_) => Err(UndefinedKey(name))
      case Picked(_, _) => Err(UndefinedKey(name))
      case _ => Err(NotAnArray)
  }

  /** The points as the PHP list of `[lat, long]` arrays kept in the store. */
  function PointValues(points: seq<Point>): (r: seq<Value>)
    ensures |r| == |points| && forall i :: 0 <= i < |points| ==> r[i] == Pt(points[i])
  {
    seq(|points|, i requires 0 <= i < |points| => Pt(points[i]))
  }

  /**
   * `resolveEachDistanceToMainPoint`: keep the points in the store, start an
   * empty point list, note the unit table's first key, then the distance of
   * each point to the main point.
   */
  function ResolveEachDistanceToMainPoint(env: Env, s: State): (r: Run<()>)
    ensures r.st.mainPoint == s.mainPoint && r.st.options == s.options && r.st.units == s.units
    ensures r.st.diameter == s.diameter && r.st.appended == s.appended
    ensures s.mainPoint.None? && |s.points| > 0 ==> r.out == Err(UndefinedIndex(0))
  {
    var s1 := s.(storage := Put(s.storage, "points", List(PointValues(s.points))));
    var s2 := s1.(points := []);
    var unit := if |s2.units.keys| > 0 then Text(s2.units.keys[0]) else Null;
    var s3 := s2.(storage := Put(s2.storage, "unit", unit));
    EachFrom(env, s3, s.points, 0)
  }

  /** The callback of the per-point distances: the first snapshot's entry under the stored `unit`. */
  function UnitField(s: State, res: Store): Result<Value> {
    match Coalesce(s.storage, "unit")
    case Found(Text(name)) => FirstField(res, name)
    case _ => Err(IllegalOffset)
  }

  /**
   * The per-point loop of `resolveEachDistanceToMainPoint`, from the i-th
   * point on. Without a main point, its place among the points is the empty
   * array, and the first pair's read of its latitude fails.
   */
  function EachFrom(env: Env, s: State, pts: seq<Point>, i: nat): (r: Run<()>)
    requires i <= |pts|
    ensures r.st.mainPoint == s.mainPoint && r.st.options == s.options && r.st.units == s.units
    ensures r.st.diameter == s.diameter && r.st.appended == s.appended
    ensures s.mainPoint.None? && i < |pts| ==> r == Run(s, Err(UndefinedIndex(0)))
    decreases |pts| - i
  {
    if i == |pts| then Run(s, Ok(()))
    else if s.mainPoint.None? then Run(s, Err(UndefinedIndex(0)))
    else
      var s1 := s.(points := s.points + [s.mainPoint.value, pts[i]]);
      var d := GetDistance(env, s1);
      if d.out.Err? then Run(d.st, Err(d.out.error))
      else match UnitField(d.st, d.out.value)
        case Err(e) => Run(d.st, Err(e))
        case Ok(v) =>
          match Append(d.st.storage, "distancesEachPointToMainPoint", v)
          case Err(e) => Run(d.st, Err(e))
          case Ok(st) => EachFrom(env, d.st.(storage := st, points := []), pts, i + 1)
  }
}
