/**
 * Two features built on the store: the centre of the points (`getCenter`),
 * averaged as unit vectors — each point adds its x, y and z to accumulators,
 * which are then divided by the number of points and turned back into a
 * latitude and longitude — and whether a point is outside the circle around
 * the main point (`isInArea`).
 */
module Areas {
  import opened PhpArrays
  import opened Values
  import opened Kernel
  import opened DataStorage
  import opened GeoState
  import opened Distances
  import opened DistanceLaws
  import opened DistanceLoop

  /** `$deg * pi() / 180`, as `getCenter` converts a coordinate. */
  function Radians(deg: real): real {
    deg * Pi / 180.0
  }

  /** `$rad * 180 / pi()`, as `getCenter` converts its answer back. */
  function Degrees(rad: real): real {
    rad * 180.0 / Pi
  }

  /** Converting to radians and back gives the coordinate again. */
  lemma DegreesOfRadians(deg: real)
    ensures Degrees(Radians(deg)) == deg
  {
  }

  /** A product of two reals. */
  function Times(a: real, b: real): real {
    a * b
  }

  /** The accumulators, in the order they are divided. */
  const Dimensions: seq<string> := ["x", "y", "z"]

  /** What one point adds to the accumulator d: `cos(lat) * cos(long)` to x, `cos(lat) * sin(long)` to y, `sin(lat)` to z. */
  function Part(t: Trig, d: string, p: Point): real
    requires d in Dimensions
  {
    if d == "x" then Times(t.cos(Radians(p.lat)), t.cos(Radians(p.long)))
    else if d == "y" then Times(t.cos(Radians(p.lat)), t.sin(Radians(p.long)))
    else t.sin(Radians(p.lat))
  }

  /** The sum of the contributions of the points to the accumulator d. */
  function Sum(t: Trig, d: string, pts: seq<Point>): real
    requires d in Dimensions
    decreases |pts|
  {
    if |pts| == 0 then 0.0 else Sum(t, d, pts[..|pts| - 1]) + Part(t, d, pts[|pts| - 1])
  }

  /** The store holds a number under the key. */
  predicate NumberAt(a: Store, k: string) {
    k in a.vals && a.vals[k].Num?
  }

  /** The three accumulators hold numbers. */
  predicate HasDims(a: Store) {
    NumberAt(a, "x") && NumberAt(a, "y") && NumberAt(a, "z")
  }

  /** `resetDimensions`: the accumulators at zero, and their names stored. */
  function ResetDimensions(a: Store): (r: Store)
    ensures HasDims(r)
    ensures r.vals["x"] == Num(0.0) && r.vals["y"] == Num(0.0) && r.vals["z"] == Num(0.0)
  {
    Put(Put(Put(Put(a, "x", Num(0.0)), "y", Num(0.0)), "z", Num(0.0)), "dimensions", List([Text("x"), Text("y"), Text("z")]))
  }

  /** The writes of one pass of the point loop: `lat` and `long`, then the three accumulators. */
  function Fill(a: Store, lat: real, long: real, x: real, y: real, z: real): (r: Store)
    ensures HasDims(r) && r.vals["x"] == Num(x) && r.vals["y"] == Num(y) && r.vals["z"] == Num(z)
  {
    Put(Put(Put(Put(Put(a, "lat", Num(lat)), "long", Num(long)), "x", Num(x)), "y", Num(y)), "z", Num(z))
  }

  /** One pass of the point loop of `getCenter`: the point in radians, and its three contributions added. */
  function AddPoint(t: Trig, a: Store, p: Point): (r: Store)
    requires HasDims(a)
    ensures HasDims(r)
  {
    Fill(a, Radians(p.lat), Radians(p.long), a.vals["x"].r + Part(t, "x", p), a.vals["y"].r + Part(t, "y", p), a.vals["z"].r + Part(t, "z", p))
  }

  /** The store after the point loop has run over pts: one pass per point, in order. */
  function AfterPoints(t: Trig, a: Store, pts: seq<Point>): (r: Store)
    requires HasDims(a)
    ensures HasDims(r)
    decreases |pts|
  {
    if |pts| == 0 then a
    else AddPoint(t, AfterPoints(t, a, pts[..|pts| - 1]), pts[|pts| - 1])
  }

  /** One more pass of the point loop gives the store after the points so far and the next one. */
  lemma AddPointStep(t: Trig, a: Store, pts: seq<Point>, i: nat)
    requires HasDims(a) && i < |pts|
    ensures AddPoint(t, AfterPoints(t, a, pts[..i]), pts[i]) == AfterPoints(t, a, pts[..i + 1])
  {
    assert pts[..i + 1][..i] == pts[..i];
  }

  /** A pass of the point loop written with the values it stores. */
  lemma AddPointValues(t: Trig, a: Store, p: Point, lat: real, long: real, x: real, y: real, z: real)
    requires HasDims(a) && lat == Radians(p.lat) && long == Radians(p.long)
    requires x == a.vals["x"].r + Part(t, "x", p) && y == a.vals["y"].r + Part(t, "y", p) && z == a.vals["z"].r + Part(t, "z", p)
    ensures AddPoint(t, a, p) == Fill(a, lat, long, x, y, z)
  {
  }

  /** A pass adds the point's contribution to each accumulator. */
  lemma AddPointAdds(t: Trig, a: Store, p: Point, d: string)
    requires HasDims(a) && d in Dimensions
    ensures AddPoint(t, a, p).vals[d] == Num(a.vals[d].r + Part(t, d, p))
  {
    assert d == "x" || d == "y" || d == "z";
  }

  /** After the point loop each accumulator has grown by the sum of the contributions of all the points. */
  lemma {:induction false} AfterPointsSum(t: Trig, a: Store, pts: seq<Point>, d: string)
    requires HasDims(a) && d in Dimensions
    ensures AfterPoints(t, a, pts).vals[d] == Num(a.vals[d].r + Sum(t, d, pts))
    decreases |pts|
  {
    if |pts| > 0 {
      var init := pts[..|pts| - 1];
      AfterPointsSum(t, a, init, d);
      AddPointAdds(t, AfterPoints(t, a, init), pts[|pts| - 1], d);
    }
  }

  /** The keys the point loop writes. */
  const LoopKeys: set<string> := {"lat", "long", "x", "y", "z"}

  /** A pass writes nothing but the radians of its point and the accumulators. */
  lemma FillFrame(a: Store, lat: real, long: real, x: real, y: real, z: real)
    ensures Fill(a, lat, long, x, y, z).vals - LoopKeys == a.vals - LoopKeys
  {
  }

  /** The point loop writes nothing but the radians of the last point and the accumulators. */
  lemma {:induction false} AfterPointsFrame(t: Trig, a: Store, pts: seq<Point>)
    requires HasDims(a)
    ensures AfterPoints(t, a, pts).vals - LoopKeys == a.vals - LoopKeys
    decreases |pts|
  {
    if |pts| > 0 {
      var init := pts[..|pts| - 1];
      var b := AfterPoints(t, a, init);
      var p := pts[|pts| - 1];
      AfterPointsFrame(t, a, init);
      FillFrame(b, Radians(p.lat), Radians(p.long), b.vals["x"].r + Part(t, "x", p), b.vals["y"].r + Part(t, "y", p), b.vals["z"].r + Part(t, "z", p));
    }
  }

  /** `$value / $count`. */
  function Quot(r: real, n: int): real
    requires n != 0
  {
    r / n as real
  }

  /** One pass of `resolveDimensionByPointsCount`: the accumulator divided by the count. */
  function Divide(a: Store, d: string, n: int): (r: Store)
    requires n != 0 && NumberAt(a, d)
    ensures r.vals == a.vals[d := Num(Quot(a.vals[d].r, n))]
  {
    Overwrite(a, d, Num(Quot(a.vals[d].r, n)))
  }

  /** `resolveDimensionByPointsCount` over the given accumulator names, in order. */
  function DivideAll(a: Store, dims: seq<string>, n: int): (r: Store)
    requires n != 0 && HasDims(a) && forall d :: d in dims ==> d in Dimensions
    ensures HasDims(r)
    decreases |dims|
  {
    if |dims| == 0 then a
    else
      assert dims[|dims| - 1] in dims;
      Divide(DivideAll(a, dims[..|dims| - 1], n), dims[|dims| - 1], n)
  }

  /** Dividing the three accumulators divides each of them once and writes nothing else. */
  lemma DivideDims(a: Store, n: int)
    requires n != 0 && HasDims(a)
    ensures DivideAll(a, Dimensions, n).vals ==
            a.vals["x" := Num(Quot(a.vals["x"].r, n))]["y" := Num(Quot(a.vals["y"].r, n))]["z" := Num(Quot(a.vals["z"].r, n))]
  {
    assert Dimensions[..2][..1][..0] == [];
    assert DivideAll(a, Dimensions[..2][..1][..0], n) == a;
  }

  /** The square of a number. */
  function Square(v: real): real {
    v * v
  }

  /** The latitude, in radians, of the direction of the vector (x, y, z). */
  function LatOf(t: Trig, x: real, y: real, z: real): real {
    t.atan2(z, t.sqrt(Square(x) + Square(y)))
  }

  /** The longitude, in radians, of the direction of the vector (x, y, z). */
  function LongOf(t: Trig, x: real, y: real): real {
    t.atan2(y, x)
  }

  /** `resolveCoordinates`: the longitude and latitude of the mean vector, with the intermediates stored. */
  function ResolveCoordinates(t: Trig, a: Store): (r: Store)
    requires HasDims(a)
    ensures NumberAt(r, "lat") && NumberAt(r, "long")
    ensures r.vals["long"] == Num(LongOf(t, a.vals["x"].r, a.vals["y"].r))
    ensures r.vals["lat"] == Num(LatOf(t, a.vals["x"].r, a.vals["y"].r, a.vals["z"].r))
  {
    Put(Put(Put(Put(Put(a,
      "long", Num(LongOf(t, a.vals["x"].r, a.vals["y"].r))),
      "multiplied y", Num(Square(a.vals["y"].r))),
      "multiplied x", Num(Square(a.vals["x"].r))),
      "distance", Num(t.sqrt(Square(a.vals["x"].r) + Square(a.vals["y"].r)))),
      "lat", Num(LatOf(t, a.vals["x"].r, a.vals["y"].r, a.vals["z"].r)))
  }

  /** `resolveCoordinates` as its five writes, each value read back from the store the previous ones left. */
  lemma ResolveSteps(t: Trig, a: Store, a1: Store, a2: Store, a3: Store, a4: Store, a5: Store)
    requires HasDims(a)
    requires a1 == Put(a, "long", Num(t.atan2(a.vals["y"].r, a.vals["x"].r)))
    requires a2 == Put(a1, "multiplied y", Num(Square(a.vals["y"].r)))
    requires a3 == Put(a2, "multiplied x", Num(Square(a.vals["x"].r)))
    requires a4 == Put(a3, "distance", Num(t.sqrt(a3.vals["multiplied x"].r + a3.vals["multiplied y"].r)))
    requires a5 == Put(a4, "lat", Num(t.atan2(a.vals["z"].r, a4.vals["distance"].r)))
    ensures a5 == ResolveCoordinates(t, a)
  {
  }

  /** The store `getCenter` leaves with points: reset, filled by the point loop, divided, resolved. */
  function Centered(t: Trig, a: Store, pts: seq<Point>): (r: Store)
    requires |pts| > 0
    ensures NumberAt(r, "lat") && NumberAt(r, "long")
  {
    ResolveCoordinates(t, DivideAll(AfterPoints(t, ResetDimensions(a), pts), Dimensions, |pts|))
  }

  /** The entry `getCenter` merges into the result: `lat` and `long` back in degrees. */
  function CenterEntry(a: Store): (r: Store)
    requires NumberAt(a, "lat") && NumberAt(a, "long")
    ensures r.keys == ["lat", "long"]
  {
    LatLong(a.vals["lat"].r, a.vals["long"].r)
  }

  /** The array `['lat' => ..., 'long' => ...]` of a position given in radians, in degrees. */
  function LatLong(lat: real, long: real): (r: Store)
    ensures r.keys == ["lat", "long"] && r.vals == map["lat" := Num(Degrees(lat)), "long" := Num(Degrees(long))]
  {
    OMap(["lat", "long"], map["lat" := Num(Degrees(lat)), "long" := Num(Degrees(long))])
  }

  /**
   * `getCenter()` without a callback: the count stored, false when there are
   * no points; otherwise the accumulators reset, filled by the point loop,
   * divided by the count, turned into coordinates, and merged into the
   * result, which is returned.
   */
  function Center(env: Env, s: State): (r: Run<Value>)
    ensures r.st == s.(storage := r.st.storage, result := r.st.result)
    ensures r.out.Ok? && (r.out.value == Bool(false) || r.out.value.Dict?)
  {
    if |s.points| == 0 then Run(s.(storage := Put(s.storage, "pointsCount", Int(0))), Ok(Bool(false)))
    else
      Run(s.(storage := Centered(env.trig, Put(s.storage, "pointsCount", Int(|s.points|)), s.points),
             result := Merge(s.result, CenterEntry(Centered(env.trig, Put(s.storage, "pointsCount", Int(|s.points|)), s.points)))),
          Ok(Dict(Merge(s.result, CenterEntry(Centered(env.trig, Put(s.storage, "pointsCount", Int(|s.points|)), s.points))))))
  }

  /** With no points, `getCenter` stores the count 0 and returns false, before touching the accumulators. */
  lemma CenterEmpty(env: Env, s: State)
    requires |s.points| == 0
    ensures Center(env, s) == Run(s.(storage := Put(s.storage, "pointsCount", Int(0))), Ok(Bool(false)))
  {
  }

  /** The mean of the contributions to the accumulator d: their sum divided by the count. */
  function Mean(t: Trig, d: string, pts: seq<Point>): real
    requires |pts| > 0 && d in Dimensions
  {
    Quot(Sum(t, d, pts), |pts|)
  }

  /** The division leaves each accumulator divided by the count. */
  lemma DivideOf(a: Store, n: int, d: string)
    requires n != 0 && HasDims(a) && d in Dimensions
    ensures DivideAll(a, Dimensions, n).vals[d] == Num(Quot(a.vals[d].r, n))
  {
    DivideDims(a, n);
  }

  /** After the division the accumulators hold the mean vector. */
  lemma DividedMeans(t: Trig, a: Store, pts: seq<Point>, d: string)
    requires |pts| > 0 && d in Dimensions
    ensures DivideAll(AfterPoints(t, ResetDimensions(a), pts), Dimensions, |pts|).vals[d] == Num(Mean(t, d, pts))
  {
    AfterPointsSum(t, ResetDimensions(a), pts, d);
    DivideOf(AfterPoints(t, ResetDimensions(a), pts), |pts|, d);
  }

  /** Latitude, in radians, of the mean of the points' unit vectors. */
  function MeanLat(t: Trig, pts: seq<Point>): real
    requires |pts| > 0
  {
    LatOf(t, Mean(t, "x", pts), Mean(t, "y", pts), Mean(t, "z", pts))
  }

  /** Longitude, in radians, of the mean of the points' unit vectors. */
  function MeanLong(t: Trig, pts: seq<Point>): real
    requires |pts| > 0
  {
    LongOf(t, Mean(t, "x", pts), Mean(t, "y", pts))
  }

  /** The coordinates `getCenter` resolves: the direction of the mean vector. */
  lemma CenteredSpec(t: Trig, a: Store, pts: seq<Point>)
    requires |pts| > 0
    ensures Centered(t, a, pts).vals["lat"] == Num(MeanLat(t, pts))
    ensures Centered(t, a, pts).vals["long"] == Num(MeanLong(t, pts))
  {
    DividedMeans(t, a, pts, "x");
    DividedMeans(t, a, pts, "y");
    DividedMeans(t, a, pts, "z");
  }

  /** The entry `getCenter` merges: latitude and longitude of the mean vector, in degrees. */
  function CenterOf(t: Trig, pts: seq<Point>): (r: Store)
    requires |pts| > 0
    ensures r.keys == ["lat", "long"]
  {
    LatLong(MeanLat(t, pts), MeanLong(t, pts))
  }

  /**
   * With points, `getCenter` returns the result, into which it has merged
   * `lat` and `long`: the direction of the mean vector in degrees.
   */
  lemma CenterResult(env: Env, s: State)
    requires |s.points| > 0
    ensures Center(env, s).out == Ok(Dict(Center(env, s).st.result))
    ensures Center(env, s).st.result == Merge(s.result, CenterOf(env.trig, s.points))
  {
    var c := Centered(env.trig, Put(s.storage, "pointsCount", Int(|s.points|)), s.points);
    CenterIs(env, s, c);
    CenteredSpec(env.trig, Put(s.storage, "pointsCount", Int(|s.points|)), s.points);
    EntryOf(c, MeanLat(env.trig, s.points), MeanLong(env.trig, s.points));
  }

  /** The entry of a store whose `lat` and `long` hold the given numbers. */
  lemma EntryOf(c: Store, lat: real, long: real)
    requires c.vals.Keys >= {"lat", "long"} && c.vals["lat"] == Num(lat) && c.vals["long"] == Num(long)
    ensures NumberAt(c, "lat") && NumberAt(c, "long") && CenterEntry(c) == LatLong(lat, long)
  {
  }

  /** `getCenter` with points, in terms of the store c it leaves. */
  lemma CenterIs(env: Env, s: State, c: Store)
    requires |s.points| > 0 && c == Centered(env.trig, Put(s.storage, "pointsCount", Int(|s.points|)), s.points)
    ensures Center(env, s) == Run(s.(storage := c, result := Merge(s.result, CenterEntry(c))), Ok(Dict(Merge(s.result, CenterEntry(c)))))
  {
  }

  /**
   * The centre depends on the points and the result only: two calculators
   * with the same points and the same result get the same answer, whatever
   * else they hold.
   */
  lemma CenterOfPoints(env: Env, s: State, s': State)
    requires s.points == s'.points && s.result == s'.result
    ensures Center(env, s).out == Center(env, s').out
  {
    if |s.points| > 0 {
      CenterResult(env, s);
      CenterResult(env, s');
    }
  }

  /** The options `isInArea` sets: distances in kilometres only. */
  function KmOptions(): (r: PhpArray<string, seq<string>>)
    ensures r.keys == ["units"] && r.vals == map["units" := ["km"]]
  {
    OMap(["units"], map["units" := ["km"]])
  }

  /** `$a > $b` between a stored value and an int: numbers compare; anything else is not interpreted. */
  function Greater(v: Lookup<Value, Store>, d: int): (r: Result<bool>)
    ensures v.Found? && v.value.Num? ==> r == Ok(v.value.r > d as real)
    ensures v.Found? && v.value.Int? ==> r == Ok(v.value.i > d)
    ensures !(v.Found? && (v.value.Num? || v.value.Int?)) ==> r == Err(TypeMismatch)
  {
    match v
    case Found(Num(x)) => Ok(x > d as real)
    case Found(Int(i)) => Ok(i > d)
    case _ => Err(TypeMismatch)
  }

  /**
   * The calculator `isInArea` measures with: the main point and the first
   * point stored, the points replaced by those two, and the options set to
   * kilometres.
   */
  function AreaSetup(s: State): (r: State)
    requires s.mainPoint.Some? && |s.points| > 0
    ensures r == s.(storage := r.storage, points := [s.mainPoint.value, s.points[0]], options := KmOptions())
  {
    s.(storage := Put(Put(s.storage, "mainPointToCheck", Pt(s.mainPoint.value)), "pointToCalculateArea", Pt(s.points[0])),
       points := [s.mainPoint.value, s.points[0]], options := KmOptions())
  }

  /**
   * The end of `isInArea` once `getDistance` has run: the first value of the
   * result's `km` stored as the distance, and whether it exceeds the diameter.
   */
  function CompareArea(d: Run<Store>): (r: Run<bool>)
    ensures SameConfig(d.st, r.st)
  {
    if d.out.Err? then Run(d.st, Err(d.out.error))
    else match FirstField(d.out.value, "km")
      case Err(e) => Run(d.st, Err(e))
      case Ok(v) =>
        Run(d.st.(storage := Put(d.st.storage, "distanceToCompare", v)),
            Greater(Coalesce(Put(d.st.storage, "distanceToCompare", v), "distanceToCompare"), d.st.diameter))
  }

  /**
   * `isInArea()`: the main point and the first point stored, the points
   * replaced by those two, the options set to kilometres, the first value of
   * the result's `km` taken as the distance, and whether it exceeds the
   * diameter. With no points, reading the first one fails. Without a main
   * point the empty array is stored for it, and the measurement fails
   * reading its latitude.
   */
  function IsInArea(env: Env, s: State): (r: Run<bool>)
    ensures r.st.mainPoint == s.mainPoint && r.st.units == s.units
    ensures r.st.diameter == s.diameter && r.st.appended == s.appended
    ensures |s.points| == 0 ==> r.out == Err(UndefinedIndex(0)) && r.st.points == s.points
    ensures s.mainPoint.Some? && |s.points| > 0 ==> r.st.points == [s.mainPoint.value, s.points[0]] && r.st.options == KmOptions()
    ensures s.mainPoint.None? ==> r.out == Err(UndefinedIndex(0))
  {
    var stored := Put(s.storage, "mainPointToCheck", MainValue(s));
    if |s.points| == 0 then Run(s.(storage := stored), Err(UndefinedIndex(0)))
    else if s.mainPoint.None? then
      Run(s.(storage := Put(stored, "pointToCalculateArea", Pt(s.points[0])), points := [], options := KmOptions()), Err(UndefinedIndex(0)))
    else CompareArea(GetDistance(env, AreaSetup(s)))
  }

  /** `getMainPoint()` as a stored value: the point, or the empty array when none was set. */
  function MainValue(s: State): (r: Value)
    ensures s.mainPoint.Some? <==> r.Pt?
    ensures s.mainPoint.Some? ==> r.p == s.mainPoint.value
  {
    if s.mainPoint.Some? then Pt(s.mainPoint.value) else List([])
  }

  /**
   * Whatever the distance comes to, `isInArea` leaves the points as the main
   * point then the candidate, and the options set to kilometres; the unit
   * table, diameter, main point and tour record are untouched.
   */
  lemma IsInAreaState(env: Env, s: State)
    requires s.mainPoint.Some? && |s.points| > 0
    ensures IsInArea(env, s).st.points == [s.mainPoint.value, s.points[0]]
    ensures IsInArea(env, s).st.options == KmOptions()
    ensures SameConfig(IsInArea(env, s).st, s.(points := [s.mainPoint.value, s.points[0]], options := KmOptions()))
  {
  }

  /** With no points, `isInArea` fails reading the first one. */
  lemma IsInAreaNoPoints(env: Env, s: State)
    requires |s.points| == 0
    ensures IsInArea(env, s).out == Err(UndefinedIndex(0))
  {
  }

  /** The kilometres between the main point and the candidate, measured with the longitudes already on record. */
  function AreaKm(env: Env, s: State): real
    requires s.mainPoint.Some? && |s.points| > 0 && "km" in s.units.vals
  {
    InUnit(PairMiles(env.trig, s.mainPoint.value, s.points[0], FirstDelta(s.longs, [s.mainPoint.value, s.points[0]])), s.units.vals["km"])
  }

  /** Once the distance is a number, `isInArea` compares it with the diameter. */
  lemma CompareAreaNum(d: Run<Store>, km: real)
    requires d.out.Ok? && FirstField(d.out.value, "km") == Ok(Num(km))
    ensures CompareArea(d).out == Ok(km > d.st.diameter as real)
  {
  }

  /** The set-up calculator measures kilometres only, between the main point and the candidate. */
  lemma AreaSetupPlain(s: State)
    requires s.mainPoint.Some? && |s.points| > 0 && "km" in s.units.vals && !IsSet(s.storage, "")
    ensures Plain(AreaSetup(s)) && UnitsOf(AreaSetup(s).options) == ["km"]
  {
  }

  /**
   * With a table that has kilometres, nothing stored under `""` and a fresh
   * result, `isInArea` answers whether the kilometres to the candidate are
   * strictly more than the diameter: a point exactly on the circle is in.
   */
  lemma IsInAreaAnswer(env: Env, s: State)
    requires s.mainPoint.Some? && |s.points| > 0
    requires "km" in s.units.vals && !IsSet(s.storage, "") && s.result.keys == []
    ensures IsInArea(env, s).out == Ok(AreaKm(env, s) > s.diameter as real)
  {
    var s1 := AreaSetup(s);
    AreaSetupPlain(s);
    FirstPairIn(env, s1, "km");
    assert Miles(env, s1, 0) == PairMiles(env.trig, s.mainPoint.value, s.points[0], FirstDelta(s.longs, [s.mainPoint.value, s.points[0]]));
    CompareAreaNum(GetDistance(env, s1), AreaKm(env, s));
  }
}
