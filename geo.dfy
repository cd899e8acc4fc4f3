/**
 * The calculator object `Geo`: one field per property of its traits, and
 * one method per operation, each proved to leave the object in the state,
 * and to return what, the state function of the operation gives.
 */
module Geo {
  import opened PhpArrays
  import opened Values
  import opened Kernel
  import opened Formatter
  import opened DataStorage
  import opened GeoState
  import opened Distances
  import opened DistanceLaws
  import opened Areas
  import opened Ordering
  import DistanceEach
  import Closest
  import Features

  class Geo {
    /** The math library and the configured label prefix. */
    const env: Env

    var points: seq<Point>
    var mainPoint: Option<Point>
    var localStorage: Store
    var result: Store
    var options: PhpArray<string, seq<string>>
    var longs: seq<real>
    var sin: Slot
    var cos: Slot
    var units: PhpArray<string, real>
    var diameter: int
    var pointsAppendedBefore: seq<int>

    /** The object as a value. */
    function Model(): State
      reads this
    {
      State(points, mainPoint, localStorage, result, options, longs, sin, cos, units, diameter, pointsAppendedBefore)
    }

    /** A new calculator; `config` is the configured unit table, if any. */
    constructor (env: Env, config: Option<PhpArray<string, real>>)
      ensures this.env == env && Model() == Initial(config)
    {
      this.env := env;
      points, mainPoint := [], None;
      localStorage, result, options := Empty(), Empty(), Empty();
      longs, sin, cos := [], Uninitialized, Uninitialized;
      units := ResolveUnits(config);
      diameter := 0;
      pointsAppendedBefore := [];
    }

    // ----- DataStorage -----

    /** `getOptions($key)`: the option, or every option when the key is not there (a null key reads `""`). */
    function GetOptions(key: string): (r: Lookup<seq<string>, PhpArray<string, seq<string>>>)
      reads this
      ensures r.Found? <==> key in options.vals
      ensures r.Found? ==> r.value == options.vals[key]
      ensures r.Whole? ==> r.all == options
    {
      OptionsLookup(options, key)
    }

    /** `setOptions`: the options are replaced wholesale. */
    method SetOptions(o: PhpArray<string, seq<string>>)
      modifies this
      ensures Model() == old(Model()).(options := o)
    {
      options := o;
    }

    /** `getResult()` without a callback: the whole result. */
    function GetResult(): (r: Store)
      reads this
      ensures r == result
    {
      result
    }

    /** `getResultByKey($key)`: the entry, or the whole result when the key is not set. */
    function GetResultByKey(key: string): (r: Lookup<Value, Store>)
      reads this
      ensures r.Found? <==> IsSet(result, key)
      ensures r.Found? ==> r.value == result.vals[key]
      ensures r.Whole? ==> r.all == result
    {
      Coalesce(result, key)
    }

    /** `setResult`: `array_merge` into the result; incoming keys win, the others stay. */
    method SetResult(m: Store)
      modifies this
      ensures Model() == old(Model()).(result := Merge(old(result), m))
      ensures result.vals == old(result.vals) + m.vals
    {
      result := Merge(result, m);
    }

    /** `appendToStorage`; appending to a value that is not an array fails and changes nothing. */
    method AppendToStorage(key: string, v: Value) returns (r: Result<()>)
      modifies this
      ensures r.Ok? <==> Append(old(localStorage), key, v).Ok?
      ensures r.Ok? ==> Model() == old(Model()).(storage := Append(old(localStorage), key, v).value)
      ensures r.Err? ==> Model() == old(Model()) && r.error == NotAnArray
    {
      var a := Append(localStorage, key, v);
      if a.Err? {
        return Err(a.error);
      }
      localStorage := a.value;
      r := Ok(());
    }

    /** `clearStoredResults`: only the result is emptied. */
    method ClearStoredResults()
      modifies this
      ensures Model() == old(Model()).(result := Empty())
    {
      result := Empty();
    }

    /** `getFromStorage($key)` for one key: the value, or the whole store when it is not set. */
    function GetFromStorage(key: string): (r: Lookup<Value, Store>)
      reads this
      ensures r.Found? <==> IsSet(localStorage, key)
      ensures r.Found? ==> r.value == localStorage.vals[key]
      ensures r.Whole? ==> r.all == localStorage
    {
      Coalesce(localStorage, key)
    }

    /** `inStorage($key)`. */
    function InStorage(key: string): (r: bool)
      reads this
      ensures r <==> key in localStorage.vals && localStorage.vals[key] != Null
    {
      IsSet(localStorage, key)
    }

    /** `getCustomKeysFromStorage` (and `getFromStorage` of an array of keys): each key with what reading it gives. */
    method GetCustomKeysFromStorage(keys: seq<string>) returns (r: Store)
      ensures r == CustomKeys(localStorage, keys)
    {
      r := Empty();
      var i := 0;
      while i < |keys|
        invariant i <= |keys| && r == CustomKeys(localStorage, keys[..i])
      {
        assert keys[..i + 1][..i] == keys[..i];
        r := Put(r, keys[i], AsValue(GetFromStorage(keys[i])));
        i := i + 1;
      }
      assert keys[..i] == keys;
    }

    /** `setInStorage`: one key written, all else as it was. */
    method SetInStorage(key: string, v: Value)
      modifies this
      ensures Model() == old(Model()).(storage := Put(old(localStorage), key, v))
    {
      localStorage := Put(localStorage, key, v);
    }

    /** `clearStorage`: only the store is emptied. */
    method ClearStorage()
      modifies this
      ensures Model() == old(Model()).(storage := Empty())
    {
      localStorage := Empty();
    }

    /** `removeFromStorage(...$keys)`: each key still set when its turn comes is unset. */
    method RemoveFromStorage(keys: seq<string>)
      modifies this
      ensures Model() == old(Model()).(storage := RemoveKeys(old(localStorage), keys))
    {
      var i := 0;
      while i < |keys|
        invariant i <= |keys| && Model() == old(Model()).(storage := localStorage)
        invariant RemoveKeys(localStorage, keys[i..]) == RemoveKeys(old(localStorage), keys)
      {
        assert keys[i..][1..] == keys[i + 1..];
        if InStorage(keys[i]) {
          localStorage := Remove(localStorage, keys[i]);
        }
        i := i + 1;
      }
    }

    // ----- PointsStorage -----

    /** `getPoints($index)`: the point at the index, or the whole list when there is none. */
    function GetPoints(index: int): (r: Lookup<Point, seq<Point>>)
      reads this
      ensures r.Found? <==> 0 <= index < |points|
      ensures r.Found? ==> r.value == points[index]
      ensures r.Whole? ==> r.all == points
    {
      if 0 <= index < |points| then Found(points[index]) else Whole(points)
    }

    /** `setPoint`: the point goes at the end. */
    method SetPoint(p: Point)
      modifies this
      ensures Model() == old(Model()).(points := old(points) + [p])
      ensures |points| == |old(points)| + 1 && points[..|old(points)|] == old(points)
    {
      points := points + [p];
    }

    /**
     * `updatePoint($i, $callback)`: the point at i is replaced by what the
     * callback makes of it; an index with no point fails, changing nothing.
     */
    method UpdatePoint(i: int, f: Point -> Point) returns (r: Result<()>)
      modifies this
      ensures r.Ok? <==> 0 <= i < |old(points)|
      ensures r.Ok? ==> Model() == old(Model()).(points := old(points)[i := f(old(points)[i])])
      ensures r.Err? ==> Model() == old(Model()) && r.error == UndefinedIndex(i)
    {
      if !(0 <= i < |points|) {
        return Err(UndefinedIndex(i));
      }
      points := points[i := f(points[i])];
      r := Ok(());
    }

    /** `getMainPoint`. */
    function GetMainPoint(): (r: Option<Point>)
      reads this
      ensures r == mainPoint
    {
      mainPoint
    }

    /** `setMainPoint`: the points are left alone. */
    method SetMainPoint(p: Point)
      modifies this
      ensures Model() == old(Model()).(mainPoint := Some(p))
    {
      mainPoint := Some(p);
    }

    /** `setPoints`: the given points go after the existing ones, in order. */
    method SetPoints(ps: seq<Point>)
      modifies this
      ensures Model() == old(Model()).(points := old(points) + ps)
      ensures points[..|old(points)|] == old(points) && points[|old(points)|..] == ps
    {
      points := points + ps;
    }

    /** `replacePoints`. */
    method ReplacePoints(ps: seq<Point>)
      modifies this
      ensures Model() == old(Model()).(points := ps)
    {
      points := ps;
    }

    /** `clearPoints`. */
    method ClearPoints()
      modifies this
      ensures Model() == old(Model()).(points := [])
    {
      points := [];
    }

    // ----- AngleStorage -----

    /** `getSin`: reading it before it was ever set is an error. */
    function GetSin(): (r: Result<Slot>)
      reads this
      ensures r.Ok? <==> !sin.Uninitialized?
      ensures r.Ok? ==> r.value == sin
      ensures r.Err? ==> r.error == Unassigned
    {
      if sin.Uninitialized? then Err(Unassigned) else Ok(sin)
    }

    /** `setSin`, with an `int|float|string`. */
    method SetSin(v: Slot)
      requires !v.Uninitialized?
      modifies this
      ensures Model() == old(Model()).(sin := v)
    {
      sin := v;
    }

    /** `getCos`: reading it before it was ever set is an error. */
    function GetCos(): (r: Result<Slot>)
      reads this
      ensures r.Ok? <==> !cos.Uninitialized?
      ensures r.Ok? ==> r.value == cos
      ensures r.Err? ==> r.error == Unassigned
    {
      if cos.Uninitialized? then Err(Unassigned) else Ok(cos)
    }

    /** `setCos`, with an `int|float|string`. */
    method SetCos(v: Slot)
      requires !v.Uninitialized?
      modifies this
      ensures Model() == old(Model()).(cos := v)
    {
      cos := v;
    }

    /** `getLongs`: the longitudes in the order they were set. */
    function GetLongs(): (r: seq<real>)
      reads this
      ensures r == longs
    {
      longs
    }

    /** `setLongitude`: one longitude appended. */
    method SetLongitude(v: real)
      modifies this
      ensures Model() == old(Model()).(longs := old(longs) + [v])
    {
      longs := longs + [v];
    }

    /** `clearAngles`: sin and cos become `''` and no longitude is left. */
    method ClearAngles()
      modifies this
      ensures Model() == old(Model()).(sin := Str(""), cos := Str(""), longs := [])
    {
      SetSin(Str(""));
      SetCos(Str(""));
      longs := [];
    }

    // ----- DiametersStorage -----

    /** `getDiameter`. */
    function GetDiameter(): (r: int)
      reads this
      ensures r == diameter
    {
      diameter
    }

    /** `setDiameter($diameter = 0)`. */
    method SetDiameter(d: int := 0)
      modifies this
      ensures Model() == old(Model()).(diameter := d)
    {
      diameter := d;
    }

    // ----- Distances -----

    /** `getUnits`. */
    function GetUnits(): (r: PhpArray<string, real>)
      reads this
      ensures r == units
    {
      units
    }

    /** `setUnits`: the table is replaced wholesale. */
    method SetUnits(u: PhpArray<string, real>)
      modifies this
      ensures Model() == old(Model()).(units := u)
    {
      units := u;
    }

    /** `checkIfUnitExists`. */
    function CheckIfUnitExists(unit: string): (r: Option<Error>)
      reads this
      ensures r.None? <==> unit in units.vals
      ensures r.Some? ==> r.value == UnknownUnit(unit)
    {
      Distances.CheckIfUnitExists(units, unit)
    }

    /** The unit loop of `resolveDistanceWithUnits`, or the mile fallback. */
    method StoreUnitsOf(d: real) returns (r: Result<()>)
      modifies this
      ensures Run(Model(), r) == StoreUnits(old(Model()), d)
    {
      match RequestedUnits(options) {
        case Some(us) =>
          var i := 0;
          while i < |us|
            invariant i <= |us| && Model() == old(Model()).(storage := localStorage)
            invariant StoreUnitsFrom(localStorage, units.vals, us, i, d) == StoreUnitsFrom(old(localStorage), units.vals, us, 0, d)
          {
            var missing := CheckIfUnitExists(us[i]);
            if missing.Some? {
              return Err(missing.value);
            }
            SetInStorage(us[i], Num(InUnit(d, units.vals[us[i]])));
            i := i + 1;
          }
          r := Ok(());
        case None =>
          if "mile" !in units.vals {
            return Err(UndefinedKey("mile"));
          }
          SetInStorage("mile", Num(InUnit(d, units.vals["mile"])));
          r := Ok(());
      }
    }

    /** `resolveDistanceWithUnits`: the units, then the scratch keys dropped, then `getFromStorage()`. */
    method ResolveDistanceWithUnits(d: real) returns (r: Result<Value>)
      modifies this
      ensures Run(Model(), r) == Distances.ResolveDistanceWithUnits(old(Model()), d)
    {
      var stored := StoreUnitsOf(d);
      if stored.Err? {
        return Err(stored.error);
      }
      RemoveFromStorage(ScratchKeys);
      r := Ok(AsValue(GetFromStorage("")));
    }

    /** `calcDistance`: the arc from sin, cos and the first two longitudes, kept in three forms, then in units. */
    method CalcDistance() returns (r: Result<Value>)
      requires sin.Real? && cos.Real? && |longs| >= 2
      modifies this
      ensures Run(Model(), r) == Distances.CalcDistance(env, old(Model()))
    {
      ghost var s0 := Model();
      var arc := CentralAngle(env.trig, sin.r, cos.r, longs[0] - longs[1]);
      assert arc == Arc(env, s0);
      var a1 := Put(localStorage, "distance", Num(arc));
      var a2 := Put(a1, "rad2deg", Num(Rad2Deg(arc)));
      var a3 := Put(a2, "correctDistanceValue", Num(CorrectDistanceValue(Rad2Deg(arc))));
      assert s0.(storage := a3) == Prepared(env, s0);
      SetInStorage("distance", Num(arc));
      SetInStorage("rad2deg", Num(Rad2Deg(arc)));
      SetInStorage("correctDistanceValue", Num(CorrectDistanceValue(Rad2Deg(arc))));
      assert Model() == s0.(storage := a3);
      r := ResolveDistanceWithUnits(CorrectDistanceValue(Rad2Deg(arc)));
      CalcDistanceResolves(env, s0);
    }

    /** The body of the pair loop of `getDistance` for the pair at i and i + 1. */
    method MeasurePair(i: nat) returns (r: Result<()>)
      requires i + 1 < |points|
      modifies this
      ensures Run(Model(), r) == PairStep(env, old(Model()), i)
    {
      ghost var s0 := Model();
      var p, q := points[i], points[i + 1];
      SetSin(Real(GetAngle(env.trig, p.lat, q.lat, SinFn)));
      SetCos(Real(GetAngle(env.trig, p.lat, q.lat, CosFn)));
      SetInStorage("position", Text(Position(i)));
      SetLongitude(p.long);
      SetLongitude(q.long);
      SetInStorage("distance_key", Text(FormatDistanceKey(env.prefix, Position(i))));
      var key := FormatDistanceKey(env.prefix, Position(i));
      assert Model() == PairSetup(env, s0, i);
      var c := CalcDistance();
      if c.Err? {
        return Err(c.error);
      }
      SetResult(Single(key, c.value));
      r := Ok(());
    }

    /** `getDistance()`: every adjacent pair measured into the result, which is returned. */
    method GetDistance() returns (r: Result<Store>)
      modifies this
      ensures Run(Model(), r) == Distances.GetDistance(env, old(Model()))
    {
      ghost var s0 := Model();
      var pts := points;
      var i := 0;
      if |pts| == 0 {
        assert DistanceFrom(env, s0, 0) == Run(s0, Ok(()));
      }
      while i < |pts|
        invariant i <= |pts| && points == pts
        invariant i < |pts| ==> DistanceFrom(env, Model(), i) == DistanceFrom(env, s0, 0)
        invariant i == |pts| ==> DistanceFrom(env, s0, 0) == Run(Model(), Ok(()))
      {
        ghost var before := Model();
        if i + 1 < |points| {
          var step := MeasurePair(i);
          if step.Err? {
            DistanceFromErr(env, before, i, Model(), step.error);
            GetDistanceOfLoop(env, s0, Model(), Err(step.error));
            return Err(step.error);
          }
          DistanceFromOk(env, before, i, Model());
        } else {
          DistanceFromLast(env, before, i);
        }
        i := i + 1;
      }
      GetDistanceOfLoop(env, s0, Model(), Ok(()));
      r := Ok(result);
    }

    // ----- Areas -----

    /** `resetDimensions`: the accumulators at zero and their names stored. */
    method ResetDimensions()
      modifies this
      ensures Model() == old(Model()).(storage := Areas.ResetDimensions(old(localStorage)))
    {
      SetInStorage("x", Num(0.0));
      SetInStorage("y", Num(0.0));
      SetInStorage("z", Num(0.0));
      SetInStorage("dimensions", List([Text("x"), Text("y"), Text("z")]));
    }

    /** The body of the point loop of `getCenter`: the point in radians, and its contributions added from the stored radians. */
    method AccumulatePoint(p: Point)
      requires HasDims(localStorage)
      modifies this
      ensures Model() == old(Model()).(storage := AddPoint(env.trig, old(localStorage), p))
    {
      ghost var a := localStorage;
      SetInStorage("lat", Num(Radians(p.lat)));
      SetInStorage("long", Num(Radians(p.long)));
      var lat, long := localStorage.vals["lat"].r, localStorage.vals["long"].r;
      assert lat == Radians(p.lat) && long == Radians(p.long);
      var x := localStorage.vals["x"].r;
      assert x == a.vals["x"].r;
      var x' := x + Times(env.trig.cos(lat), env.trig.cos(long));
      assert x' == x + Part(env.trig, "x", p);
      SetInStorage("x", Num(x'));
      var y := localStorage.vals["y"].r;
      assert y == a.vals["y"].r;
      var y' := y + Times(env.trig.cos(lat), env.trig.sin(long));
      assert y' == y + Part(env.trig, "y", p);
      SetInStorage("y", Num(y'));
      var z := localStorage.vals["z"].r;
      assert z == a.vals["z"].r;
      var z' := z + env.trig.sin(lat);
      assert z' == z + Part(env.trig, "z", p);
      SetInStorage("z", Num(z'));
      assert localStorage == Fill(a, lat, long, x', y', z');
      AddPointValues(env.trig, a, p, lat, long, x', y', z');
    }

    /** `resolveDimensionByPointsCount`: each accumulator named in `dimensions` divided by the count. */
    method ResolveDimensionByPointsCount(count: int)
      requires count != 0 && HasDims(localStorage)
      modifies this
      ensures Model() == old(Model()).(storage := DivideAll(old(localStorage), Dimensions, count))
    {
      ghost var a := localStorage;
      var dims := Dimensions;
      var j := 0;
      while j < |dims|
        invariant 0 <= j <= |dims|
        invariant localStorage == DivideAll(a, dims[..j], count)
        invariant Model() == old(Model()).(storage := localStorage)
      {
        assert dims[..j + 1][..j] == dims[..j];
        var d := dims[j];
        PutPresent(localStorage, d, Num(Quot(localStorage.vals[d].r, count)));
        SetInStorage(d, Num(Quot(localStorage.vals[d].r, count)));
        j := j + 1;
      }
      assert dims[..j] == Dimensions;
    }

    /** `resolveCoordinates`: the longitude and latitude of the mean vector, each read back from the store. */
    method ResolveCoordinates()
      requires HasDims(localStorage)
      modifies this
      ensures Model() == old(Model()).(storage := Areas.ResolveCoordinates(env.trig, old(localStorage)))
    {
      ghost var a := localStorage;
      var x, y, z := localStorage.vals["x"].r, localStorage.vals["y"].r, localStorage.vals["z"].r;
      SetInStorage("long", Num(env.trig.atan2(y, x)));
      ghost var a1 := localStorage;
      SetInStorage("multiplied y", Num(Square(y)));
      ghost var a2 := localStorage;
      SetInStorage("multiplied x", Num(Square(x)));
      var mx, my := localStorage.vals["multiplied x"].r, localStorage.vals["multiplied y"].r;
      ghost var a3 := localStorage;
      SetInStorage("distance", Num(env.trig.sqrt(mx + my)));
      var dist := localStorage.vals["distance"].r;
      ghost var a4 := localStorage;
      SetInStorage("lat", Num(env.trig.atan2(z, dist)));
      ResolveSteps(env.trig, a, a1, a2, a3, a4, localStorage);
    }

    /** The point loop of `getCenter`. */
    method AccumulatePoints()
      requires HasDims(localStorage)
      modifies this
      ensures Model() == old(Model()).(storage := AfterPoints(env.trig, old(localStorage), old(points)))
    {
      ghost var s0 := Model();
      var pts := points;
      var i := 0;
      while i < |pts|
        invariant 0 <= i <= |pts| && points == pts && HasDims(s0.storage)
        invariant localStorage == AfterPoints(env.trig, s0.storage, pts[..i])
        invariant Model() == s0.(storage := localStorage)
      {
        AddPointStep(env.trig, s0.storage, pts, i);
        AccumulatePoint(pts[i]);
        i := i + 1;
      }
      assert pts[..i] == pts;
    }

    /** `getCenter()`: false with no points, otherwise the result with the centre merged in. */
    method GetCenter() returns (r: Value)
      modifies this
      ensures Run(Model(), Ok(r)) == Center(env, old(Model()))
    {
      ghost var s0 := Model();
      var n := |points|;
      SetInStorage("pointsCount", Int(n));
      if n == 0 {
        return Bool(false);
      }
      ResetDimensions();
      AccumulatePoints();
      ResolveDimensionByPointsCount(n);
      ResolveCoordinates();
      SetResult(CenterEntry(localStorage));
      r := Dict(result);
    }

    /** `isInArea()`: whether the first point is farther from the main point than the diameter, in kilometres. */
    method IsInArea() returns (r: Result<bool>)
      modifies this
      ensures Run(Model(), r) == Areas.IsInArea(env, old(Model()))
    {
      ghost var s0 := Model();
      SetInStorage("mainPointToCheck", if mainPoint.Some? then Pt(mainPoint.value) else List([]));
      if |points| == 0 {
        return Err(UndefinedIndex(0));
      }
      SetInStorage("pointToCalculateArea", Pt(points[0]));
      ClearPoints();
      if mainPoint.None? {
        SetOptions(KmOptions());
        return Err(UndefinedIndex(0));
      }
      SetPoints([localStorage.vals["mainPointToCheck"].p, localStorage.vals["pointToCalculateArea"].p]);
      SetOptions(KmOptions());
      assert Model() == AreaSetup(s0);
      ghost var s1 := Model();
      var d := GetDistance();
      assert Run(Model(), d) == Distances.GetDistance(env, s1);
      if d.Err? {
        return Err(d.error);
      }
      var km := FirstField(d.value, "km");
      if km.Err? {
        return Err(km.error);
      }
      SetInStorage("distanceToCompare", km.value);
      r := Greater(GetFromStorage("distanceToCompare"), diameter);
    }

    /** `resolveEachDistanceToMainPoint`: the points kept in the store, then each one's distance to the main point appended. */
    method ResolveEachDistanceToMainPoint() returns (r: Result<()>)
      modifies this
      ensures Run(Model(), r) == Distances.ResolveEachDistanceToMainPoint(env, old(Model()))
    {
      ghost var s0 := Model();
      var pts := points;
      PrepareEach();
      DistanceEach.ResolvePrepared(env, s0);
      ghost var s3 := Model();
      var i := 0;
      while i < |pts|
        invariant i <= |pts| && mainPoint == s0.mainPoint
        invariant EachFrom(env, Model(), pts, i) == EachFrom(env, s3, pts, 0)
      {
        var a := EachDistanceStep(pts, i);
        if a.Err? {
          return Err(a.error);
        }
        i := i + 1;
      }
      r := Ok(());
    }

    /** What `resolveEachDistanceToMainPoint` does before its loop: the points stored and cleared, the first unit's name stored. */
    method PrepareEach()
      modifies this
      ensures Model() == DistanceEach.Prepared(old(Model()))
    {
      SetInStorage("points", List(PointValues(points)));
      ClearPoints();
      SetInStorage("unit", if |units.keys| > 0 then Text(units.keys[0]) else Null);
    }

    /**
     * One pass of the loop of `resolveEachDistanceToMainPoint`: the main
     * point and point i set as the points, the distance between them, its
     * value in the stored unit appended to the stored list, the points
     * cleared. A failure ends the loop; otherwise it goes on from the state
     * this leaves.
     */
    method EachDistanceStep(pts: seq<Point>, i: nat) returns (r: Result<()>)
      requires i < |pts|
      modifies this
      ensures mainPoint == old(mainPoint)
      ensures r.Err? ==> Run(Model(), r) == EachFrom(env, old(Model()), pts, i)
      ensures r.Ok? ==> EachFrom(env, Model(), pts, i + 1) == EachFrom(env, old(Model()), pts, i)
    {
      ghost var t := Model();
      if mainPoint.None? {
        return Err(UndefinedIndex(0));
      }
      SetPoints([mainPoint.value, pts[i]]);
      var d := GetDistance();
      DistanceEach.EachFromStep(env, t, pts, i, Model(), d);
      if d.Err? {
        return Err(d.error);
      }
      var v := UnitField(Model(), d.value);
      if v.Err? {
        return Err(v.error);
      }
      r := AppendToStorage(DistanceEach.DistancesKey, v.value);
      if r.Err? {
        return;
      }
      ClearPoints();
    }

    // ----- Ordering -----

    /** `resolveKeyForEachPoint`: each point gets its position plus one as key. */
    method ResolveKeyForEachPoint()
      modifies this
      ensures Model() == old(Model()).(points := KeyPoints(old(points)))
    {
      ghost var s0 := Model();
      var pts := points;
      var i := 0;
      while i < |pts|
        invariant i <= |pts| && |points| == |pts|
        invariant forall j :: 0 <= j < i ==> points[j] == Tag(j)(pts[j])
        invariant forall j :: i <= j < |pts| ==> points[j] == pts[j]
        invariant Model() == s0.(points := points)
      {
        var u := UpdatePoint(i, Tag(i));
        i := i + 1;
      }
      assert points == KeyPoints(pts);
    }

    /**
     * The `foreach` of one round of `nearestNeighborAlgorithm`: the results
     * cleared before each remaining point, the last point of the tour
     * skipped, every other point measured and its key taken when it is
     * strictly nearer than the nearest so far.
     */
    method ScanRound(last: TaggedPoint, pts: seq<TaggedPoint>) returns (r: Result<Pick>)
      modifies this
      ensures Run(Model(), r) == Scan(env, old(Model()), last, pts, 0, Pick(Sentinel, None))
    {
      ghost var s0 := Model();
      var p := Pick(Sentinel, None);
      var i := 0;
      while i < |pts|
        invariant i <= |pts|
        invariant Scan(env, Model(), last, pts, i, p) == Scan(env, s0, last, pts, 0, Pick(Sentinel, None))
      {
        var c := ScanStep(last, pts, i, p);
        if c.Err? {
          return Err(c.error);
        }
        p := c.value;
        i := i + 1;
      }
      r := Ok(p);
    }

    /**
     * One pass of the round's loop: the results cleared, then the last point
     * of the tour passed over and any other point considered. A failure ends
     * the scan; otherwise the scan goes on from the state and pick it leaves.
     */
    method ScanStep(last: TaggedPoint, pts: seq<TaggedPoint>, i: nat, p: Pick) returns (r: Result<Pick>)
      requires i < |pts|
      modifies this
      ensures r.Err? ==> Run(Model(), r) == Scan(env, old(Model()), last, pts, i, p)
      ensures r.Ok? ==> Scan(env, Model(), last, pts, i + 1, r.value) == Scan(env, old(Model()), last, pts, i, p)
    {
      ghost var before := Model();
      var q := pts[i];
      ClearResult();
      if q.key == last.key {
        ScanSkip(env, before, last, pts, i, p);
        return Ok(p);
      }
      ClearResultIdempotent(before);
      r := ConsiderPoint(last, q, p);
      ScanNext(env, before, last, pts, i, p, Model(), r);
    }

    /**
     * The body of the round's loop for a point other than the last of the
     * tour, on the cleared calculator: the distance to it in kilometres,
     * and the pick moved to it when it is nearer than the best so far.
     */
    method ConsiderPoint(last: TaggedPoint, q: TaggedPoint, p: Pick) returns (r: Result<Pick>)
      requires Model() == GeoState.ClearResult(Model())
      modifies this
      ensures Run(Model(), r) == Consider(env, old(Model()), last, q, p)
    {
      SetPoints([Coord(last.lat, last.long), Coord(q.lat, q.long)]);
      SetOptions(KmOptions());
      assert Model() == MeasureSetup(old(Model()), last, q);
      var d := GetDistance();
      if d.Err? {
        return Err(d.error);
      }
      var v := FirstField(d.value, "km");
      if v.Err? {
        return Err(v.error);
      }
      var nearer := Below(v.value, p.best);
      if nearer.Err? {
        return Err(nearer.error);
      }
      r := Ok(if nearer.value then Pick(Amount(v.value), Some(q.key)) else p);
    }

    /**
     * `nearestNeighborAlgorithm($points)` with its defaults (an empty tour,
     * a size of 0, the key `'key'`): the first point goes in as entry 0 and
     * 0 is recorded as visited, then the rounds.
     */
    method NearestNeighborAlgorithm(pts: seq<TaggedPoint>) returns (r: Result<PhpArray<int, TaggedPoint>>)
      requires |pts| > 0
      modifies this
      ensures Run(Model(), r) == NearestNeighbor(env, old(Model()), pts)
    {
      pointsAppendedBefore := pointsAppendedBefore + [0];
      r := NearestNeighborRounds(pts, Single(0, pts[0]));
    }

    /**
     * `nearestNeighborAlgorithm($points, $result)` once the tour holds a
     * point: the tour as it is when no points remain; otherwise the round
     * chooses the next key, which is recorded as visited, its point is added
     * to the tour under it, and the recursive call plans the points not yet
     * visited.
     */
    method NearestNeighborRounds(pts: seq<TaggedPoint>, res: PhpArray<int, TaggedPoint>) returns (r: Result<PhpArray<int, TaggedPoint>>)
      requires |res.keys| > 0
      modifies this
      ensures Run(Model(), r) == Tour(env, old(Model()), res, pts)
      decreases |pts|
    {
      if |pts| == 0 {
        return Ok(res);
      }
      ghost var s0 := Model();
      var k, tour := NextKey(pts, res);
      if k.Err? {
        return Err(k.error);
      }
      pointsAppendedBefore := pointsAppendedBefore + [k.value];
      var rest := Unvisited(pts, pointsAppendedBefore);
      AdvanceOn(env, s0, res, pts, Model(), k.value, tour, rest);
      r := NearestNeighborRounds(rest, tour);
    }

    /**
     * The choice of one round of `nearestNeighborAlgorithm`: the scan from
     * the last point of the tour, and the key it found (the only remaining
     * one, when one remains). A failing scan, or a scan that finds no key,
     * ends the tour with its error; otherwise the tour goes on from the
     * state the scan left, with the key recorded and its point added.
     */
    method NextKey(pts: seq<TaggedPoint>, res: PhpArray<int, TaggedPoint>) returns (r: Result<int>, tour: PhpArray<int, TaggedPoint>)
      requires |res.keys| > 0 && |pts| > 0
      modifies this
      ensures r.Err? ==> Tour(env, old(Model()), res, pts) == Run(Model(), Err(r.error))
      ensures r.Ok? ==> Advances(env, old(Model()), res, pts, Model().(appended := pointsAppendedBefore + [r.value]), r.value, tour)
    {
      ghost var s0 := Model();
      var sc := ScanRound(LastValue(res), pts);
      TourStep(env, s0, res, pts, Model(), sc);
      if sc.Err? {
        return Err(sc.error), res;
      }
      var next := Decide(pts, sc.value.key);
      if next.None? {
        return Err(UndefinedIndex(0)), res;
      }
      r, tour := Ok(next.value), Put(res, next.value, WithKey(pts, next.value).value);
    }

    /** `getOrderByNearestNeighbor()`: the points tagged, the main point put first with key 0, and the tour of them all. */
    method GetOrderByNearestNeighbor() returns (r: Result<PhpArray<int, TaggedPoint>>)
      modifies this
      ensures Run(Model(), r) == OrderByNearestNeighbor(env, old(Model()))
    {
      ghost var s0 := Model();
      ResolveKeyForEachPoint();
      if mainPoint.None? {
        return Err(UndefinedIndex(0));
      }
      var m := mainPoint.value;
      var tagged: seq<TaggedPoint> := [Keyed(m.lat, m.long, 0)] + points;
      assert tagged == Planned(m, s0.points);
      ReplacePoints(tagged);
      r := NearestNeighborAlgorithm(tagged);
    }

    /** The end of `getClosest` / `getFarthest`: the index from the sorted distances, stored, and its point put in the result. */
    method PickExtreme(e: Closest.Extremum) returns (r: Result<Value>)
      modifies this
      ensures Run(Model(), r) == Closest.PickExtreme(e, old(Model()))
    {
      var idx := Closest.FirstSortedKey(e, GetFromStorage(DistanceEach.DistancesKey));
      if idx.Err? {
        return Err(idx.error);
      }
      SetInStorage(Closest.IndexKey(e), if idx.value.Some? then Int(idx.value.value) else Null);
      var stored := GetFromStorage(Closest.IndexKey(e));
      if !(stored.Found? && stored.value.Int?) {
        return Err(IllegalOffset);
      }
      var i := stored.value.i;
      var item := Closest.PointAt(GetFromStorage("points"), i);
      if item.Err? {
        return Err(item.error);
      }
      SetResult(Single(Closest.ResultKey(e), Picked(i, item.value)));
      r := Ok(AsValue(GetResultByKey(Closest.ResultKey(e))));
    }

    /** `getClosest()` without a callback. */
    method GetClosest() returns (r: Result<Value>)
      modifies this
      ensures Run(Model(), r) == Closest.GetExtreme(env, Closest.Least, old(Model()))
    {
      var d := ResolveEachDistanceToMainPoint();
      if d.Err? {
        return Err(d.error);
      }
      r := PickExtreme(Closest.Least);
    }

    /** `getFarthest()` without a callback. */
    method GetFarthest() returns (r: Result<Value>)
      modifies this
      ensures Run(Model(), r) == Closest.GetExtreme(env, Closest.Greatest, old(Model()))
    {
      var d := ResolveEachDistanceToMainPoint();
      if d.Err? {
        return Err(d.error);
      }
      r := PickExtreme(Closest.Greatest);
    }

    // ----- Geo -----

    /** `clearResult`: store, points, result and angles cleared. */
    method ClearResult()
      modifies this
      ensures Model() == GeoState.ClearResult(old(Model()))
    {
      ClearStorage();
      ClearPoints();
      ClearStoredResults();
      ClearAngles();
    }

    /** `allFeatures()` without a callback: the distance result and the centre, gathered into the result. */
    method AllFeatures() returns (r: Result<Store>)
      modifies this
      ensures Run(Model(), r) == Features.AllFeatures(env, old(Model()))
    {
      var d := GetDistance();
      if d.Err? {
        return Err(d.error);
      }
      SetInStorage("distanceResult", Dict(d.value));
      ClearStoredResults();
      var c := GetCenter();
      SetInStorage("centerResult", c);
      ClearStoredResults();
      SetResult(Features.Gathered(AsValue(GetFromStorage("distanceResult")), AsValue(GetFromStorage("centerResult"))));
      r := Ok(GetResult());
    }
  }
}
