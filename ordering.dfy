/**
 * The tour planner and the closest/farthest selection. The planner tags
 * each point with its position, puts the main point first, and then grows a
 * tour greedily: each round measures, on a cleared calculator, the distance
 * in kilometres from the last point of the tour to each remaining point,
 * takes the earliest strictly smallest one, records its key as visited and
 * drops every visited key from the remaining points.
 */
module Ordering {
  import opened PhpArrays
  import opened Values
  import opened Kernel
  import opened DataStorage
  import opened GeoState
  import opened Distances
  import opened DistanceLaws
  import opened Areas
  import opened DistanceLoop
  import DistanceErrors

  /** The smallest distance a round starts from, `64800 * 2`: larger than the distances it compares. */
  const Sentinel: real := 129600.0

  /** The keys of the points, in their order. */
  function Keys(pts: seq<TaggedPoint>): (r: seq<int>)
    ensures |r| == |pts| && forall j :: 0 <= j < |pts| ==> r[j] == pts[j].key
  {
    seq(|pts|, j requires 0 <= j < |pts| => pts[j].key)
  }

  /** The callback of `resolveKeyForEachPoint` for the point at `index`. */
  function Tag(index: int): (f: Point -> Point)
    ensures forall p :: f(p) == Keyed(p.lat, p.long, index + 1)
  {
    (p: Point) => Keyed(p.lat, p.long, index + 1)
  }

  /** The points once `resolveKeyForEachPoint` has run: each keeps its coordinates and gets its position plus one as key. */
  function KeyPoints(ps: seq<Point>): (r: seq<TaggedPoint>)
    ensures |r| == |ps|
    ensures forall j :: 0 <= j < |ps| ==> r[j] == Tag(j)(ps[j])
  {
    seq(|ps|, j requires 0 <= j < |ps| => Keyed(ps[j].lat, ps[j].long, j + 1))
  }

  /** The tagged points are keyed 1 to n in order, so no two share a key. */
  lemma KeyPointsKeys(ps: seq<Point>)
    ensures Keys(KeyPoints(ps)) == seq(|ps|, j => j + 1)
    ensures forall i, j :: 0 <= i < j < |ps| ==> KeyPoints(ps)[i].key < KeyPoints(ps)[j].key
  {
  }

  /** The remaining points whose keys have not been visited: `whereNotIn($key, $this->pointsAppendedBefore)`. */
  function Unvisited(pts: seq<TaggedPoint>, visited: seq<int>): (r: seq<TaggedPoint>)
    ensures |r| <= |pts|
    ensures forall p :: p in r <==> p in pts && p.key !in visited
  {
    if |pts| == 0 then []
    else if pts[|pts| - 1].key in visited then Unvisited(pts[..|pts| - 1], visited)
    else Unvisited(pts[..|pts| - 1], visited) + [pts[|pts| - 1]]
  }

  /** Dropping a visited key that some remaining point has leaves fewer points. */
  lemma {:induction false} UnvisitedShrinks(pts: seq<TaggedPoint>, visited: seq<int>, j: nat)
    requires j < |pts| && pts[j].key in visited
    ensures |Unvisited(pts, visited)| < |pts|
  {
    var n := |pts| - 1;
    if j < n {
      UnvisitedShrinks(pts[..n], visited, j);
    }
  }

  /** The first point with the key: `$points[collect($points)->where($key, $k)->keys()[0]]`. */
  function WithKey(pts: seq<TaggedPoint>, k: int): (r: Option<TaggedPoint>)
    ensures r.Some? <==> k in Keys(pts)
    ensures r.Some? ==> r.value in pts && r.value.key == k
    ensures r.Some? ==> exists j :: 0 <= j < |pts| && pts[j] == r.value && (forall i :: 0 <= i < j ==> pts[i].key != k)
  {
    var j := KeyIndex(pts, k);
    if j < |pts| then
      assert Keys(pts)[j] == k;
      Some(pts[j])
    else
      assert forall i :: 0 <= i < |pts| ==> Keys(pts)[i] != k;
      None
  }

  /** The position of the first point with the key, or the length when there is none. */
  function KeyIndex(pts: seq<TaggedPoint>, k: int): (r: nat)
    ensures r <= |pts| && (r < |pts| ==> pts[r].key == k)
    ensures forall i :: 0 <= i < r ==> pts[i].key != k
  {
    if |pts| == 0 || pts[0].key == k then 0
    else
      var r := KeyIndex(pts[1..], k);
      assert forall i :: 1 <= i < r + 1 ==> pts[i] == pts[1..][i - 1];
      r + 1
  }

  // ----- measuring -----

  /**
   * The calculator a tour measures with, before the two points go in: the
   * results cleared and the options set to kilometres.
   */
  function Base(s: State): (r: State)
    ensures r.storage == Empty() && r.result == Empty() && r.points == [] && r.longs == []
    ensures r.options == KmOptions() && SameConfig(r, s.(points := [], options := KmOptions()))
  {
    ClearResult(s).(options := KmOptions())
  }

  /** States with the same base have the same visited keys and the same units table. */
  lemma BaseKeeps(a: State, b: State)
    requires Base(a) == Base(b)
    ensures a.appended == b.appended && a.units == b.units
    ensures |b.appended| <= |a.appended| && a.appended[..|b.appended|] == b.appended
  {
    assert Base(a).appended == a.appended && Base(b).appended == b.appended;
  }

  /** `->setPoints([[$a[0], $a[1]], [$b[0], $b[1]]])->setOptions(['units' => ['km']])` on a cleared calculator. */
  function MeasureSetup(s: State, a: Point, b: Point): (r: State)
  {
    Base(s).(points := [Coord(a.lat, a.long), Coord(b.lat, b.long)])
  }

  /**
   * The loop body of `nearestNeighborAlgorithm` on a candidate: the distance
   * from a to b read as `$result->first()['km']`.
   */
  function Measure(env: Env, s: State, a: Point, b: Point): (r: Run<Value>)
    ensures SameConfig(r.st, MeasureSetup(s, a, b))
  {
    if GetDistance(env, MeasureSetup(s, a, b)).out.Err? then
      Run(GetDistance(env, MeasureSetup(s, a, b)).st, Err(GetDistance(env, MeasureSetup(s, a, b)).out.error))
    else Run(GetDistance(env, MeasureSetup(s, a, b)).st, FirstField(GetDistance(env, MeasureSetup(s, a, b)).out.value, "km"))
  }

  /** The kilometres between a and b, measured with a longitude difference of their own. */
  function Km(env: Env, units: PhpArray<string, real>, a: Point, b: Point): real
    requires "km" in units.vals
  {
    KmBetween(env, units, a.lat, a.long, b.lat, b.long)
  }

  /** The kilometres between two coordinates, measured with the difference of their longitudes. */
  function KmBetween(env: Env, units: PhpArray<string, real>, aLat: real, aLong: real, bLat: real, bLong: real): real
    requires "km" in units.vals
  {
    InUnit(PairMiles(env.trig, Coord(aLat, aLong), Coord(bLat, bLong), aLong - bLong), units.vals["km"])
  }

  /** With kilometres in the unit table, the measurement succeeds with the distance of the two points alone. */
  lemma MeasureKm(env: Env, s: State, a: Point, b: Point)
    requires "km" in s.units.vals
    ensures Measure(env, s, a, b).out == Ok(Num(Km(env, s.units, a, b)))
  {
    var c := MeasureSetup(s, a, b);
    assert UnitsOf(c.options) == ["km"];
    assert !IsSet(c.storage, "");
    assert Plain(c);
    SetupMiles(env, s, a, b);
    FirstPairIn(env, c, "km");
  }

  /** The two points measured are the two given, with their own longitude difference. */
  lemma SetupMiles(env: Env, s: State, a: Point, b: Point)
    ensures Miles(env, MeasureSetup(s, a, b), 0) == PairMiles(env.trig, Coord(a.lat, a.long), Coord(b.lat, b.long), a.long - b.long)
  {
    var c := MeasureSetup(s, a, b);
    assert FirstDelta(c.longs, c.points) == a.long - b.long;
  }

  /** Without kilometres in the unit table, the measurement throws. */
  lemma MeasureNoKm(env: Env, s: State, a: Point, b: Point)
    requires "km" !in s.units.vals
    ensures Measure(env, s, a, b).out == Err(UnknownUnit("km"))
  {
    var c := MeasureSetup(s, a, b);
    assert UnitsOf(c.options) == ["km"];
    DistanceErrors.GetDistanceStops(env, c, 0);
  }

  /** Measuring after a measurement is measuring on the calculator the tour started with. */
  lemma MeasureBase(env: Env, s: State, a: Point, b: Point)
    ensures Base(Measure(env, s, a, b).st) == Base(s)
  {
  }

  /** `$distanceCalc < $distance` with the distance so far a number: numbers compare; anything else is not interpreted. */
  function Below(v: Value, bound: real): (r: Result<bool>)
    ensures v.Num? ==> r == Ok(v.r < bound)
    ensures v.Int? ==> r == Ok((v.i as real) < bound)
    ensures !(v.Num? || v.Int?) ==> r == Err(TypeMismatch)
  {
    match v
    case Num(x) => Ok(x < bound)
    case Int(i) => Ok((i as real) < bound)
    case _ => Err(TypeMismatch)
  }

  // ----- one round -----

  /** The smallest distance so far and the key it was measured to (`''` in the source when there is none). */
  datatype Pick = Pick(best: real, key: Option<int>)

  /**
   * The loop body of a round on a candidate q, once the results are
   * cleared: its distance measured, and its key taken when that is strictly
   * below the smallest so far.
   */
  function Consider(env: Env, c: State, last: TaggedPoint, q: TaggedPoint, p: Pick): (r: Run<Pick>)
    ensures Base(r.st) == Base(c)
    ensures r.out.Ok? ==> r.out.value == p || r.out.value.key == Some(q.key)
  {
    Judge(Measure(env, c, last, q), q, p)
  }

  /** What a round does with the measurement m of candidate q: fail with it, or keep q when it is below the best so far. */
  function Judge(m: Run<Value>, q: TaggedPoint, p: Pick): (r: Run<Pick>)
    ensures r.st == m.st
    ensures r.out.Ok? ==> r.out.value == p || r.out.value.key == Some(q.key)
  {
    if m.out.Err? then Run(m.st, Err(m.out.error))
    else match Below(m.out.value, p.best)
      case Err(e) => Run(m.st, Err(e))
      case Ok(b) => Run(m.st, Ok(if b then Pick(Amount(m.out.value), Some(q.key)) else p))
  }

  /**
   * The `foreach` of a round from the i-th remaining point on: the results
   * cleared, the last point of the tour itself skipped, every other point
   * considered.
   */
  function Scan(env: Env, s: State, last: TaggedPoint, pts: seq<TaggedPoint>, i: nat, p: Pick): (r: Run<Pick>)
    requires i <= |pts|
    ensures Base(r.st) == Base(s)
    ensures r.out.Ok? && r.out.value.key != p.key ==> r.out.value.key.Some? && r.out.value.key.value in Keys(pts[i..])
    decreases |pts| - i
  {
    if i == |pts| then Run(s, Ok(p))
    else
      assert Keys(pts[i..]) == [pts[i].key] + Keys(pts[i + 1..]);
      if pts[i].key == last.key then Scan(env, ClearResult(s), last, pts, i + 1, p)
      else
        var t := Consider(env, ClearResult(s), last, pts[i], p);
        if t.out.Err? then t else Scan(env, t.st, last, pts, i + 1, t.out.value)
  }

  /** The last point of the tour is passed over with the results cleared. */
  lemma ScanSkip(env: Env, s: State, last: TaggedPoint, pts: seq<TaggedPoint>, i: nat, p: Pick)
    requires i < |pts| && pts[i].key == last.key
    ensures Scan(env, s, last, pts, i, p) == Scan(env, ClearResult(s), last, pts, i + 1, p)
  {
  }

  /**
   * Another point is considered on the cleared calculator; a failure ends
   * the scan, otherwise it goes on from the state and the pick that left.
   */
  lemma ScanNext(env: Env, s: State, last: TaggedPoint, pts: seq<TaggedPoint>, i: nat, p: Pick, cst: State, cout: Result<Pick>)
    requires i < |pts| && pts[i].key != last.key
    requires Run(cst, cout) == Consider(env, ClearResult(s), last, pts[i], p)
    ensures cout.Err? ==> Scan(env, s, last, pts, i, p) == Run(cst, cout)
    ensures cout.Ok? ==> Scan(env, s, last, pts, i, p) == Scan(env, cst, last, pts, i + 1, cout.value)
  {
  }

  /**
   * The rounds of `nearestNeighborAlgorithm` once the tour holds its first
   * point: while points remain, the scan from the last point of the tour;
   * the only remaining point when there is one; the chosen point added to
   * the tour under its key and the key recorded as visited; the visited
   * keys dropped from the remaining points. A round that chooses nothing
   * fails reading the point with key `''`.
   */
  function Tour(env: Env, s: State, res: PhpArray<int, TaggedPoint>, pts: seq<TaggedPoint>): (r: Run<PhpArray<int, TaggedPoint>>)
    requires |res.keys| > 0
    ensures |s.appended| <= |r.st.appended| && r.st.appended[..|s.appended|] == s.appended
    decreases |pts|
  {
    if |pts| == 0 then Run(s, Ok(res))
    else
      var sc := Scan(env, s, LastValue(res), pts, 0, Pick(Sentinel, None));
      BaseKeeps(sc.st, s);
      if sc.out.Err? then Run(sc.st, Err(sc.out.error))
      else
        var key := Decide(pts, sc.out.value.key);
        if key.None? then Run(sc.st, Err(UndefinedIndex(0)))
        else
          var st := sc.st.(appended := sc.st.appended + [key.value]);
          KeyShrinks(pts, st.appended, key.value);
          var r := Tour(env, st, Put(res, key.value, WithKey(pts, key.value).value), Unvisited(pts, st.appended));
          Prefixes(s.appended, st.appended, r.st.appended);
          r
  }

  /**
   * One round of the tour in terms of what the scan left and returned: a
   * failing scan or a round that chooses nothing stops the tour, and
   * otherwise the tour goes on with the chosen key recorded, its point
   * added under it and the visited points dropped.
   */
  lemma TourStep(env: Env, s: State, res: PhpArray<int, TaggedPoint>, pts: seq<TaggedPoint>, sst: State, sout: Result<Pick>)
    requires |res.keys| > 0 && |pts| > 0
    requires Run(sst, sout) == Scan(env, s, LastValue(res), pts, 0, Pick(Sentinel, None))
    ensures sout.Err? ==> Tour(env, s, res, pts) == Run(sst, Err(sout.error))
    ensures sout.Ok? ==> sout.value.key.Some? ==> sout.value.key.value in Keys(pts[0..])
    ensures sout.Ok? && Decide(pts, sout.value.key).None? ==> Tour(env, s, res, pts) == Run(sst, Err(UndefinedIndex(0)))
    ensures sout.Ok? && Decide(pts, sout.value.key).Some? ==>
      var k := Decide(pts, sout.value.key).value;
      Advances(env, s, res, pts, sst.(appended := sst.appended + [k]), k, Put(res, k, WithKey(pts, k).value))
  {
    if sout.Ok? && Decide(pts, sout.value.key).Some? {
      TourAdvance(env, s, res, pts, sst, sout.value, Decide(pts, sout.value.key).value);
    }
  }

  /** A scan that chooses key k advances the tour by k. */
  lemma TourAdvance(env: Env, s: State, res: PhpArray<int, TaggedPoint>, pts: seq<TaggedPoint>, sst: State, p: Pick, k: int)
    requires |res.keys| > 0 && |pts| > 0
    requires Run(sst, Ok(p)) == Scan(env, s, LastValue(res), pts, 0, Pick(Sentinel, None))
    requires p.key.Some? ==> p.key.value in Keys(pts[0..])
    requires Decide(pts, p.key) == Some(k)
    ensures Advances(env, s, res, pts, sst.(appended := sst.appended + [k]), k, Put(res, k, WithKey(pts, k).value))
  {
    var st := sst.(appended := sst.appended + [k]);
    KeyShrinks(pts, st.appended, k);
    TourRound(env, s, res, pts, sst, p, k);
    AdvancesBy(env, s, res, pts, st, k, Put(res, k, WithKey(pts, k).value));
  }

  /** What an advance gives the next round: fewer points, a non-empty tour, the same tour from the state the round left. */
  lemma AdvanceOn(env: Env, s: State, res: PhpArray<int, TaggedPoint>, pts: seq<TaggedPoint>, st: State, k: int, tour: PhpArray<int, TaggedPoint>, rest: seq<TaggedPoint>)
    requires Advances(env, s, res, pts, st, k, tour) && rest == Unvisited(pts, st.appended)
    ensures |res.keys| > 0 && |tour.keys| > 0 && |rest| < |pts|
    ensures Tour(env, s, res, pts) == Tour(env, st, tour, rest)
  {
  }

  /** The parts of an advance put together. */
  lemma AdvancesBy(env: Env, s: State, res: PhpArray<int, TaggedPoint>, pts: seq<TaggedPoint>, st: State, k: int, tour: PhpArray<int, TaggedPoint>)
    requires |res.keys| > 0 && k in Keys(pts) && WithKey(pts, k).Some? && tour == Put(res, k, WithKey(pts, k).value)
    requires |Unvisited(pts, st.appended)| < |pts|
    requires Tour(env, s, res, pts) == Tour(env, st, tour, Unvisited(pts, st.appended))
    ensures Advances(env, s, res, pts, st, k, tour)
  {
  }

  /** The tour after a round that chose k, by the definition of the tour. */
  lemma TourRound(env: Env, s: State, res: PhpArray<int, TaggedPoint>, pts: seq<TaggedPoint>, sst: State, p: Pick, k: int)
    requires |res.keys| > 0 && |pts| > 0
    requires Run(sst, Ok(p)) == Scan(env, s, LastValue(res), pts, 0, Pick(Sentinel, None))
    requires p.key.Some? ==> p.key.value in Keys(pts[0..])
    requires Decide(pts, p.key) == Some(k)
    ensures WithKey(pts, k).Some?
    ensures Tour(env, s, res, pts) == Tour(env, sst.(appended := sst.appended + [k]), Put(res, k, WithKey(pts, k).value), Unvisited(pts, sst.appended + [k]))
  {
  }

  /**
   * The tour goes on after a round that chose key k: k is a remaining key,
   * tour is res with k's point added under k, fewer points remain once the
   * keys visited by st are dropped, and the tour from s is the tour from st
   * over those.
   */
  ghost predicate Advances(env: Env, s: State, res: PhpArray<int, TaggedPoint>, pts: seq<TaggedPoint>, st: State, k: int, tour: PhpArray<int, TaggedPoint>) {
    |res.keys| > 0 && k in Keys(pts) && WithKey(pts, k).Some? && tour == Put(res, k, WithKey(pts, k).value) &&
    |tour.keys| > 0 && |Unvisited(pts, st.appended)| < |pts| &&
    Tour(env, s, res, pts) == Tour(env, st, tour, Unvisited(pts, st.appended))
  }

  /** The key a round appends: that of the only remaining point when there is one, the scan's otherwise. */
  function Decide(pts: seq<TaggedPoint>, scanned: Option<int>): (r: Option<int>)
    requires |pts| > 0 && (scanned.Some? ==> scanned.value in Keys(pts[0..]))
    ensures r.Some? ==> r.value in Keys(pts)
    ensures |pts| == 1 ==> r == Some(pts[0].key)
    ensures |pts| > 1 ==> r == scanned
  {
    assert pts[0..] == pts;
    if |pts| == 1 then Some(pts[0].key) else scanned
  }

  /** Dropping a visited key that some remaining point has leaves fewer points. */
  lemma KeyShrinks(pts: seq<TaggedPoint>, visited: seq<int>, k: int)
    requires k in Keys(pts) && k in visited
    ensures |Unvisited(pts, visited)| < |pts|
  {
    var j :| 0 <= j < |pts| && Keys(pts)[j] == k;
    UnvisitedShrinks(pts, visited, j);
  }

  /** A prefix of a prefix is a prefix. */
  lemma Prefixes(a: seq<int>, b: seq<int>, c: seq<int>)
    requires |a| <= |b| && b[..|a|] == a && |b| <= |c| && c[..|b|] == b
    ensures |a| <= |c| && c[..|a|] == a
  {
    assert c[..|a|] == c[..|b|][..|a|];
  }

  /**
   * `nearestNeighborAlgorithm($points)` with its defaults (no tour yet, a
   * size of 0, the key `'key'`): the first point as the tour's entry 0 with
   * 0 recorded as visited, then the rounds.
   */
  function NearestNeighbor(env: Env, s: State, points: seq<TaggedPoint>): (r: Run<PhpArray<int, TaggedPoint>>)
    requires |points| > 0
    ensures |s.appended| < |r.st.appended| && r.st.appended[..|s.appended| + 1] == s.appended + [0]
  {
    Tour(env, s.(appended := s.appended + [0]), Single(0, points[0]), points)
  }

  /**
   * `getOrderByNearestNeighbor()`: the points tagged, the main point put
   * first with key 0, and the tour of them all. Without a main point,
   * reading its latitude fails.
   */
  function OrderByNearestNeighbor(env: Env, s: State): (r: Run<PhpArray<int, TaggedPoint>>)
    ensures s.mainPoint.None? ==> r.out == Err(UndefinedIndex(0))
    ensures s.mainPoint.Some? ==> |s.appended| < |r.st.appended| && r.st.appended[..|s.appended| + 1] == s.appended + [0]
  {
    if s.mainPoint.None? then Run(s.(points := KeyPoints(s.points)), Err(UndefinedIndex(0)))
    else NearestNeighbor(env, s.(points := Planned(s.mainPoint.value, s.points)), Planned(s.mainPoint.value, s.points))
  }

  // ----- what a round chooses -----

  /** The distances in kilometres from `last` to each point. */
  function KmTo(env: Env, units: PhpArray<string, real>, last: Point, pts: seq<TaggedPoint>): (r: seq<real>)
    requires "km" in units.vals
    ensures |r| == |pts| && forall j :: 0 <= j < |pts| ==> r[j] == Km(env, units, last, pts[j])
  {
    seq(|pts|, j requires 0 <= j < |pts| => Km(env, units, last, pts[j]))
  }

  /**
   * The choice of a scan over known distances ds, point i on: every point
   * without the last point's key is a candidate, and a candidate strictly
   * below the smallest so far replaces it.
   */
  function Choose(ds: seq<real>, pts: seq<TaggedPoint>, lastKey: int, i: nat, p: Pick): Pick
    requires |ds| == |pts| && i <= |pts|
    decreases |pts| - i
  {
    if i == |pts| then p
    else if pts[i].key == lastKey then Choose(ds, pts, lastKey, i + 1, p)
    else Choose(ds, pts, lastKey, i + 1, if ds[i] < p.best then Pick(ds[i], Some(pts[i].key)) else p)
  }

  /** With kilometres in the unit table, a scan measures every candidate and chooses between their distances. */
  lemma {:induction false} ScanKm(env: Env, s: State, last: TaggedPoint, pts: seq<TaggedPoint>, i: nat, p: Pick)
    requires "km" in s.units.vals && i <= |pts|
    ensures Scan(env, s, last, pts, i, p).out == Ok(Choose(KmTo(env, s.units, last, pts), pts, last.key, i, p))
    decreases |pts| - i
  {
    ScanKmFrom(env, s, s.units, KmTo(env, s.units, last, pts), last, pts, i, p);
  }

  /** ScanKm with the unit table and the distances fixed along the induction. */
  lemma {:induction false} ScanKmFrom(env: Env, s: State, units: PhpArray<string, real>, ds: seq<real>,
                                       last: TaggedPoint, pts: seq<TaggedPoint>, i: nat, p: Pick)
    requires "km" in units.vals && s.units == units && ds == KmTo(env, units, last, pts) && i <= |pts|
    ensures Scan(env, s, last, pts, i, p).out == Ok(Choose(ds, pts, last.key, i, p))
    decreases |pts| - i
  {
    if i < |pts| {
      var c := ClearResult(s);
      if pts[i].key == last.key {
        ScanKmFrom(env, c, units, ds, last, pts, i + 1, p);
      } else {
        var t := Consider(env, c, last, pts[i], p);
        ConsiderKm(env, c, last, pts[i], p);
        ScanKmFrom(env, t.st, units, ds, last, pts, i + 1, t.out.value);
      }
    }
  }

  /** With kilometres in the unit table, considering a candidate succeeds with its distance in kilometres. */
  lemma ConsiderKm(env: Env, c: State, last: TaggedPoint, q: TaggedPoint, p: Pick)
    requires "km" in c.units.vals
    ensures var d := Km(env, c.units, last, q);
      Consider(env, c, last, q, p) == Run(Measure(env, c, last, q).st, Ok(if d < p.best then Pick(d, Some(q.key)) else p))
  {
    MeasureKm(env, c, last, q);
    JudgeNum(Measure(env, c, last, q), q, p, Km(env, c.units, last, q));
  }

  /** A measurement that gave the number d keeps q exactly when d is below the best so far. */
  lemma JudgeNum(m: Run<Value>, q: TaggedPoint, p: Pick, d: real)
    requires m.out == Ok(Num(d))
    ensures Judge(m, q, p) == Run(m.st, Ok(if d < p.best then Pick(d, Some(q.key)) else p))
  {
  }

  /** No candidate from i on is strictly below the bound. */
  ghost predicate NoneBelow(ds: seq<real>, pts: seq<TaggedPoint>, lastKey: int, i: nat, bound: real)
    requires |ds| == |pts|
  {
    forall m :: i <= m < |pts| && pts[m].key != lastKey ==> bound <= ds[m]
  }

  /** The candidate at j, from i on, is below the bound, no candidate is smaller, and every earlier one is larger. */
  ghost predicate EarliestMin(ds: seq<real>, pts: seq<TaggedPoint>, lastKey: int, i: nat, bound: real, j: int)
    requires |ds| == |pts|
  {
    i <= j < |pts| && pts[j].key != lastKey && ds[j] < bound &&
    (forall m :: i <= m < |pts| && pts[m].key != lastKey ==> ds[j] <= ds[m]) &&
    (forall m :: i <= m < j && pts[m].key != lastKey ==> ds[j] < ds[m])
  }

  /**
   * Strict `<` makes the scan choose the earliest of the smallest candidate
   * distances, when it is below the smallest so far, and keep what it had
   * otherwise.
   */
  lemma {:induction false} ChooseSpec(ds: seq<real>, pts: seq<TaggedPoint>, lastKey: int, i: nat, p: Pick)
    requires |ds| == |pts| && i <= |pts|
    ensures (NoneBelow(ds, pts, lastKey, i, p.best) && Choose(ds, pts, lastKey, i, p) == p) ||
            (exists j :: EarliestMin(ds, pts, lastKey, i, p.best, j) && Choose(ds, pts, lastKey, i, p) == Pick(ds[j], Some(pts[j].key)))
    decreases |pts| - i
  {
    if i < |pts| {
      if pts[i].key == lastKey {
        ChooseSpec(ds, pts, lastKey, i + 1, p);
        if !NoneBelow(ds, pts, lastKey, i + 1, p.best) || Choose(ds, pts, lastKey, i, p) != p {
          var j :| EarliestMin(ds, pts, lastKey, i + 1, p.best, j) && Choose(ds, pts, lastKey, i, p) == Pick(ds[j], Some(pts[j].key));
          assert EarliestMin(ds, pts, lastKey, i, p.best, j);
        }
      } else if ds[i] < p.best {
        var q := Pick(ds[i], Some(pts[i].key));
        ChooseSpec(ds, pts, lastKey, i + 1, q);
        if NoneBelow(ds, pts, lastKey, i + 1, q.best) && Choose(ds, pts, lastKey, i + 1, q) == q {
          assert EarliestMin(ds, pts, lastKey, i, p.best, i);
        } else {
          var j :| EarliestMin(ds, pts, lastKey, i + 1, q.best, j) && Choose(ds, pts, lastKey, i + 1, q) == Pick(ds[j], Some(pts[j].key));
          assert EarliestMin(ds, pts, lastKey, i, p.best, j);
        }
      } else {
        ChooseSpec(ds, pts, lastKey, i + 1, p);
        if !NoneBelow(ds, pts, lastKey, i + 1, p.best) || Choose(ds, pts, lastKey, i + 1, p) != p {
          var j :| EarliestMin(ds, pts, lastKey, i + 1, p.best, j) && Choose(ds, pts, lastKey, i + 1, p) == Pick(ds[j], Some(pts[j].key));
          assert EarliestMin(ds, pts, lastKey, i, p.best, j);
        }
      }
    }
  }

  /**
   * A round of the tour, with kilometres in the unit table, measures without
   * failing and chooses the earliest remaining point, other than the last
   * one of the tour, at the smallest distance from it, when that distance
   * is below the sentinel; it chooses nothing otherwise.
   */
  lemma RoundChoice(env: Env, s: State, last: TaggedPoint, pts: seq<TaggedPoint>)
    requires "km" in s.units.vals
    ensures var ds := KmTo(env, s.units, last, pts);
      var r := Scan(env, s, last, pts, 0, Pick(Sentinel, None));
      r.out.Ok? &&
      ((r.out.value.key.None? && NoneBelow(ds, pts, last.key, 0, Sentinel)) ||
       (exists j :: EarliestMin(ds, pts, last.key, 0, Sentinel, j) && r.out.value == Pick(ds[j], Some(pts[j].key))))
  {
    ScanKm(env, s, last, pts, 0, Pick(Sentinel, None));
    ChooseSpec(KmTo(env, s.units, last, pts), pts, last.key, 0, Pick(Sentinel, None));
  }

  /** Without kilometres in the unit table, a round with a candidate fails with the unit's exception. */
  lemma {:induction false} ScanNoKm(env: Env, s: State, last: TaggedPoint, pts: seq<TaggedPoint>, i: nat, p: Pick, j: nat)
    requires "km" !in s.units.vals && i <= j < |pts| && pts[j].key != last.key
    ensures Scan(env, s, last, pts, i, p).out == Err(UnknownUnit("km"))
    decreases |pts| - i
  {
    if pts[i].key == last.key {
      ScanNoKm(env, ClearResult(s), last, pts, i + 1, p, j);
    } else {
      MeasureNoKm(env, ClearResult(s), last, pts[i]);
      assert Consider(env, ClearResult(s), last, pts[i], p).out == Err(UnknownUnit("km"));
    }
  }

  // ----- what the tour holds -----

  /** No two points share a key. */
  ghost predicate DistinctKeys(pts: seq<TaggedPoint>) {
    forall i, j :: 0 <= i < |pts| && 0 <= j < |pts| && pts[i].key == pts[j].key ==> i == j
  }

  /** The tour holds points under their own keys. */
  ghost predicate Faithful(points: seq<TaggedPoint>, res: PhpArray<int, TaggedPoint>) {
    (forall k :: k in res.vals ==> k in Keys(points)) &&
    (forall j :: 0 <= j < |points| && points[j].key in res.vals ==> res.vals[points[j].key] == points[j])
  }

  /** The remaining points are points, and a remaining point is in the tour exactly when its key was visited. */
  ghost predicate Remaining(points: seq<TaggedPoint>, res: PhpArray<int, TaggedPoint>, pts: seq<TaggedPoint>, visited: seq<int>) {
    forall q :: q in pts ==> q in points && (q.key in res.vals <==> q.key in visited)
  }

  /** Every point is in the tour or still remains. */
  ghost predicate Covered(points: seq<TaggedPoint>, res: PhpArray<int, TaggedPoint>, pts: seq<TaggedPoint>) {
    forall j :: 0 <= j < |points| ==> points[j].key in res.vals || points[j] in pts
  }

  /** What holds between the rounds of a tour of `points`. */
  ghost predicate TourInv(points: seq<TaggedPoint>, res: PhpArray<int, TaggedPoint>, pts: seq<TaggedPoint>, visited: seq<int>) {
    DistinctKeys(points) && |res.keys| > 0 && res.keys[0] == 0 &&
    Faithful(points, res) && Remaining(points, res, pts, visited) && Covered(points, res, pts)
  }

  /** A complete tour of `points`: entry 0 first, and exactly the points' keys, each with its point. */
  ghost predicate Complete(points: seq<TaggedPoint>, res: PhpArray<int, TaggedPoint>) {
    |res.keys| > 0 && res.keys[0] == 0 &&
    (forall k :: k in res.vals <==> k in Keys(points)) &&
    (forall j :: 0 <= j < |points| ==> points[j].key in res.vals && res.vals[points[j].key] == points[j])
  }

  /** The chosen point of a round is the point with the chosen key. */
  lemma ChosenPoint(points: seq<TaggedPoint>, res: PhpArray<int, TaggedPoint>, pts: seq<TaggedPoint>, visited: seq<int>, k: int)
    requires TourInv(points, res, pts, visited) && k in Keys(pts)
    ensures WithKey(pts, k).Some? && WithKey(pts, k).value in points && WithKey(pts, k).value.key == k
    ensures forall j :: 0 <= j < |points| && points[j].key == k ==> points[j] == WithKey(pts, k).value
  {
    var c := WithKey(pts, k).value;
    var i :| 0 <= i < |points| && points[i] == c;
    forall j | 0 <= j < |points| && points[j].key == k
      ensures points[j] == c
    {
      assert points[i].key == points[j].key;
    }
  }

  /** A round that chooses a remaining key keeps what holds between rounds. */
  lemma RoundKeeps(points: seq<TaggedPoint>, res: PhpArray<int, TaggedPoint>, pts: seq<TaggedPoint>, visited: seq<int>, k: int)
    requires TourInv(points, res, pts, visited) && k in Keys(pts)
    ensures WithKey(pts, k).Some?
    ensures TourInv(points, Put(res, k, WithKey(pts, k).value), Unvisited(pts, visited + [k]), visited + [k])
  {
    ChosenPoint(points, res, pts, visited, k);
    var c := WithKey(pts, k).value;
    var res' := Put(res, k, c);
    var pts' := Unvisited(pts, visited + [k]);
    assert res'.keys[0] == 0;
    forall q | q in pts'
      ensures q in points && (q.key in res'.vals <==> q.key in visited + [k])
    {
      assert q in pts && q.key !in visited + [k];
    }
    forall j | 0 <= j < |points|
      ensures points[j].key in res'.vals || points[j] in pts'
    {
      if points[j].key !in res.vals && points[j].key != k {
        assert points[j] in pts;
      }
    }
  }

  /** With no point remaining, the tour is complete. */
  lemma Finished(points: seq<TaggedPoint>, res: PhpArray<int, TaggedPoint>, visited: seq<int>)
    requires TourInv(points, res, [], visited)
    ensures Complete(points, res)
  {
    forall k | k in Keys(points)
      ensures k in res.vals
    {
      var j :| 0 <= j < |points| && Keys(points)[j] == k;
      assert points[j].key in res.vals;
    }
  }

  /** A tour whose rounds keep what holds between them ends, when it does not fail, complete. */
  lemma {:induction false} TourCompletes(env: Env, s: State, res: PhpArray<int, TaggedPoint>, pts: seq<TaggedPoint>, points: seq<TaggedPoint>)
    requires TourInv(points, res, pts, s.appended)
    ensures Tour(env, s, res, pts).out.Ok? ==> Complete(points, Tour(env, s, res, pts).out.value)
    decreases |pts|
  {
    if |pts| == 0 {
      Finished(points, res, s.appended);
    } else {
      var sc := Scan(env, s, LastValue(res), pts, 0, Pick(Sentinel, None));
      if sc.out.Ok? {
        var key := Decide(pts, sc.out.value.key);
        if key.Some? {
          assert sc.st.appended == s.appended;
          var st := sc.st.(appended := sc.st.appended + [key.value]);
          RoundKeeps(points, res, pts, s.appended, key.value);
          KeyShrinks(pts, st.appended, key.value);
          assert Tour(env, s, res, pts) == Tour(env, st, Put(res, key.value, WithKey(pts, key.value).value), Unvisited(pts, st.appended));
          TourCompletes(env, st, Put(res, key.value, WithKey(pts, key.value).value), Unvisited(pts, st.appended), points);
        } else {
          assert Tour(env, s, res, pts) == Run(sc.st, Err(UndefinedIndex(0)));
        }
      } else {
        assert Tour(env, s, res, pts) == Run(sc.st, Err(sc.out.error));
      }
    }
  }

  /** The tour starts as entry 0 holding the first point, keyed 0, with 0 visited. */
  lemma StartKeeps(points: seq<TaggedPoint>, appended: seq<int>)
    requires |points| > 0 && points[0].key == 0 && DistinctKeys(points)
    requires forall j :: 1 <= j < |points| ==> points[j].key !in appended
    ensures TourInv(points, Single(0, points[0]), points, appended + [0])
  {
    assert Keys(points)[0] == 0;
    var res := Single(0, points[0]);
    forall q | q in points
      ensures q.key in res.vals <==> q.key in appended + [0]
    {
      var j :| 0 <= j < |points| && points[j] == q;
      if j > 0 {
        assert points[j].key != points[0].key;
      }
    }
  }

  /** A sequence without repetitions has as many distinct elements as it is long. */
  lemma {:induction false} UniqueCard<K>(s: seq<K>)
    requires Unique(s)
    ensures |set x | x in s| == |s|
  {
    if |s| > 0 {
      var t := s[..|s| - 1];
      assert Unique(t) by {
        forall i, j | 0 <= i < j < |t|
          ensures At(t, i) != At(t, j)
        {
          assert At(t, i) == At(s, i) && At(t, j) == At(s, j);
        }
      }
      UniqueCard(t);
      assert s[|s| - 1] !in t by {
        forall i | 0 <= i < |t|
          ensures t[i] != s[|s| - 1]
        {
          assert At(s, i) != At(s, |s| - 1);
        }
      }
      assert s == t + [s[|s| - 1]];
      assert (set x | x in s) == (set x | x in t) + {s[|s| - 1]};
    }
  }

  /** A complete tour has one entry per point. */
  lemma CompleteLength(points: seq<TaggedPoint>, res: PhpArray<int, TaggedPoint>)
    requires Complete(points, res) && DistinctKeys(points)
    ensures |res.keys| == |points|
  {
    MembershipAll(res);
    UniqueCard(res.keys);
    var ks := Keys(points);
    assert Unique(ks) by {
      forall i, j | 0 <= i < j < |ks|
        ensures At(ks, i) != At(ks, j)
      {
        assert points[i].key != points[j].key;
      }
    }
    UniqueCard(ks);
    assert (set x | x in res.keys) == (set x | x in ks) by {
      forall x ensures x in res.keys <==> x in ks {
        assert x in res.keys <==> x in res.vals;
      }
    }
  }

  /**
   * With distinct keys, the first one 0, and none of the others visited
   * before, `nearestNeighborAlgorithm` returns, when it does not fail, a tour
   * that starts with entry 0 and holds every point once, under its own key.
   */
  lemma NearestNeighborComplete(env: Env, s: State, points: seq<TaggedPoint>)
    requires |points| > 0 && points[0].key == 0 && DistinctKeys(points)
    requires forall j :: 1 <= j < |points| ==> points[j].key !in s.appended
    ensures var r := NearestNeighbor(env, s, points);
      r.out.Ok? ==> Complete(points, r.out.value) && |r.out.value.keys| == |points|
  {
    StartKeeps(points, s.appended);
    TourCompletes(env, s.(appended := s.appended + [0]), Single(0, points[0]), points, points);
    var r := NearestNeighbor(env, s, points);
    if r.out.Ok? {
      CompleteLength(points, r.out.value);
    }
  }

  /** The points `getOrderByNearestNeighbor` plans a tour of: the main point with key 0, then the tagged points. */
  function Planned(main: Point, ps: seq<Point>): (r: seq<TaggedPoint>)
    ensures |r| == |ps| + 1 && r[0] == Keyed(main.lat, main.long, 0)
    ensures forall j :: 0 <= j < |ps| ==> r[j + 1] == Keyed(ps[j].lat, ps[j].long, j + 1)
    ensures forall j :: 0 <= j < |r| ==> r[j].key == j
  {
    [Keyed(main.lat, main.long, 0)] + KeyPoints(ps)
  }

  /** A tour of the points whose entries are the main point under key 0 and the point at i under key i + 1. */
  ghost predicate Ordered(main: Point, ps: seq<Point>, res: PhpArray<int, TaggedPoint>)
  {
    |res.keys| == |ps| + 1 && res.keys[0] == 0 &&
    (forall k :: k in res.vals <==> 0 <= k <= |ps|) &&
    res.vals[0] == Keyed(main.lat, main.long, 0) &&
    (forall i :: 0 <= i < |ps| ==> res.vals[i + 1] == Keyed(ps[i].lat, ps[i].long, i + 1))
  }

  lemma PlannedOrdered(main: Point, ps: seq<Point>, res: PhpArray<int, TaggedPoint>)
    requires Complete(Planned(main, ps), res) && |res.keys| == |ps| + 1
    ensures Ordered(main, ps, res)
  {
    var points := Planned(main, ps);
    forall k
      ensures k in res.vals <==> 0 <= k <= |ps|
    {
      if 0 <= k <= |ps| {
        assert Keys(points)[k] == k;
      }
    }
    assert points[0].key == 0;
    forall i | 0 <= i < |ps|
      ensures res.vals[i + 1] == Keyed(ps[i].lat, ps[i].long, i + 1)
    {
      assert points[i + 1].key == i + 1;
    }
  }

  /**
   * `getOrderByNearestNeighbor` on a calculator that has not visited the
   * keys 1 to n before: when it does not fail, the tour is entry 0 holding
   * the main point, then the keys 1 to n in some order, key i + 1 holding
   * the point at i with its coordinates.
   */
  lemma OrderComplete(env: Env, s: State)
    requires s.mainPoint.Some? && forall k :: 1 <= k <= |s.points| ==> k !in s.appended
    ensures var r := OrderByNearestNeighbor(env, s);
      r.out.Ok? ==> Ordered(s.mainPoint.value, s.points, r.out.value)
  {
    var points := Planned(s.mainPoint.value, s.points);
    assert DistinctKeys(points);
    NearestNeighborComplete(env, s.(points := points), points);
    var r := NearestNeighbor(env, s.(points := points), points);
    if r.out.Ok? {
      PlannedOrdered(s.mainPoint.value, s.points, r.out.value);
    }
  }

  /** The visited keys are only appended to: a tour extends them, starting with the 0 of its first point. */
  lemma OrderAppends(env: Env, s: State)
    requires s.mainPoint.Some?
    ensures var r := OrderByNearestNeighbor(env, s);
      |s.appended| < |r.st.appended| && r.st.appended[..|s.appended|] == s.appended && r.st.appended[|s.appended|] == 0
  {
    var m := s.mainPoint.value;
    var points := Planned(m, s.points);
    var s0 := s.(points := points).(appended := s.appended + [0]);
    var r := Tour(env, s0, Single(0, points[0]), points);
    assert r.st.appended[..|s.appended|] == r.st.appended[..|s0.appended|][..|s.appended|];
    assert r.st.appended[|s.appended|] == r.st.appended[..|s0.appended|][|s.appended|];
  }

  /** Every two of the points are nearer than the starting bound of a round, in kilometres. */
  ghost predicate Near(env: Env, units: PhpArray<string, real>, points: seq<TaggedPoint>)
    requires "km" in units.vals
  {
    forall a, b :: a in points && b in points ==> Km(env, units, a, b) < Sentinel
  }

  /**
   * What a tour that succeeds needs between rounds, whatever was visited
   * before it: every entry is one of the points with a visited key, the
   * remaining points are points, and a round with two points left has one
   * other than the tour's last to leave for.
   */
  ghost predicate Open(points: seq<TaggedPoint>, res: PhpArray<int, TaggedPoint>, pts: seq<TaggedPoint>, visited: seq<int>) {
    |res.keys| > 0 && Held(points, res, visited) &&
    (forall q :: q in pts ==> q in points) &&
    (|pts| >= 2 ==> exists j :: 0 <= j < |pts| && pts[j].key != LastValue(res).key)
  }

  /** Every entry of the tour is one of the points, with a visited key. */
  ghost predicate Held(points: seq<TaggedPoint>, res: PhpArray<int, TaggedPoint>, visited: seq<int>) {
    forall k :: k in res.vals ==> res.vals[k] in points && res.vals[k].key in visited
  }

  /** So is the tour's last entry. */
  lemma HeldLast(points: seq<TaggedPoint>, res: PhpArray<int, TaggedPoint>, visited: seq<int>)
    requires |res.keys| > 0 && Held(points, res, visited)
    ensures LastValue(res) in points && LastValue(res).key in visited
  {
    var v := LastValue(res);
    var lk := res.keys[|res.keys| - 1];
    assert lk in res.vals && v == res.vals[lk];
    assert res.vals[lk] in points && res.vals[lk].key in visited;
  }

  /** The tour's last point is one of the points. */
  lemma LastIsPoint(points: seq<TaggedPoint>, res: PhpArray<int, TaggedPoint>)
    requires |res.keys| > 0 && Faithful(points, res)
    ensures LastValue(res) in points && LastValue(res).key == res.keys[|res.keys| - 1]
  {
    var v := LastValue(res);
    var k := res.keys[|res.keys| - 1];
    assert k in Keys(points);
    var j :| 0 <= j < |points| && Keys(points)[j] == k;
    assert res.vals[points[j].key] == points[j];
  }

  /** A round in which some point is a candidate and nearer than the bound picks one. */
  lemma RoundPicks(env: Env, s: State, points: seq<TaggedPoint>, last: TaggedPoint, pts: seq<TaggedPoint>, j: int)
    requires "km" in s.units.vals && Near(env, s.units, points) && last in points
    requires 0 <= j < |pts| && pts[j] in points && pts[j].key != last.key
    ensures var r := Scan(env, s, last, pts, 0, Pick(Sentinel, None));
      r.out.Ok? && r.out.value.key.Some?
  {
    RoundChoice(env, s, last, pts);
    var ds := KmTo(env, s.units, last, pts);
    assert ds[j] < Sentinel;
  }

  /** `Open` holds after a round that appends key k. */
  lemma OpenKeeps(points: seq<TaggedPoint>, res: PhpArray<int, TaggedPoint>, pts: seq<TaggedPoint>, visited: seq<int>, k: int)
    requires Open(points, res, pts, visited) && k in Keys(pts)
    ensures WithKey(pts, k).Some?
    ensures Open(points, Put(res, k, WithKey(pts, k).value), Unvisited(pts, visited + [k]), visited + [k])
  {
    var res' := Put(res, k, WithKey(pts, k).value);
    var pts' := Unvisited(pts, visited + [k]);
    assert Held(points, res', visited + [k]);
    HeldLast(points, res', visited + [k]);
    var last := LastValue(res');
    if |pts'| >= 2 {
      assert pts'[0] in pts' && pts'[0].key != last.key;
    }
  }

  /** Under `Open` and `Near`, a round's scan succeeds and a key is appended. */
  lemma RoundOk(env: Env, s: State, res: PhpArray<int, TaggedPoint>, pts: seq<TaggedPoint>, points: seq<TaggedPoint>)
    requires Open(points, res, pts, s.appended) && |pts| > 0
    requires "km" in s.units.vals && Near(env, s.units, points)
    ensures var sc := Scan(env, s, LastValue(res), pts, 0, Pick(Sentinel, None));
      sc.out.Ok? && Decide(pts, sc.out.value.key).Some? && sc.st.units == s.units && sc.st.appended == s.appended
  {
    var last := LastValue(res);
    HeldLast(points, res, s.appended);
    var sc := Scan(env, s, last, pts, 0, Pick(Sentinel, None));
    RoundChoice(env, s, last, pts);
    if |pts| >= 2 {
      var j :| 0 <= j < |pts| && pts[j].key != last.key;
      assert pts[j] in pts;
      RoundPicks(env, s, points, last, pts, j);
    }
    assert Base(sc.st) == Base(s);
  }

  /**
   * When the units table has kilometres and every two points are nearer
   * than the starting bound, every round picks a point and the tour does
   * not fail, whatever keys were visited before.
   */
  lemma {:induction false} TourSucceeds(env: Env, s: State, res: PhpArray<int, TaggedPoint>, pts: seq<TaggedPoint>, points: seq<TaggedPoint>)
    requires Open(points, res, pts, s.appended)
    requires "km" in s.units.vals && Near(env, s.units, points)
    ensures Tour(env, s, res, pts).out.Ok?
    decreases |pts|
  {
    if |pts| > 0 {
      var sc := Scan(env, s, LastValue(res), pts, 0, Pick(Sentinel, None));
      RoundOk(env, s, res, pts, points);
      TourStep(env, s, res, pts, sc.st, sc.out);
      var k := Decide(pts, sc.out.value.key).value;
      var st := sc.st.(appended := s.appended + [k]);
      var res' := Put(res, k, WithKey(pts, k).value);
      var rest := Unvisited(pts, st.appended);
      AdvanceOn(env, s, res, pts, st, k, res', rest);
      OpenKeeps(points, res, pts, s.appended, k);
      TourSucceeds(env, st, res', rest, points);
    }
  }

  /** The main point or one of the points the planned point at i was tagged from. */
  function Source(m: Point, ps: seq<Point>, i: nat): (r: Point)
    requires i <= |ps|
    ensures r == m || r in ps
    ensures Planned(m, ps)[i].lat == r.lat && Planned(m, ps)[i].long == r.long
  {
    if i == 0 then m else ps[i - 1]
  }

  /** Tagging keeps coordinates, so the planned points are near when the main point and the points are. */
  lemma PlannedNear(env: Env, units: PhpArray<string, real>, m: Point, ps: seq<Point>)
    requires "km" in units.vals
    requires forall a, b :: (a == m || a in ps) && (b == m || b in ps) ==> Km(env, units, a, b) < Sentinel
    ensures Near(env, units, Planned(m, ps))
  {
    var points := Planned(m, ps);
    forall a, b | a in points && b in points
      ensures Km(env, units, a, b) < Sentinel
    {
      var i :| 0 <= i < |points| && points[i] == a;
      var j :| 0 <= j < |points| && points[j] == b;
      var a0, b0 := Source(m, ps, i), Source(m, ps, j);
      assert Km(env, units, a0, b0) < Sentinel;
      NearFrom(env, units, a, b, a0, b0);
    }
  }

  /** Points with the coordinates of two near points are near. */
  lemma NearFrom(env: Env, units: PhpArray<string, real>, a: Point, b: Point, a0: Point, b0: Point)
    requires "km" in units.vals && Km(env, units, a0, b0) < Sentinel
    requires a.lat == a0.lat && a.long == a0.long && b.lat == b0.lat && b.long == b0.long
    ensures Km(env, units, a, b) < Sentinel
  {
  }

  /**
   * `getOrderByNearestNeighbor` with a main point, kilometres in the units
   * table and every two of the points nearer than the starting bound does
   * not fail, on a fresh calculator or on one that has ordered before.
   */
  lemma OrderSucceeds(env: Env, s: State)
    requires s.mainPoint.Some? && "km" in s.units.vals
    requires forall a, b :: (a == s.mainPoint.value || a in s.points) && (b == s.mainPoint.value || b in s.points) ==>
      Km(env, s.units, a, b) < Sentinel
    ensures OrderByNearestNeighbor(env, s).out.Ok?
  {
    var points := Planned(s.mainPoint.value, s.points);
    PlannedNear(env, s.units, s.mainPoint.value, s.points);
    var res := Single(0, points[0]);
    if |points| >= 2 {
      assert points[1].key != LastValue(res).key;
    }
    TourSucceeds(env, s.(points := points).(appended := s.appended + [0]), res, points, points);
  }

  // ----- a repeated ordering -----

  /**
   * The visited keys are never reset. A first ordering of n or more points
   * leaves every key 0 to n visited (`OrderVisits`), and `clearResult` keeps
   * them; an ordering of n points after that picks the point nearest the
   * main point, then drops every remaining point as visited: it succeeds
   * with a tour of two entries instead of n + 1.
   */
  lemma RepeatOrderTruncated(env: Env, s: State)
    requires s.mainPoint.Some? && "km" in s.units.vals && |s.points| >= 2
    requires forall k :: 0 <= k <= |s.points| ==> k in s.appended
    requires forall a, b :: (a == s.mainPoint.value || a in s.points) && (b == s.mainPoint.value || b in s.points) ==>
      Km(env, s.units, a, b) < Sentinel
    ensures var r := OrderByNearestNeighbor(env, s);
      r.out.Ok? && |r.out.value.keys| == 2 && !Ordered(s.mainPoint.value, s.points, r.out.value)
  {
    var points := Planned(s.mainPoint.value, s.points);
    PlannedNear(env, s.units, s.mainPoint.value, s.points);
    forall j | 0 <= j < |points|
      ensures points[j].key in s.appended + [0]
    {
      assert points[j].key == j && j in s.appended;
    }
    RepeatTour(env, s.(points := points).(appended := s.appended + [0]), points);
    OrderIsTour(env, s);
  }

  /** A tour that does not fail has visited the key of each of its entries. */
  lemma {:induction false} TourVisits(env: Env, s: State, res: PhpArray<int, TaggedPoint>, pts: seq<TaggedPoint>)
    requires |res.keys| > 0 && forall k :: k in res.vals ==> k in s.appended
    ensures var r := Tour(env, s, res, pts);
      r.out.Ok? ==> forall k :: k in r.out.value.vals ==> k in r.st.appended
    decreases |pts|
  {
    if |pts| > 0 {
      var sc := Scan(env, s, LastValue(res), pts, 0, Pick(Sentinel, None));
      TourStep(env, s, res, pts, sc.st, sc.out);
      if sc.out.Ok? && Decide(pts, sc.out.value.key).Some? {
        var k := Decide(pts, sc.out.value.key).value;
        BaseKeeps(sc.st, s);
        var st := sc.st.(appended := s.appended + [k]);
        var res' := Put(res, k, WithKey(pts, k).value);
        var rest := Unvisited(pts, st.appended);
        AdvanceOn(env, s, res, pts, st, k, res', rest);
        PutVisited(res, k, WithKey(pts, k).value, s.appended);
        TourVisits(env, st, res', rest);
      }
    }
  }

  /** Adding an entry under a key that is then visited keeps every entry's key visited. */
  lemma PutVisited(res: PhpArray<int, TaggedPoint>, k: int, c: TaggedPoint, visited: seq<int>)
    requires forall x :: x in res.vals ==> x in visited
    ensures forall x :: x in Put(res, k, c).vals ==> x in visited + [k]
  {
  }

  /**
   * A first `getOrderByNearestNeighbor` that does not fail leaves every key
   * 0 to n visited, which is what a later ordering of at most n points then
   * starts from.
   */
  lemma OrderVisits(env: Env, s: State)
    requires s.mainPoint.Some? && forall k :: 1 <= k <= |s.points| ==> k !in s.appended
    ensures var r := OrderByNearestNeighbor(env, s);
      r.out.Ok? ==> forall k :: 0 <= k <= |s.points| ==> k in r.st.appended
  {
    var points := Planned(s.mainPoint.value, s.points);
    OrderComplete(env, s);
    OrderIsTour(env, s);
    TourVisits(env, s.(points := points).(appended := s.appended + [0]), Single(0, points[0]), points);
  }

  /**
   * Two orderings in a row: after a first ordering of n points that does not
   * fail, any calculator that kept its visited keys (`clearResult` followed
   * by `setPoints`, say) orders between 2 and n near points into two entries.
   */
  lemma SecondOrderTruncated(env: Env, s: State, t: State)
    requires s.mainPoint.Some? && forall k :: 1 <= k <= |s.points| ==> k !in s.appended
    requires OrderByNearestNeighbor(env, s).out.Ok? && t.appended == OrderByNearestNeighbor(env, s).st.appended
    requires t.mainPoint.Some? && "km" in t.units.vals && 2 <= |t.points| <= |s.points|
    requires forall a, b :: (a == t.mainPoint.value || a in t.points) && (b == t.mainPoint.value || b in t.points) ==>
      Km(env, t.units, a, b) < Sentinel
    ensures var r := OrderByNearestNeighbor(env, t);
      r.out.Ok? && |r.out.value.keys| == 2 && !Ordered(t.mainPoint.value, t.points, r.out.value)
  {
    OrderVisits(env, s);
    RepeatOrderTruncated(env, t);
  }

  /** A tour of points whose keys 0 to n were all visited before takes one round: entry 0 and the point it picks. */
  lemma RepeatTour(env: Env, s: State, points: seq<TaggedPoint>)
    requires "km" in s.units.vals && Near(env, s.units, points) && |points| >= 2
    requires points[0].key == 0 && points[1].key == 1 && forall j :: 0 <= j < |points| ==> points[j].key in s.appended
    ensures var r := Tour(env, s, Single(0, points[0]), points);
      r.out.Ok? && |r.out.value.keys| == 2
  {
    var res := Single(0, points[0]);
    assert LastValue(res) == points[0];
    FirstPick(env, s, points);
    var sc := Scan(env, s, points[0], points, 0, Pick(Sentinel, None));
    var p := sc.out.value;
    var k := p.key.value;
    assert Run(sc.st, Ok(p)) == Scan(env, s, LastValue(res), points, 0, Pick(Sentinel, None));
    assert Decide(points, p.key) == Some(k);
    OneRound(env, s, res, points, sc.st, p, k);
    SecondEntry(points[0], k, WithKey(points, k).value);
  }

  /** Adding a key other than 0 to a single entry 0 gives two entries. */
  lemma SecondEntry(a: TaggedPoint, k: int, c: TaggedPoint)
    requires k != 0
    ensures Put(Single(0, a), k, c).keys == [0, k]
  {
    assert k !in Single(0, a).vals;
  }

  /** `getOrderByNearestNeighbor` with a main point is the tour of the planned points from entry 0, with 0 visited. */
  lemma OrderIsTour(env: Env, s: State)
    requires s.mainPoint.Some?
    ensures var points := Planned(s.mainPoint.value, s.points);
      OrderByNearestNeighbor(env, s) == Tour(env, s.(points := points).(appended := s.appended + [0]), Single(0, points[0]), points)
  {
  }

  /** A round after which every key is visited ends the tour with the chosen point added. */
  lemma OneRound(env: Env, s: State, res: PhpArray<int, TaggedPoint>, pts: seq<TaggedPoint>, sst: State, p: Pick, k: int)
    requires |res.keys| > 0 && |pts| > 0
    requires Run(sst, Ok(p)) == Scan(env, s, LastValue(res), pts, 0, Pick(Sentinel, None))
    requires p.key.Some? && p.key.value in Keys(pts[0..]) && Decide(pts, p.key) == Some(k)
    requires forall j :: 0 <= j < |pts| ==> pts[j].key in sst.appended
    ensures WithKey(pts, k).Some?
    ensures Tour(env, s, res, pts) == Run(sst.(appended := sst.appended + [k]), Ok(Put(res, k, WithKey(pts, k).value)))
  {
    TourRound(env, s, res, pts, sst, p, k);
    assert forall j :: 0 <= j < |pts| ==> pts[j].key in sst.appended + [k];
    NoneLeft(pts, sst.appended + [k]);
  }

  /** The first round from the main point, with the points near, picks a key other than 0. */
  lemma FirstPick(env: Env, s: State, points: seq<TaggedPoint>)
    requires "km" in s.units.vals && Near(env, s.units, points)
    requires |points| >= 2 && points[0].key == 0 && points[1].key == 1
    ensures var sc := Scan(env, s, points[0], points, 0, Pick(Sentinel, None));
      sc.out.Ok? && sc.out.value.key.Some? && sc.out.value.key.value != 0 &&
      sc.out.value.key.value in Keys(points[0..]) && sc.st.appended == s.appended
  {
    assert points[0] in points && points[1] in points;
    RoundPicks(env, s, points, points[0], points, 1);
    RoundChoice(env, s, points[0], points);
    var sc := Scan(env, s, points[0], points, 0, Pick(Sentinel, None));
    assert Base(sc.st) == Base(s);
  }

  /** With every key visited, no point remains. */
  lemma NoneLeft(points: seq<TaggedPoint>, visited: seq<int>)
    requires forall j :: 0 <= j < |points| ==> points[j].key in visited
    ensures Unvisited(points, visited) == []
  {
  }

  /**
   * `getOrderByNearestNeighbor` as evidently intended: the visited keys
   * reset before the tour, so that every call orders all the points. When
   * it does not fail, the tour is entry 0 holding the main point, then key
   * i + 1 holding point i.
   */
  function OrderByNearestNeighborReset(env: Env, s: State): (r: Run<PhpArray<int, TaggedPoint>>)
    ensures s.mainPoint.Some? && r.out.Ok? ==> Ordered(s.mainPoint.value, s.points, r.out.value)
  {
    var cleared := s.(appended := []);
    if s.mainPoint.None? then OrderByNearestNeighbor(env, cleared)
    else
      OrderComplete(env, cleared);
      OrderByNearestNeighbor(env, cleared)
  }

  /** The reset ordering, with kilometres and the points near, does not fail, on a calculator that has ordered before too. */
  lemma ResetOrderSucceeds(env: Env, s: State)
    requires s.mainPoint.Some? && "km" in s.units.vals
    requires forall a, b :: (a == s.mainPoint.value || a in s.points) && (b == s.mainPoint.value || b in s.points) ==>
      Km(env, s.units, a, b) < Sentinel
    ensures OrderByNearestNeighborReset(env, s).out.Ok?
    ensures Ordered(s.mainPoint.value, s.points, OrderByNearestNeighborReset(env, s).out.value)
  {
    OrderSucceeds(env, s.(appended := []));
  }
}
