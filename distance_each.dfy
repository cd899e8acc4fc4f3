/**
 * What `resolveEachDistanceToMainPoint` records: the stored points and unit
 * survive the loop, and the list of distances grows by one entry per point,
 * in order, each the distance from the main point in the unit named first
 * in the unit table. Because the longitudes on record are never cleared and
 * `calcDistance` reads the first two of them, every entry is measured with
 * one and the same longitude difference: the one on record before the loop,
 * or that of the main point and the first point when none was.
 */
module DistanceEach {
  import opened PhpArrays
  import opened Values
  import opened Kernel
  import opened Formatter
  import opened DataStorage
  import opened GeoState
  import opened Distances
  import opened DistanceLaws
  import opened DistanceLoop

  const DistancesKey: string := "distancesEachPointToMainPoint"

  /** Each point's recorded distance: the pair from m measured with the longitude difference dLong, in the unit of factor f. */
  function Recorded(t: Trig, m: Point, pts: seq<Point>, dLong: real, f: real): (r: seq<Value>)
    ensures |r| == |pts| && forall k :: 0 <= k < |pts| ==> r[k] == Num(InUnit(PairMiles(t, m, pts[k], dLong), f))
  {
    seq(|pts|, k requires 0 <= k < |pts| => Num(InUnit(PairMiles(t, m, pts[k], dLong), f)))
  }

  /** A longer prefix of the points records one more entry. */
  lemma RecordedSnoc(t: Trig, m: Point, pts: seq<Point>, i: nat, dLong: real, f: real)
    requires i < |pts|
    ensures Recorded(t, m, pts[..i + 1], dLong, f) == Recorded(t, m, pts[..i], dLong, f) + [Num(InUnit(PairMiles(t, m, pts[i], dLong), f))]
  {
  }

  /** The keys b starts with those of a. */
  ghost predicate Extends<K>(a: seq<K>, b: seq<K>) {
    |a| <= |b| && b[..|a|] == a
  }

  /** One pair's step only adds a key to the result after those it had. */
  lemma PairStepKeys(env: Env, s: State, i: nat)
    requires i + 1 < |s.points|
    ensures Extends(s.result.keys, PairStep(env, s, i).st.result.keys)
  {
    var c := CalcDistance(env, PairSetup(env, s, i));
    assert c.st.result == s.result;
  }

  /** On two points the pair loop of `getDistance` is one step, so it only adds keys to the result after those it had. */
  lemma PairKeys(env: Env, s: State)
    requires |s.points| == 2
    ensures Extends(s.result.keys, DistanceFrom(env, s, 0).st.result.keys)
  {
    var t := PairStep(env, s, 0);
    var st, out := t.st, t.out;
    PairStepKeys(env, s, 0);
    if out.Ok? {
      DistanceFromOk(env, s, 0, st);
      DistanceFromLast(env, st, 1);
    } else {
      DistanceFromErr(env, s, 0, st, out.error);
    }
  }

  /** The key a store keeps when a step leaves it alone. */
  ghost predicate Kept(a: Store, b: Store, k: string) {
    (k in a.vals <==> k in b.vals) && (k in a.vals ==> a.vals[k] == b.vals[k])
  }

  /**
   * The state of the per-point loop before point i: no points, the main
   * point and unit u in place, a result whose first key (if any) is the
   * first pair's label, the longitude difference on record dLong, the
   * stored points kept, and the distances of points 0 to i - 1 appended.
   */
  ghost predicate EachInv(env: Env, s0: State, t: State, pts: seq<Point>, i: nat, u: string, dLong: real)
  {
    i <= |pts| && EachFrame(env, s0, t, u) && EachStore(s0, t, u) &&
    (i < |pts| ==> FirstDelta(t.longs, [t.mainPoint.value, pts[i]]) == dLong) &&
    EachItems(env, s0, t, pts, i, u, dLong)
  }

  /** The fields the loop keeps, and the unit u it reads. */
  ghost predicate EachFrame(env: Env, s0: State, t: State, u: string) {
    Plain(t) && t.points == [] && t.mainPoint.Some? &&
    t.mainPoint == s0.mainPoint && t.units == s0.units && t.options == s0.options &&
    u in UnitsOf(t.options) && u in t.units.vals &&
    "unit" !in UnitsOf(t.options) && "points" !in UnitsOf(t.options) && DistancesKey !in UnitsOf(t.options) &&
    (|t.result.keys| == 0 || t.result.keys[0] == Label(env.prefix, 0))
  }

  /** The stored unit and points. */
  ghost predicate EachStore(s0: State, t: State, u: string) {
    "unit" in t.storage.vals && t.storage.vals["unit"] == Text(u) && Kept(t.storage, s0.storage, "points")
  }

  /** The distances of points 0 to i - 1 appended to the list there was. */
  ghost predicate EachItems(env: Env, s0: State, t: State, pts: seq<Point>, i: nat, u: string, dLong: real)
    requires i <= |pts| && t.mainPoint.Some? && u in t.units.vals
  {
    (!IsSet(s0.storage, DistancesKey) || s0.storage.vals[DistancesKey].List?) &&
    (!IsSet(t.storage, DistancesKey) || t.storage.vals[DistancesKey].List?) &&
    Items(t.storage, DistancesKey) ==
      Items(s0.storage, DistancesKey) + Recorded(env.trig, t.mainPoint.value, pts[..i], dLong, t.units.vals[u])
  }

  /** The longitude difference on record does not change once the first pair is appended. */
  lemma DeltaKept(longs: seq<real>, m: Point, p: Point, q: Point)
    ensures FirstDelta(longs + [m.long, p.long], [m, q]) == FirstDelta(longs, [m, p])
  {
    var ls := longs + [m.long, p.long];
    assert (ls + [m.long, q.long])[0] == (longs + [m.long, p.long])[0];
    assert (ls + [m.long, q.long])[1] == (longs + [m.long, p.long])[1];
  }

  /** What `getDistance` does to a calculator holding one pair. */
  lemma PairTrace(env: Env, s1: State)
    requires Plain(s1) && |s1.points| == 2
    ensures var d := GetDistance(env, s1);
      d.out == Ok(d.st.result) && SameConfig(s1, d.st) && Entry(env, s1, d.st.result, 0) &&
      d.st.storage.vals == SnapshotOf(s1.storage.vals, UnitsOf(s1.options), s1.units.vals, Miles(env, s1, 0)) &&
      d.st.longs == s1.longs + [s1.points[0].long, s1.points[1].long] &&
      (s1.result.keys == [] ==> d.st.result.keys == Labels(env.prefix, 1))
  {
    GetDistanceSpec(env, s1);
    var l := LongPairs(s1.points, 1);
    assert l == [s1.points[0].long, s1.points[1].long];
  }

  /** The result after one pair's distance: the snapshot is its first value, so the callback reads the distance in u. */
  lemma PairRead(env: Env, t: State, p: Point, u: string)
    requires Plain(t) && t.points == [] && t.mainPoint.Some? && u in UnitsOf(t.options)
    requires |t.result.keys| == 0 || t.result.keys[0] == Label(env.prefix, 0)
    ensures var s1 := t.(points := [t.mainPoint.value, p]);
      var d := GetDistance(env, s1);
      d.out == Ok(d.st.result) && u in t.units.vals &&
      FirstField(d.st.result, u) == Ok(Num(InUnit(Miles(env, s1, 0), t.units.vals[u]))) &&
      d.st.storage.vals == SnapshotOf(t.storage.vals, UnitsOf(t.options), t.units.vals, Miles(env, s1, 0)) &&
      d.st.longs == t.longs + [t.mainPoint.value.long, p.long] &&
      SameConfig(s1, d.st) &&
      |d.st.result.keys| > 0 && d.st.result.keys[0] == Label(env.prefix, 0)
  {
    var s1 := t.(points := [t.mainPoint.value, p]);
    PairTrace(env, s1);
    var d := GetDistance(env, s1);
    PairKeys(env, s1);
    assert d.st.result == DistanceFrom(env, s1, 0).st.result;
    if |t.result.keys| == 0 {
      LabelsFirst(env.prefix, 1);
    }
    FirstEntryInAny(env, s1, d.st.result, u);
  }

  /** The first value of a result whose first key is the first pair's label is that pair's entry. */
  lemma FirstEntryInAny(env: Env, s: State, res: Store, u: string)
    requires Plain(s) && |s.points| >= 2 && u in UnitsOf(s.options)
    requires Entry(env, s, res, 0) && |res.keys| > 0 && res.keys[0] == Label(env.prefix, 0)
    ensures u in s.units.vals && FirstField(res, u) == Ok(Num(InUnit(Miles(env, s, 0), s.units.vals[u])))
  {
    SnapshotOfSpec(s.storage.vals, UnitsOf(s.options), s.units.vals, Miles(env, s, 0), u);
  }

  /** The distance appended for point i: from the main point, with the longitude difference on record, in unit u. */
  function EachValue(env: Env, m: Point, p: Point, dLong: real, f: real): Value {
    Num(InUnit(PairMiles(env.trig, m, p, dLong), f))
  }

  /** The store a pair's snapshot leaves keeps the keys that are neither units asked for nor scratch keys. */
  lemma SnapshotKeeps(t: State, miles: real, a: Store, k: string)
    requires Plain(t) && a.vals == SnapshotOf(t.storage.vals, UnitsOf(t.options), t.units.vals, miles)
    requires k !in UnitsOf(t.options) && k !in ScratchKeys
    ensures Kept(a, t.storage, k)
  {
    SnapshotOfSpec(t.storage.vals, UnitsOf(t.options), t.units.vals, miles, k);
  }

  /** The state a successful pass of the per-point loop for point i leaves. */
  ghost function EachNext(env: Env, t: State, pts: seq<Point>, i: nat): State
    requires t.mainPoint.Some? && i < |pts|
  {
    var d := GetDistance(env, t.(points := t.points + [t.mainPoint.value, pts[i]]));
    if d.out.Err? then d.st
    else match UnitField(d.st, d.out.value)
      case Err(_) => d.st
      case Ok(v) =>
        match Append(d.st.storage, DistancesKey, v)
        case Err(_) => d.st
        case Ok(st) => d.st.(storage := st, points := [])
  }

  /** What the callback and the store read after the pair of point i. */
  lemma PassReads(t: State, u: string, miles: real, v: Value, dst: State, res: Store)
    requires Plain(t) && u in UnitsOf(t.options) && u in t.units.vals
    requires "unit" !in UnitsOf(t.options) && "points" !in UnitsOf(t.options) && DistancesKey !in UnitsOf(t.options)
    requires "unit" in t.storage.vals && t.storage.vals["unit"] == Text(u)
    requires FirstField(res, u) == Ok(v)
    requires dst.storage.vals == SnapshotOf(t.storage.vals, UnitsOf(t.options), t.units.vals, miles)
    ensures UnitField(dst, res) == Ok(v)
    ensures "unit" in dst.storage.vals && dst.storage.vals["unit"] == Text(u)
    ensures Kept(dst.storage, t.storage, "points") && Kept(dst.storage, t.storage, "") && Kept(dst.storage, t.storage, DistancesKey)
  {
    SnapshotKeeps(t, miles, dst.storage, "unit");
    SnapshotKeeps(t, miles, dst.storage, "points");
    SnapshotKeeps(t, miles, dst.storage, "");
    SnapshotKeeps(t, miles, dst.storage, DistancesKey);
  }

  /** The frame and the stored unit and points carry over to the state after a pass. */
  lemma FrameNext(env: Env, s0: State, t: State, u: string, n: State)
    requires EachFrame(env, s0, t, u) && EachStore(s0, t, u)
    requires n.points == [] && n.mainPoint == t.mainPoint && n.options == t.options && n.units == t.units
    requires |n.result.keys| > 0 && n.result.keys[0] == Label(env.prefix, 0)
    requires Kept(n.storage, t.storage, "points") && Kept(n.storage, t.storage, "")
    requires "unit" in n.storage.vals && n.storage.vals["unit"] == Text(u)
    ensures EachFrame(env, s0, n, u) && EachStore(s0, n, u)
  {
  }

  /**
   * A pass for point i, given what `getDistance` left (dst) and returned
   * (res): the callback reads the point's distance, it is appended, and the
   * invariant holds for point i + 1.
   */
  lemma PassKeeps(env: Env, s0: State, t: State, pts: seq<Point>, i: nat, u: string, dLong: real, dst: State, res: Store)
    requires EachInv(env, s0, t, pts, i, u, dLong) && i < |pts|
    requires FirstField(res, u) == Ok(EachValue(env, t.mainPoint.value, pts[i], dLong, t.units.vals[u]))
    requires dst.storage.vals == SnapshotOf(t.storage.vals, UnitsOf(t.options), t.units.vals, PairMiles(env.trig, t.mainPoint.value, pts[i], dLong))
    requires dst.longs == t.longs + [t.mainPoint.value.long, pts[i].long]
    requires dst.mainPoint == t.mainPoint && dst.options == t.options && dst.units == t.units
    requires |dst.result.keys| > 0 && dst.result.keys[0] == Label(env.prefix, 0)
    ensures var v := EachValue(env, t.mainPoint.value, pts[i], dLong, t.units.vals[u]);
      UnitField(dst, res) == Ok(v) && Append(dst.storage, DistancesKey, v).Ok? &&
      EachInv(env, s0, dst.(storage := Append(dst.storage, DistancesKey, v).value, points := []), pts, i + 1, u, dLong)
  {
    var m := t.mainPoint.value;
    var v := EachValue(env, m, pts[i], dLong, t.units.vals[u]);
    PassReads(t, u, PairMiles(env.trig, m, pts[i], dLong), v, dst, res);
    var st := Append(dst.storage, DistancesKey, v).value;
    var n := dst.(storage := st, points := []);
    FrameNext(env, s0, t, u, n);
    DeltaKept(t.longs, m, pts[i], if i + 1 < |pts| then pts[i + 1] else m);
    ItemsNext(env, s0, t, pts, i, u, dLong, dst.storage, st);
  }

  /** The list after appending the distance of point i. */
  lemma ItemsNext(env: Env, s0: State, t: State, pts: seq<Point>, i: nat, u: string, dLong: real, a: Store, st: Store)
    requires i < |pts| && t.mainPoint.Some? && u in t.units.vals && EachItems(env, s0, t, pts, i, u, dLong)
    requires Kept(a, t.storage, DistancesKey)
    requires Append(a, DistancesKey, EachValue(env, t.mainPoint.value, pts[i], dLong, t.units.vals[u])) == Ok(st)
    ensures EachItems(env, s0, t.(storage := st), pts, i + 1, u, dLong)
  {
    var m := t.mainPoint.value;
    var f := t.units.vals[u];
    assert Items(a, DistancesKey) == Items(t.storage, DistancesKey);
    RecordedSnoc(env.trig, m, pts, i, dLong, f);
  }

  /** One pass of the per-point loop keeps the invariant and appends the point's distance. */
  lemma EachStep(env: Env, s0: State, t: State, pts: seq<Point>, i: nat, u: string, dLong: real)
    requires EachInv(env, s0, t, pts, i, u, dLong) && i < |pts|
    ensures EachInv(env, s0, EachNext(env, t, pts, i), pts, i + 1, u, dLong)
    ensures EachFrom(env, t, pts, i) == EachFrom(env, EachNext(env, t, pts, i), pts, i + 1)
  {
    var m := t.mainPoint.value;
    var s1 := t.(points := t.points + [m, pts[i]]);
    assert s1 == t.(points := [m, pts[i]]);
    PairRead(env, t, pts[i], u);
    var d := GetDistance(env, s1);
    assert Miles(env, s1, 0) == PairMiles(env.trig, m, pts[i], dLong);
    PassKeeps(env, s0, t, pts, i, u, dLong, d.st, d.out.value);
    EachFromStep(env, t, pts, i, d.st, d.out);
  }

  /** Some state after the pass for point i keeps the invariant, and the loop goes on from it. */
  lemma EachStepSome(env: Env, s0: State, t: State, pts: seq<Point>, i: nat, u: string, dLong: real)
    requires EachInv(env, s0, t, pts, i, u, dLong) && i < |pts|
    ensures exists n {:trigger EachInv(env, s0, n, pts, i + 1, u, dLong)} ::
      EachInv(env, s0, n, pts, i + 1, u, dLong) && EachFrom(env, t, pts, i) == EachFrom(env, n, pts, i + 1)
  {
    EachStep(env, s0, t, pts, i, u, dLong);
  }

  /** The per-point loop from point i on, with the invariant, runs to the end and appends every remaining distance. */
  lemma {:induction false} EachRuns(env: Env, s0: State, t: State, pts: seq<Point>, i: nat, u: string, dLong: real)
    requires EachInv(env, s0, t, pts, i, u, dLong)
    ensures EachFrom(env, t, pts, i).out.Ok? && EachInv(env, s0, EachFrom(env, t, pts, i).st, pts, |pts|, u, dLong)
    decreases |pts| - i
  {
    if i < |pts| {
      EachStepSome(env, s0, t, pts, i, u, dLong);
      var n :| EachInv(env, s0, n, pts, i + 1, u, dLong) && EachFrom(env, t, pts, i) == EachFrom(env, n, pts, i + 1);
      EachRuns(env, s0, n, pts, i + 1, u, dLong);
    }
  }

  /**
   * One pass of the per-point loop in terms of what `getDistance` left and
   * returned: each failure stops the loop with its error, and a pass that
   * appends goes on from the next point with the points cleared.
   */
  lemma EachFromStep(env: Env, t: State, pts: seq<Point>, i: nat, dst: State, dout: Result<Store>)
    requires t.mainPoint.Some? && i < |pts|
    requires Run(dst, dout) == GetDistance(env, t.(points := t.points + [t.mainPoint.value, pts[i]]))
    ensures dout.Err? ==> EachFrom(env, t, pts, i) == Run(dst, Err(dout.error))
    ensures dout.Ok? && UnitField(dst, dout.value).Err? ==> EachFrom(env, t, pts, i) == Run(dst, Err(UnitField(dst, dout.value).error))
    ensures dout.Ok? && UnitField(dst, dout.value).Ok? && Append(dst.storage, DistancesKey, UnitField(dst, dout.value).value).Err? ==>
      EachFrom(env, t, pts, i) == Run(dst, Err(NotAnArray))
    ensures dout.Ok? && UnitField(dst, dout.value).Ok? && Append(dst.storage, DistancesKey, UnitField(dst, dout.value).value).Ok? ==>
      dst.mainPoint == t.mainPoint &&
      EachFrom(env, t, pts, i) == EachFrom(env, dst.(storage := Append(dst.storage, DistancesKey, UnitField(dst, dout.value).value).value, points := []), pts, i + 1)
  {
  }

  /** The state `resolveEachDistanceToMainPoint` starts its per-point loop in. */
  function Prepared(s: State): (r: State)
    ensures r.mainPoint == s.mainPoint && r.units == s.units && r.options == s.options && r.points == []
  {
    var s1 := s.(storage := Put(s.storage, "points", List(PointValues(s.points))));
    var s2 := s1.(points := []);
    var unit := if |s2.units.keys| > 0 then Text(s2.units.keys[0]) else Null;
    s2.(storage := Put(s2.storage, "unit", unit))
  }

  /** `resolveEachDistanceToMainPoint` is its loop from the prepared state. */
  lemma ResolvePrepared(env: Env, s: State)
    ensures ResolveEachDistanceToMainPoint(env, s) == EachFrom(env, Prepared(s), s.points, 0)
  {
  }

  /** With no points the main point is never read: the loop has nothing to do, whether or not a main point was set. */
  lemma EachNoPoints(env: Env, s: State)
    requires |s.points| == 0
    ensures ResolveEachDistanceToMainPoint(env, s) == Run(Prepared(s), Ok(()))
  {
    ResolvePrepared(env, s);
  }

  /** The conditions under which the per-point loop keeps its invariant. */
  ghost predicate EachReady(env: Env, s: State) {
    s.mainPoint.Some? && Plain(s) && |s.units.keys| > 0 && s.units.keys[0] in UnitsOf(s.options) &&
    "unit" !in UnitsOf(s.options) && "points" !in UnitsOf(s.options) && DistancesKey !in UnitsOf(s.options) &&
    (|s.result.keys| == 0 || s.result.keys[0] == Label(env.prefix, 0)) &&
    (!IsSet(s.storage, DistancesKey) || s.storage.vals[DistancesKey].List?)
  }

  /** The longitude difference every pair of the loop is measured with. */
  function EachDelta(s: State): real
    requires s.mainPoint.Some?
  {
    if |s.points| > 0 then FirstDelta(s.longs, [s.mainPoint.value, s.points[0]]) else 0.0
  }

  /** The invariant holds as the loop starts. */
  lemma EachStarts(env: Env, s: State)
    requires EachReady(env, s)
    ensures s.units.keys[0] in s.units.vals
    ensures EachInv(env, Prepared(s), Prepared(s), s.points, 0, s.units.keys[0], EachDelta(s))
    ensures ResolveEachDistanceToMainPoint(env, s) == EachFrom(env, Prepared(s), s.points, 0)
  {
    var u := s.units.keys[0];
    Membership(s.units, u);
    var s3 := Prepared(s);
    assert Items(s3.storage, DistancesKey) == Items(s.storage, DistancesKey);
    assert s.points[..0] == [];
  }

  /** What the invariant says once every point is done. */
  lemma EachEnds(env: Env, s: State, t: State)
    requires EachReady(env, s) && s.units.keys[0] in s.units.vals
    requires EachInv(env, Prepared(s), t, s.points, |s.points|, s.units.keys[0], EachDelta(s))
    ensures t.points == [] &&
      "points" in t.storage.vals && t.storage.vals["points"] == List(PointValues(s.points)) &&
      "unit" in t.storage.vals && t.storage.vals["unit"] == Text(s.units.keys[0]) &&
      (!IsSet(t.storage, DistancesKey) || t.storage.vals[DistancesKey].List?) &&
      Items(t.storage, DistancesKey) ==
        Items(s.storage, DistancesKey) + Recorded(env.trig, s.mainPoint.value, s.points, EachDelta(s), s.units.vals[s.units.keys[0]])
  {
    var s3 := Prepared(s);
    assert Items(s3.storage, DistancesKey) == Items(s.storage, DistancesKey);
    assert s.points[..|s.points|] == s.points;
  }

  /**
   * `resolveEachDistanceToMainPoint` when the unit table's first unit is
   * asked for and the store keys it uses are not unit names: it succeeds,
   * leaves no points, keeps the points and that unit in the store, and
   * appends to the distance list the distance of each point from the main
   * point, in order, all measured with the longitude difference on record
   * once the first pair's longitudes are appended.
   */
  lemma ResolveEachSpec(env: Env, s: State)
    requires EachReady(env, s)
    ensures var r := ResolveEachDistanceToMainPoint(env, s);
      var u := s.units.keys[0];
      u in s.units.vals && r.out.Ok? && r.st.points == [] &&
      "points" in r.st.storage.vals && r.st.storage.vals["points"] == List(PointValues(s.points)) &&
      "unit" in r.st.storage.vals && r.st.storage.vals["unit"] == Text(u) &&
      (!IsSet(r.st.storage, DistancesKey) || r.st.storage.vals[DistancesKey].List?) &&
      Items(r.st.storage, DistancesKey) ==
        Items(s.storage, DistancesKey) + Recorded(env.trig, s.mainPoint.value, s.points, EachDelta(s), s.units.vals[u])
  {
    EachStarts(env, s);
    EachRuns(env, Prepared(s), Prepared(s), s.points, 0, s.units.keys[0], EachDelta(s));
    EachEnds(env, s, EachFrom(env, Prepared(s), s.points, 0).st);
  }
}
