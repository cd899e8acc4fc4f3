/**
 * `allFeatures`: the distance result and the centre, each computed with the
 * result cleared after it, kept in the store, and gathered into a result of
 * their own under `distance` and `center`.
 */
module Features {
  import opened PhpArrays
  import opened Values
  import opened Kernel
  import opened DataStorage
  import opened GeoState
  import opened Distances
  import opened Areas

  /** The result `allFeatures` builds: the distance under `distance`, then the centre under `center`. */
  function Gathered(distance: Value, center: Value): (r: Store)
    ensures r.keys == ["distance", "center"]
    ensures r.vals == map["distance" := distance, "center" := center]
  {
    OMap(["distance", "center"], map["distance" := distance, "center" := center])
  }

  /**
   * `allFeatures()` without a callback: the distance result stored under
   * `distanceResult`, the result cleared, then the rest. A failing distance
   * computation stops it.
   */
  function AllFeatures(env: Env, s: State): (r: Run<Store>)
    ensures SameConfig(s, r.st)
    ensures r.out.Ok? ==> r.out.value == r.st.result
  {
    var d := GetDistance(env, s);
    if d.out.Err? then Run(d.st, Err(d.out.error))
    else Gather(env, d.st.(storage := Put(d.st.storage, "distanceResult", Dict(d.out.value)), result := Empty()))
  }

  /**
   * The rest of `allFeatures` once the distance result is stored: the
   * centre stored under `centerResult`, the result cleared, both read back
   * into the result, which is returned.
   */
  function Gather(env: Env, s1: State): (r: Run<Store>)
  {
    var c := Center(env, s1);
    var s2 := c.st.(storage := Put(c.st.storage, "centerResult", c.out.value), result := Empty());
    var res := Merge(s2.result, Gathered(AsValue(Coalesce(s2.storage, "distanceResult")), AsValue(Coalesce(s2.storage, "centerResult"))));
    Run(s2.(result := res), Ok(res))
  }

  /** The store keys `getCenter` writes. */
  const CenterKeys: set<string> := {"pointsCount", "x", "y", "z", "dimensions", "lat", "long", "multiplied y", "multiplied x", "distance"}

  /** The centre computation leaves every other key of the store as it was. */
  lemma CenteredKeeps(t: Trig, a: Store, pts: seq<Point>, k: string)
    requires |pts| > 0 && k in a.vals && k !in CenterKeys
    ensures k in Centered(t, a, pts).vals && Centered(t, a, pts).vals[k] == a.vals[k]
  {
    var b := ResetDimensions(a);
    assert b.vals[k] == a.vals[k];
    AfterPointsFrame(t, b, pts);
    var c := AfterPoints(t, b, pts);
    assert (c.vals - LoopKeys)[k] == (b.vals - LoopKeys)[k];
    DivideDims(c, |pts|);
  }

  /** The centre reads and writes only its own keys: the stored distance result survives it. */
  lemma CenterKeepsDistance(env: Env, s: State)
    requires IsSet(s.storage, "distanceResult")
    ensures IsSet(Center(env, s).st.storage, "distanceResult")
    ensures Center(env, s).st.storage.vals["distanceResult"] == s.storage.vals["distanceResult"]
  {
    if |s.points| > 0 {
      CenteredKeeps(env.trig, Put(s.storage, "pointsCount", Int(|s.points|)), s.points, "distanceResult");
    }
  }

  /** With the distance result stored, the rest gathers it with the centre of the points. */
  lemma GatherSpec(env: Env, s1: State, distance: Store, other: State)
    requires IsSet(s1.storage, "distanceResult") && s1.storage.vals["distanceResult"] == Dict(distance)
    requires other.points == s1.points && other.result == Empty() && s1.result == Empty()
    ensures Gather(env, s1).out == Ok(Gathered(Dict(distance), Center(env, other).out.value))
    ensures Gather(env, s1).st.result == Gather(env, s1).out.value
  {
    CenterKeepsDistance(env, s1);
    CenterOfPoints(env, s1, other);
    var c := Center(env, s1);
    var st := Put(c.st.storage, "centerResult", c.out.value);
    assert Coalesce(st, "distanceResult") == Found(Dict(distance));
    assert Coalesce(st, "centerResult") == Found(c.out.value);
    MergeGathered(Dict(distance), c.out.value);
  }

  /** Merging the two entries into an empty result gives just them, in their order. */
  lemma MergeGathered(distance: Value, center: Value)
    ensures Merge(Empty(), Gathered(distance, center)) == Gathered(distance, center)
  {
    var g := Gathered(distance, center);
    var e: Store := Empty();
    assert g.keys[1..] == ["center"] && g.keys[1..][1..] == [];
    assert MergeKeys(e, g, g.keys) == MergeKeys(Put(e, "distance", distance), g, ["center"]);
    assert MergeKeys(Put(e, "distance", distance), g, ["center"]) == MergeKeys(Put(Put(e, "distance", distance), "center", center), g, []);
    assert Put(Put(e, "distance", distance), "center", center) == g;
  }

  /**
   * `allFeatures` succeeds exactly when `getDistance` does, with the same
   * error otherwise. On success it returns, and leaves as the result, exactly
   * the two entries `distance` and `center`, in that order: the result of
   * `getDistance` on the calculator as it was, and the centre as any
   * calculator with the same points and an empty result computes it (a new
   * one included).
   */
  lemma AllFeaturesSpec(env: Env, s: State, other: State)
    requires other.points == s.points && other.result == Empty()
    ensures AllFeatures(env, s).out.Ok? <==> GetDistance(env, s).out.Ok?
    ensures GetDistance(env, s).out.Err? ==> AllFeatures(env, s).out == Err(GetDistance(env, s).out.error)
    ensures GetDistance(env, s).out.Ok? ==>
      AllFeatures(env, s).out == Ok(Gathered(Dict(GetDistance(env, s).out.value), Center(env, other).out.value)) &&
      AllFeatures(env, s).st.result == AllFeatures(env, s).out.value
  {
    var d := GetDistance(env, s);
    if d.out.Ok? {
      GatherSpec(env, d.st.(storage := Put(d.st.storage, "distanceResult", Dict(d.out.value)), result := Empty()), d.out.value, other);
    }
  }
}
