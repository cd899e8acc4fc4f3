/**
 * `getClosest` and `getFarthest`: the distance of each point to the main
 * point is appended to the stored distance list, the list is sorted
 * (ascending for the closest, descending for the farthest) and its first
 * key taken as the index, and the stored point at that index goes into the
 * result under `closest` (`farthest`) as the one-entry array index => point.
 * Because the distance list is never cleared, a second call sorts the
 * distances of the first call too, and the index it finds need not be the
 * position of a current point.
 */
module Closest {
  import opened PhpArrays
  import opened Values
  import opened Kernel
  import opened DataStorage
  import opened GeoState
  import opened Distances
  import opened DistanceEach

  /** Which end of the sorted distances is taken: `sort()` for the closest, `sortDesc()` for the farthest. */
  datatype Extremum = Least | Greatest

  /** The store key the index is kept under. */
  function IndexKey(e: Extremum): string {
    match e
    case Least => "closestPointIndex"
    case Greatest => "farthestPointIndex"
  }

  /** The result key the picked point goes under. */
  function ResultKey(e: Extremum): string {
    match e
    case Least => "closest"
    case Greatest => "farthest"
  }

  /** Whether a sorts strictly ahead of b. */
  predicate Ahead(e: Extremum, a: real, b: real) {
    match e
    case Least => a < b
    case Greatest => a > b
  }

  /**
   * The first key once the values are sorted: PHP's sort is stable, so it
   * is the earliest position of an extreme value. Nothing sorts ahead of
   * it, and it sorts strictly ahead of every value before it.
   */
  function Extreme(e: Extremum, vs: seq<real>): (r: nat)
    requires |vs| > 0
    ensures r < |vs|
    ensures forall j :: 0 <= j < |vs| ==> !Ahead(e, vs[j], vs[r])
    ensures forall j :: 0 <= j < r ==> Ahead(e, vs[r], vs[j])
    decreases |vs|
  {
    if |vs| == 1 then 0
    else
      var k := Extreme(e, vs[..|vs| - 1]);
      if Ahead(e, vs[|vs| - 1], vs[k]) then |vs| - 1 else k
  }

  /** Those two properties single out one position. */
  lemma ExtremeUnique(e: Extremum, vs: seq<real>, r: nat)
    requires r < |vs|
    requires forall j :: 0 <= j < |vs| ==> !Ahead(e, vs[j], vs[r])
    requires forall j :: 0 <= j < r ==> Ahead(e, vs[r], vs[j])
    ensures r == Extreme(e, vs)
  {
    var x := Extreme(e, vs);
    var a, b := vs[x], vs[r];
    assert r < x ==> Ahead(e, a, b);
    assert x < r ==> Ahead(e, b, a);
  }

  /** The closest of the sequence reversed in sign is its farthest. */
  lemma {:induction false} ExtremeMirror(vs: seq<real>, ws: seq<real>)
    requires |vs| > 0 && |ws| == |vs| && forall k :: 0 <= k < |vs| ==> ws[k] == -vs[k]
    ensures Extreme(Greatest, vs) == Extreme(Least, ws)
  {
    var r := Extreme(Greatest, vs);
    forall j | 0 <= j < |ws|
      ensures !Ahead(Least, ws[j], ws[r])
    {
      assert !Ahead(Greatest, vs[j], vs[r]);
    }
    forall j | 0 <= j < r
      ensures Ahead(Least, ws[r], ws[j])
    {
      assert Ahead(Greatest, vs[r], vs[j]);
    }
    ExtremeUnique(Least, ws, r);
  }

  /** The list as numbers, when every entry is an int or a float. */
  function Amounts(vs: seq<Value>): (r: Option<seq<real>>)
    ensures r.Some? <==> forall k :: 0 <= k < |vs| ==> vs[k].Num? || vs[k].Int?
    ensures r.Some? ==> |r.value| == |vs| && forall k :: 0 <= k < |vs| ==> r.value[k] == Amount(vs[k])
    decreases |vs|
  {
    if |vs| == 0 then Some([])
    else if !(vs[0].Num? || vs[0].Int?) then None
    else match Amounts(vs[1..])
      case None => None
      case Some(rest) => Some([Amount(vs[0])] + rest)
  }

  /**
   * `collect($distances)->sort()->keys()->first()` (`sortDesc()` for the
   * farthest): for a list of numbers, the earliest position of an extreme
   * one, and null (`None`) for an empty list; a lone scalar is collected as
   * the list of itself, whose only key is 0. A list with entries that are
   * not numbers, an array that is not a list, and the whole store (what is
   * read when no distances were ever stored) are sorted by PHP's loose
   * comparison, which is not modelled.
   */
  function FirstSortedKey(e: Extremum, l: Lookup<Value, Store>): (r: Result<Option<int>>)
    ensures l.Found? && l.value.List? && |l.value.items| == 0 ==> r == Ok(None)
    ensures l.Found? && l.value.List? && |l.value.items| > 0 && Amounts(l.value.items).Some? ==>
      var vs := Amounts(l.value.items).value;
      r.Ok? && r.value.Some? && 0 <= r.value.value < |vs| &&
      (forall j :: 0 <= j < |vs| ==> !Ahead(e, vs[j], vs[r.value.value])) &&
      (forall j :: 0 <= j < r.value.value ==> Ahead(e, vs[r.value.value], vs[j]))
    ensures r.Ok? && r.value.Some? ==> l.Found?
  {
    match l
    case Found(List(items)) =>
      if |items| == 0 then Ok(None)
      else (match Amounts(items)
        case Some(vs) => Ok(Some(Extreme(e, vs)))
        case None => Err(TypeMismatch))
    case Found(Bool(_)) => Ok(Some(0))
    case Found(Int(_)) => Ok(Some(0))
    case Found(Num(_)) => Ok(Some(0))
    case Found(Text(_)) => Ok(Some(0))
    case _ => Err(TypeMismatch)
  }

  /**
   * `getFromStorage('points')[$i]`: the entry at the index of the stored
   * point list; an index past its end is an undefined offset, and so is an
   * integer key of the whole store (whose keys are names).
   */
  function PointAt(l: Lookup<Value, Store>, i: int): (r: Result<Value>)
    ensures l.Found? && l.value.List? ==>
      (r.Ok? <==> 0 <= i < |l.value.items|) &&
      (r.Ok? ==> r.value == l.value.items[i]) &&
      (r.Err? ==> r.error == UndefinedIndex(i))
  {
    match l
    case Found(List(items)) => if 0 <= i < |items| then Ok(items[i]) else Err(UndefinedIndex(i))
    case Found(_) => Err(NotAnArray)
    case Whole(_) => Err(UndefinedIndex(i))
  }

  /**
   * The part of `getClosest` (`getFarthest`) after the distances are
   * resolved: the index is stored and read back (a null index reads the
   * whole store, an illegal offset), the point at that index is read from
   * the stored points, and the result gets the one-entry array under
   * `closest` (`farthest`), which is what is read back and returned.
   */
  function PickExtreme(e: Extremum, d: State): (r: Run<Value>)
    ensures r.st == d.(storage := r.st.storage, result := r.st.result)
    ensures r.out.Ok? ==> r.out.value.Picked?
  {
    match FirstSortedKey(e, Coalesce(d.storage, DistancesKey))
    case Err(err) => Run(d, Err(err))
    case Ok(idx) =>
      var st := Put(d.storage, IndexKey(e), if idx.Some? then Int(idx.value) else Null);
      match Coalesce(st, IndexKey(e))
      case Found(Int(i)) =>
        (match PointAt(Coalesce(st, "points"), i)
         case Err(err) => Run(d.(storage := st), Err(err))
         case Ok(item) =>
           var res := Merge(d.result, Single(ResultKey(e), Picked(i, item)));
           Run(d.(storage := st, result := res), Ok(AsValue(Coalesce(res, ResultKey(e))))))
      case _ => Run(d.(storage := st), Err(IllegalOffset))
  }

  /** `getClosest()` / `getFarthest()` without a callback. */
  function GetExtreme(env: Env, e: Extremum, s: State): (r: Run<Value>)
    ensures r.st.mainPoint == s.mainPoint && r.st.options == s.options && r.st.units == s.units
    ensures r.st.diameter == s.diameter && r.st.appended == s.appended
    ensures s.mainPoint.None? && |s.points| > 0 ==> r.out == Err(UndefinedIndex(0))
  {
    var d := ResolveEachDistanceToMainPoint(env, s);
    if d.out.Err? then Run(d.st, Err(d.out.error)) else PickExtreme(e, d.st)
  }

  /**
   * Once the sorted distances give index i and the points are stored as
   * their list: the index is stored; when it is the position of a point,
   * that point is picked, stored in the result under the result key and
   * returned with its index; otherwise the read of the point fails at that
   * index.
   */
  lemma PickAt(e: Extremum, d: State, i: nat, pts: seq<Point>)
    requires FirstSortedKey(e, Coalesce(d.storage, DistancesKey)) == Ok(Some(i))
    requires "points" in d.storage.vals && d.storage.vals["points"] == List(PointValues(pts))
    ensures var r := PickExtreme(e, d);
      r.st.points == d.points && r.st.mainPoint == d.mainPoint &&
      IndexKey(e) in r.st.storage.vals && r.st.storage.vals[IndexKey(e)] == Int(i) &&
      (i < |pts| ==> r.out == Ok(Picked(i, Pt(pts[i]))) &&
                     r.st.result.vals == d.result.vals[ResultKey(e) := Picked(i, Pt(pts[i]))]) &&
      (i >= |pts| ==> r.out == Err(UndefinedIndex(i)) && r.st.result == d.result)
  {
    var st := Put(d.storage, IndexKey(e), Int(i));
    PickRead(e, d, i, pts);
    if i < |pts| {
      var res := Merge(d.result, Single(ResultKey(e), Picked(i, Pt(pts[i]))));
      assert Coalesce(res, ResultKey(e)) == Found(Picked(i, Pt(pts[i])));
    }
  }

  /** The reads of `PickExtreme` once index i is stored over the stored list of points. */
  lemma PickRead(e: Extremum, d: State, i: nat, pts: seq<Point>)
    requires FirstSortedKey(e, Coalesce(d.storage, DistancesKey)) == Ok(Some(i))
    requires "points" in d.storage.vals && d.storage.vals["points"] == List(PointValues(pts))
    ensures var st := Put(d.storage, IndexKey(e), Int(i));
      PickExtreme(e, d) ==
        if i < |pts| then
          var res := Merge(d.result, Single(ResultKey(e), Picked(i, Pt(pts[i]))));
          Run(d.(storage := st, result := res), Ok(AsValue(Coalesce(res, ResultKey(e)))))
        else Run(d.(storage := st), Err(UndefinedIndex(i)))
  {
    var st := Put(d.storage, IndexKey(e), Int(i));
    assert Coalesce(st, IndexKey(e)) == Found(Int(i));
    assert Coalesce(st, "points") == Found(List(PointValues(pts)));
  }

  /** A stored non-empty list of numbers sorts to the earliest extreme position. */
  lemma SortedIndex(e: Extremum, d: State, items: seq<Value>)
    requires IsSet(d.storage, DistancesKey) && d.storage.vals[DistancesKey] == List(items)
    requires |items| > 0 && Amounts(items).Some?
    ensures FirstSortedKey(e, Coalesce(d.storage, DistancesKey)) == Ok(Some(Extreme(e, Amounts(items).value)))
  {
  }

  /** The distances of the points from the main point that a call records, as numbers. */
  function Measured(env: Env, s: State): (r: seq<real>)
    requires s.mainPoint.Some? && |s.units.keys| > 0 && s.units.keys[0] in s.units.vals
    ensures |r| == |s.points|
  {
    seq(|s.points|, k requires 0 <= k < |s.points| =>
      InUnit(PairMiles(env.trig, s.mainPoint.value, s.points[k], EachDelta(s)), s.units.vals[s.units.keys[0]]))
  }

  /** Two lists of numbers joined are the numbers joined. */
  lemma AmountsConcat(a: seq<Value>, b: seq<Value>)
    requires Amounts(a).Some? && Amounts(b).Some?
    ensures Amounts(a + b) == Some(Amounts(a).value + Amounts(b).value)
  {
    var ab, xs, ys := a + b, Amounts(a).value, Amounts(b).value;
    var zs := xs + ys;
    forall k | 0 <= k < |ab|
      ensures (ab[k].Num? || ab[k].Int?) && zs[k] == Amount(ab[k])
    {
      if k < |a| {
        assert ab[k] == a[k] && zs[k] == xs[k];
      } else {
        assert ab[k] == b[k - |a|] && zs[k] == ys[k - |a|];
      }
    }
    var r := Amounts(ab);
    assert r.Some?;
    assert r.value == zs;
  }

  /** The recorded distances are the measured numbers. */
  lemma AmountsRecorded(env: Env, s: State)
    requires s.mainPoint.Some? && |s.units.keys| > 0 && s.units.keys[0] in s.units.vals
    ensures Amounts(Recorded(env.trig, s.mainPoint.value, s.points, EachDelta(s), s.units.vals[s.units.keys[0]])) == Some(Measured(env, s))
  {
    var rec := Recorded(env.trig, s.mainPoint.value, s.points, EachDelta(s), s.units.vals[s.units.keys[0]]);
    assert Amounts(rec).Some?;
    assert Amounts(rec).value == Measured(env, s);
  }

  /** Numbers before, numbers after: the whole list is numbers, earlier ones first. */
  lemma AmountsAfter(env: Env, s: State, before: seq<Value>)
    requires s.mainPoint.Some? && |s.units.keys| > 0 && s.units.keys[0] in s.units.vals
    requires Amounts(before).Some?
    ensures var all := before + Recorded(env.trig, s.mainPoint.value, s.points, EachDelta(s), s.units.vals[s.units.keys[0]]);
      Amounts(all).Some? && Amounts(all).value == Amounts(before).value + Measured(env, s)
  {
    AmountsRecorded(env, s);
    AmountsConcat(before, Recorded(env.trig, s.mainPoint.value, s.points, EachDelta(s), s.units.vals[s.units.keys[0]]));
  }

  /** A list that is not empty is stored. */
  lemma ItemsStored(a: Store, key: string)
    requires !IsSet(a, key) || a.vals[key].List?
    requires |Items(a, key)| > 0
    ensures IsSet(a, key) && a.vals[key] == List(Items(a, key))
  {
  }

  /**
   * What a call returns and leaves in the result when the sorted distances
   * give index i: the point at i with its index, when there is one, and
   * otherwise the failed read at i.
   */
  ghost predicate Picks(e: Extremum, r: Run<Value>, pts: seq<Point>, i: nat) {
    (i < |pts| ==> r.out == Ok(Picked(i, Pt(pts[i]))) &&
                   ResultKey(e) in r.st.result.vals && r.st.result.vals[ResultKey(e)] == Picked(i, Pt(pts[i]))) &&
    (i >= |pts| ==> r.out == Err(UndefinedIndex(i)))
  }

  /**
   * `getClosest` (`getFarthest`) when the unit table's first unit is asked
   * for, the store keys the distance loop uses are not unit names, and the
   * distances stored so far are numbers: the index is the earliest extreme
   * of the earlier distances followed by those of the current points; when
   * it is a current point's position, that point is returned with its index
   * and put in the result, and otherwise reading the point fails.
   */
  lemma ExtremeSpec(env: Env, e: Extremum, s: State)
    requires EachReady(env, s) && Amounts(Items(s.storage, DistancesKey)).Some?
    requires |Items(s.storage, DistancesKey)| + |s.points| > 0
    ensures s.units.keys[0] in s.units.vals
    ensures Picks(e, GetExtreme(env, e, s), s.points, Extreme(e, Amounts(Items(s.storage, DistancesKey)).value + Measured(env, s)))
  {
    ResolveEachSpec(env, s);
    var d := ResolveEachDistanceToMainPoint(env, s);
    var all := Items(d.st.storage, DistancesKey);
    AmountsAfter(env, s, Items(s.storage, DistancesKey));
    ItemsStored(d.st.storage, DistancesKey);
    SortedIndex(e, d.st, all);
    ExtremeFrom(env, e, s, d, Extreme(e, Amounts(all).value));
  }

  /** Once the distance loop has succeeded and its distances sort to index i, the call picks as `Picks` says. */
  lemma ExtremeFrom(env: Env, e: Extremum, s: State, d: Run<()>, i: nat)
    requires s.mainPoint.Some? && d == ResolveEachDistanceToMainPoint(env, s) && d.out.Ok?
    requires FirstSortedKey(e, Coalesce(d.st.storage, DistancesKey)) == Ok(Some(i))
    requires "points" in d.st.storage.vals && d.st.storage.vals["points"] == List(PointValues(s.points))
    ensures Picks(e, GetExtreme(env, e, s), s.points, i)
  {
    PickAt(e, d.st, i, s.points);
  }

  /** With no distances stored before, only the current points' distances are sorted. */
  lemma FreshDistances(env: Env, s: State)
    requires EachReady(env, s) && !IsSet(s.storage, DistancesKey) && s.units.keys[0] in s.units.vals
    ensures Amounts(Items(s.storage, DistancesKey)) == Some([])
    ensures Amounts(Items(s.storage, DistancesKey)).value + Measured(env, s) == Measured(env, s)
  {
  }

  /**
   * With no distances stored before, `getClosest` of a non-empty point list
   * picks the point at the earliest position of the least distance from
   * the main point, returns it with its index and puts it in the result
   * under `closest`.
   */
  lemma ClosestSpec(env: Env, s: State)
    requires EachReady(env, s) && !IsSet(s.storage, DistancesKey) && |s.points| > 0
    ensures s.units.keys[0] in s.units.vals
    ensures Picks(Least, GetExtreme(env, Least, s), s.points, Extreme(Least, Measured(env, s)))
  {
    ExtremeSpec(env, Least, s);
    FreshDistances(env, s);
  }

  /**
   * With no distances stored before, `getFarthest` of a non-empty point
   * list picks the point at the earliest position of the greatest distance
   * from the main point, returns it with its index and puts it in the
   * result under `farthest`.
   */
  lemma FarthestSpec(env: Env, s: State)
    requires EachReady(env, s) && !IsSet(s.storage, DistancesKey) && |s.points| > 0
    ensures s.units.keys[0] in s.units.vals
    ensures Picks(Greatest, GetExtreme(env, Greatest, s), s.points, Extreme(Greatest, Measured(env, s)))
  {
    ExtremeSpec(env, Greatest, s);
    FreshDistances(env, s);
  }

  /**
   * With no points and no distances on record there is nothing to pick: an
   * empty stored list sorts to a null index, which reads the whole store
   * and is an illegal offset, and with no list at all the whole store is
   * sorted, which the model reports as a comparison it does not interpret.
   */
  lemma NothingToPick(env: Env, e: Extremum, s: State)
    requires EachReady(env, s) && |s.points| == 0 && Items(s.storage, DistancesKey) == []
    ensures GetExtreme(env, e, s).out == Err(IllegalOffset) || GetExtreme(env, e, s).out == Err(TypeMismatch)
  {
    ResolveEachSpec(env, s);
  }

  /**
   * Distances left by an earlier call are sorted with the new ones: when
   * one of them sorts ahead of every new distance, the index found is a
   * position in the earlier list, not the position of the point it was
   * measured for, and reading the point fails once it is past the current
   * points.
   */
  lemma StaleIndex(env: Env, e: Extremum, s: State, k: nat)
    requires EachReady(env, s) && Amounts(Items(s.storage, DistancesKey)).Some?
    requires k < |Items(s.storage, DistancesKey)|
    requires s.units.keys[0] in s.units.vals
    requires forall j :: 0 <= j < |s.points| ==> Ahead(e, Amounts(Items(s.storage, DistancesKey)).value[k], Measured(env, s)[j])
    ensures var i := Extreme(e, Amounts(Items(s.storage, DistancesKey)).value + Measured(env, s));
      i < |Items(s.storage, DistancesKey)| && Picks(e, GetExtreme(env, e, s), s.points, i)
  {
    ExtremeSpec(env, e, s);
    var before := Amounts(Items(s.storage, DistancesKey)).value;
    var all := before + Measured(env, s);
    var i := Extreme(e, all);
    var a, b := all[k], all[i];
    assert i >= |before| ==> Ahead(e, a, b);
  }
}
