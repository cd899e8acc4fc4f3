/**
 * What `getDistance` computes: one result entry per adjacent pair, labelled
 * by the pair's position; each entry a snapshot of the store holding the
 * distance in every requested unit; the longitudes only ever appended to, so
 * that every pair uses the difference of the first two ever recorded; and the
 * exceptions for a unit missing from the table.
 */
module DistanceLaws {
  import opened PhpArrays
  import opened Values
  import opened Kernel
  import opened Formatter
  import opened DataStorage
  import opened GeoState
  import opened Distances

  /**
   * Every unit asked for is in the table and differs from the scratch keys
   * and from `""` (the key `getFromStorage()` reads), and the store holds
   * nothing under `""`.
   */
  ghost predicate Plain(s: State) {
    (forall u :: u in UnitsOf(s.options) ==> u in s.units.vals && u !in ScratchKeys && u != "") &&
    !IsSet(s.storage, "")
  }

  /**
   * The store a pair computation leaves behind, given the one before it: the
   * scratch keys gone, each unit asked for holding the distance in it,
   * everything else as it was.
   */
  function SnapshotOf(before: map<string, Value>, us: seq<string>, factors: map<string, real>, miles: real): map<string, Value>
    requires forall u :: u in us ==> u in factors
  {
    map k | k in before.Keys + (set u | u in us) && (k in us || k !in ScratchKeys) ::
      if k in us then Num(InUnit(miles, factors[k])) else before[k]
  }

  /** What a snapshot holds, key by key. */
  lemma SnapshotOfSpec(before: map<string, Value>, us: seq<string>, factors: map<string, real>, miles: real, k: string)
    requires forall u :: u in us ==> u in factors
    ensures k in SnapshotOf(before, us, factors, miles) <==> k in us || (k in before && k !in ScratchKeys)
    ensures k in us ==> SnapshotOf(before, us, factors, miles)[k] == Num(InUnit(miles, factors[k]))
    ensures k in before && k !in us && k !in ScratchKeys ==> SnapshotOf(before, us, factors, miles)[k] == before[k]
  {
  }

  /**
   * The unit loop runs through the units before the first one the table
   * lacks (j), and stops there with the exception for it, or ends without
   * one when the table has them all (j is the length).
   */
  ghost predicate StopsAt(factors: map<string, real>, us: seq<string>, i: nat, j: nat) {
    i <= j <= |us| && (forall k :: i <= k < j ==> us[k] in factors) && (j < |us| ==> us[j] !in factors)
  }

  /** The loop throws for the first unit the table lacks, and for no other. */
  lemma {:induction false} StoreUnitsFromFailure(a: Store, factors: map<string, real>, us: seq<string>, i: nat, d: real, j: nat)
    requires StopsAt(factors, us, i, j)
    ensures StoreUnitsFrom(a, factors, us, i, d).failure == if j < |us| then Some(UnknownUnit(us[j])) else None
    decreases j - i
  {
    if i < j {
      StoreUnitsFromFailure(Put(a, us[i], Num(InUnit(d, factors[us[i]]))), factors, us, i + 1, d, j);
    }
  }

  /** A slice is its first element followed by the rest. */
  lemma SliceFront(us: seq<string>, i: nat, j: nat)
    requires i < j <= |us|
    ensures us[i..j] == [us[i]] + us[i + 1..j]
  {
  }

  /**
   * What the loop leaves under a key: each unit it got through holds the
   * distance times its factor, every other key what it held before.
   */
  lemma {:induction false} StoreUnitsFromAt(a: Store, factors: map<string, real>, us: seq<string>, i: nat, d: real, j: nat, k: string)
    requires StopsAt(factors, us, i, j)
    ensures var w := StoreUnitsFrom(a, factors, us, i, d).store.vals;
      (k in w <==> k in a.vals || k in us[i..j]) &&
      (k in us[i..j] ==> k in factors && w[k] == Num(InUnit(d, factors[k]))) &&
      (k in a.vals && k !in us[i..j] ==> w[k] == a.vals[k])
    decreases j - i
  {
    if i < j {
      var b := Put(a, us[i], Num(InUnit(d, factors[us[i]])));
      assert StoreUnitsFrom(a, factors, us, i, d) == StoreUnitsFrom(b, factors, us, i + 1, d);
      StoreUnitsFromAt(b, factors, us, i + 1, d, j, k);
      SliceFront(us, i, j);
    } else {
      assert us[i..j] == [];
    }
  }

  /** With units requested and all of them known, the unit part is the loop over them, and it succeeds. */
  lemma StoreUnitsRequested(s: State, d: real)
    requires RequestedUnits(s.options).Some?
    requires forall u :: u in UnitsOf(s.options) ==> u in s.units.vals
    ensures StoreUnits(s, d) == Run(s.(storage := StoreUnitsFrom(s.storage, s.units.vals, UnitsOf(s.options), 0, d).store), Ok(()))
  {
    var us := RequestedUnits(s.options).value;
    StoreUnitsFromFailure(s.storage, s.units.vals, us, 0, d, |us|);
  }

  /** The unit part of a pair computation, key by key, with units requested and all of them known. */
  lemma StoreUnitsRequestedAt(s: State, d: real, k: string)
    requires RequestedUnits(s.options).Some?
    requires forall u :: u in UnitsOf(s.options) ==> u in s.units.vals
    ensures StoreUnits(s, d).out.Ok?
    ensures var w := StoreUnits(s, d).st.storage.vals;
      var us := UnitsOf(s.options);
      (k in w <==> k in s.storage.vals || k in us) &&
      (k in us ==> w[k] == Num(InUnit(d, s.units.vals[k]))) &&
      (k in s.storage.vals && k !in us ==> w[k] == s.storage.vals[k])
  {
    var us := UnitsOf(s.options);
    StoreUnitsRequested(s, d);
    Whole(us);
    StoreUnitsFromAt(s.storage, s.units.vals, us, 0, d, |us|, k);
  }

  /** The slice from the first to the last position is the whole sequence. */
  lemma Whole(us: seq<string>)
    ensures us[0..|us|] == us
  {
  }

  /** The unit part of a pair computation, key by key, when every unit it needs is known. */
  lemma StoreUnitsAt(s: State, d: real, k: string)
    requires forall u :: u in UnitsOf(s.options) ==> u in s.units.vals
    ensures StoreUnits(s, d).out.Ok?
    ensures var w := StoreUnits(s, d).st.storage.vals;
      var us := UnitsOf(s.options);
      (k in w <==> k in s.storage.vals || k in us) &&
      (k in us ==> w[k] == Num(InUnit(d, s.units.vals[k]))) &&
      (k in s.storage.vals && k !in us ==> w[k] == s.storage.vals[k])
  {
    if RequestedUnits(s.options).Some? {
      StoreUnitsRequestedAt(s, d, k);
    } else {
      assert "mile" in UnitsOf(s.options);
    }
  }

  /** Maps with the same keys and the same value under each are equal. */
  lemma SameEntries(a: map<string, Value>, b: map<string, Value>)
    requires forall k :: k in a <==> k in b
    requires forall k :: k in a ==> a[k] == b[k]
    ensures a == b
  {
  }

  /**
   * Removing the scratch keys after storing the units leaves nothing under
   * `""`, so `getFromStorage()` returns the whole store.
   */
  lemma ResolveOutcome(s: State, d: real)
    requires forall u :: u in UnitsOf(s.options) ==> u in s.units.vals && u != ""
    requires !IsSet(s.storage, "")
    ensures ResolveDistanceWithUnits(s, d).out == Ok(Dict(ResolveDistanceWithUnits(s, d).st.storage))
    ensures !IsSet(ResolveDistanceWithUnits(s, d).st.storage, "")
  {
    var stored := StoreUnits(s, d);
    StoreUnitsAt(s, d, "");
    RemoveKeysSpec(stored.st.storage, ScratchKeys, "");
  }

  /** Removing the scratch keys after storing the units: the store becomes the snapshot of the one before. */
  lemma ResolveSpec(s: State, d: real)
    requires forall u :: u in UnitsOf(s.options) ==> u in s.units.vals && u !in ScratchKeys
    requires IsSet(s.storage, "position") && IsSet(s.storage, "distance_key") && IsSet(s.storage, "distance")
    requires IsSet(s.storage, "rad2deg") && IsSet(s.storage, "correctDistanceValue")
    ensures ResolveDistanceWithUnits(s, d).st.storage.vals == SnapshotOf(s.storage.vals, UnitsOf(s.options), s.units.vals, d)
  {
    var stored := StoreUnits(s, d).st.storage;
    StoreUnitsAt(s, d, "");
    var after := RemoveKeys(stored, ScratchKeys).vals;
    var snap := SnapshotOf(s.storage.vals, UnitsOf(s.options), s.units.vals, d);
    forall k
      ensures (k in after <==> k in snap) && (k in after ==> after[k] == snap[k])
    {
      StoreUnitsAt(s, d, k);
      RemoveKeysSpec(stored, ScratchKeys, k);
      SnapshotOfSpec(s.storage.vals, UnitsOf(s.options), s.units.vals, d, k);
    }
    SameEntries(after, snap);
  }

  /** A snapshot does not depend on what the store held under the scratch keys. */
  lemma SnapshotIgnoresScratch(b1: map<string, Value>, b2: map<string, Value>, us: seq<string>,
                               factors: map<string, real>, miles: real)
    requires forall u :: u in us ==> u in factors
    requires forall k :: k !in ScratchKeys ==> (k in b1 <==> k in b2)
    requires forall k :: k !in ScratchKeys && k in b1 ==> b1[k] == b2[k]
    ensures SnapshotOf(b1, us, factors, miles) == SnapshotOf(b2, us, factors, miles)
  {
    var s1, s2 := SnapshotOf(b1, us, factors, miles), SnapshotOf(b2, us, factors, miles);
    forall k
      ensures (k in s1 <==> k in s2) && (k in s1 ==> s1[k] == s2[k])
    {
      SnapshotOfSpec(b1, us, factors, miles, k);
      SnapshotOfSpec(b2, us, factors, miles, k);
    }
    SameEntries(s1, s2);
  }

  /** A later pair's snapshot overwrites the units of an earlier one, so it only depends on the store before both. */
  lemma SnapshotTwice(b: map<string, Value>, us: seq<string>, factors: map<string, real>, m1: real, m2: real)
    requires forall u :: u in us ==> u in factors
    ensures SnapshotOf(SnapshotOf(b, us, factors, m1), us, factors, m2) == SnapshotOf(b, us, factors, m2)
  {
    var once := SnapshotOf(b, us, factors, m1);
    var s1, s2 := SnapshotOf(once, us, factors, m2), SnapshotOf(b, us, factors, m2);
    forall k
      ensures (k in s1 <==> k in s2) && (k in s1 ==> s1[k] == s2[k])
    {
      SnapshotOfSpec(b, us, factors, m1, k);
      SnapshotOfSpec(once, us, factors, m2, k);
      SnapshotOfSpec(b, us, factors, m2, k);
    }
    SameEntries(s1, s2);
  }

  /** The store `calcDistance` writes before it converts to units. */
  function Prepared(env: Env, s: State): (r: State)
    requires s.sin.Real? && s.cos.Real? && |s.longs| >= 2
    ensures r == s.(storage := r.storage)
  {
    var arc := Arc(env, s);
    s.(storage := Put(Put(Put(s.storage, "distance", Num(arc)), "rad2deg", Num(Rad2Deg(arc))), "correctDistanceValue", Num(CorrectDistanceValue(Rad2Deg(arc)))))
  }

  /** `calcDistance` is the unit part on the store with the arc, its degrees and its miles, for those miles. */
  lemma CalcDistanceResolves(env: Env, s: State)
    requires s.sin.Real? && s.cos.Real? && |s.longs| >= 2
    ensures CalcDistance(env, s) == ResolveDistanceWithUnits(Prepared(env, s), CorrectDistanceValue(Rad2Deg(Arc(env, s))))
  {
  }

  /** The prepared store sets the three arc keys and keeps the position, the key and everything outside the scratch keys. */
  lemma PreparedSpec(env: Env, s: State)
    requires s.sin.Real? && s.cos.Real? && |s.longs| >= 2
    requires IsSet(s.storage, "position") && IsSet(s.storage, "distance_key") && !IsSet(s.storage, "")
    ensures var p := Prepared(env, s).storage;
      IsSet(p, "position") && IsSet(p, "distance_key") && IsSet(p, "distance") &&
      IsSet(p, "rad2deg") && IsSet(p, "correctDistanceValue") && !IsSet(p, "") &&
      (forall k :: k !in ScratchKeys ==> (k in p.vals <==> k in s.storage.vals)) &&
      (forall k :: k !in ScratchKeys && k in p.vals ==> p.vals[k] == s.storage.vals[k])
  {
  }

  /**
   * `calcDistance` on a state whose units are all known and whose store
   * holds the position and key: the store becomes the snapshot of the miles
   * of the arc, and that snapshot is returned.
   */
  lemma CalcDistanceSpec(env: Env, s: State)
    requires s.sin.Real? && s.cos.Real? && |s.longs| >= 2
    requires Plain(s) && IsSet(s.storage, "position") && IsSet(s.storage, "distance_key")
    ensures var r := CalcDistance(env, s);
      r.out == Ok(Dict(r.st.storage)) && r.st == s.(storage := r.st.storage) &&
      r.st.storage.vals == SnapshotOf(s.storage.vals, UnitsOf(s.options), s.units.vals, CorrectDistanceValue(Rad2Deg(Arc(env, s)))) &&
      !IsSet(r.st.storage, "")
  {
    var miles := CorrectDistanceValue(Rad2Deg(Arc(env, s)));
    var c3 := Prepared(env, s);
    CalcDistanceResolves(env, s);
    PreparedSpec(env, s);
    ResolveOutcome(c3, miles);
    ResolveSpec(c3, miles);
    SnapshotIgnoresScratch(c3.storage.vals, s.storage.vals, UnitsOf(s.options), s.units.vals, miles);
  }

  /** The set-up of a pair: the products for its latitudes, its longitudes appended, position and key stored. */
  lemma PairSetupSpec(env: Env, s: State, i: nat)
    requires i + 1 < |s.points|
    ensures var t := PairSetup(env, s, i);
      var p, q := s.points[i], s.points[i + 1];
      t.longs == s.longs + [p.long, q.long] &&
      t.sin == Real(GetAngle(env.trig, p.lat, q.lat, SinFn)) &&
      t.cos == Real(GetAngle(env.trig, p.lat, q.lat, CosFn)) &&
      IsSet(t.storage, "position") && IsSet(t.storage, "distance_key") &&
      (forall k :: k !in ScratchKeys ==> (k in t.storage.vals <==> k in s.storage.vals)) &&
      (forall k :: k !in ScratchKeys && k in t.storage.vals ==> t.storage.vals[k] == s.storage.vals[k])
  {
  }

  /** The longitude pairs the first i pairs of points record. */
  function LongPairs(points: seq<Point>, i: nat): (r: seq<real>)
    requires i < |points|
    ensures |r| == 2 * i
    ensures i >= 1 ==> r[0] == points[0].long && r[1] == points[1].long
  {
    if i == 0 then [] else LongPairs(points, i - 1) + [points[i - 1].long, points[i].long]
  }

  /**
   * The longitude difference a pair is measured with: that of the first two
   * longitudes on record once the pair's own two are appended.
   */
  function FirstDelta(longs: seq<real>, points: seq<Point>): real
    requires |points| >= 2
  {
    var ls := longs + [points[0].long, points[1].long];
    ls[0] - ls[1]
  }

  /**
   * The miles of the pair at j measured with that pair's own longitude
   * difference, as every pair of `getDistance` is evidently meant to be.
   */
  function OwnMiles(env: Env, points: seq<Point>, j: nat): real
    requires j + 1 < |points|
  {
    PairMiles(env.trig, points[j], points[j + 1], points[j].long - points[j + 1].long)
  }

  /** A pair measured on its own, by a calculator with no longitudes on record, gets its own miles. */
  lemma OwnMilesAlone(env: Env, s: State, points: seq<Point>, j: nat)
    requires j + 1 < |points| && s.longs == [] && s.points == [points[j], points[j + 1]]
    ensures Miles(env, s, 0) == OwnMiles(env, points, j)
  {
  }

  /**
   * As written, the second pair of a three-point `getDistance` on a
   * calculator with no longitudes on record is measured with the first
   * pair's longitude difference, not its own.
   */
  lemma StaleDelta(env: Env, s: State)
    requires s.longs == [] && |s.points| == 3
    ensures Miles(env, s, 1) == PairMiles(env.trig, s.points[1], s.points[2], s.points[0].long - s.points[1].long)
    ensures OwnMiles(env, s.points, 1) == PairMiles(env.trig, s.points[1], s.points[2], s.points[1].long - s.points[2].long)
    ensures s.points[0].long - s.points[1].long != s.points[1].long - s.points[2].long ==>
      FirstDelta(s.longs, s.points) != s.points[1].long - s.points[2].long
  {
  }

  /** The miles `getDistance` computes for the pair at j of a run that started with the longitudes of s. */
  function Miles(env: Env, s: State, j: nat): real
    requires j + 1 < |s.points|
  {
    PairMiles(env.trig, s.points[j], s.points[j + 1], FirstDelta(s.longs, s.points))
  }

  /** The miles of the arc a pair's set-up leads to. */
  lemma PairSetupMiles(env: Env, s: State, i: nat)
    requires i + 1 < |s.points|
    ensures CorrectDistanceValue(Rad2Deg(Arc(env, PairSetup(env, s, i)))) ==
            PairMiles(env.trig, s.points[i], s.points[i + 1], FirstDelta(s.longs, s.points[i..]))
  {
    var t := PairSetup(env, s, i);
    var p, q := s.points[i], s.points[i + 1];
    PairSetupSpec(env, s, i);
    assert t.sin.r == GetAngle(env.trig, p.lat, q.lat, SinFn) && t.cos.r == GetAngle(env.trig, p.lat, q.lat, CosFn);
    assert t.longs[0] - t.longs[1] == FirstDelta(s.longs, s.points[i..]);
  }

  /** A pair's set-up keeps every unit known and nothing under `""`. */
  lemma PairSetupPlain(env: Env, s: State, i: nat)
    requires i + 1 < |s.points| && Plain(s)
    ensures Plain(PairSetup(env, s, i))
    ensures IsSet(PairSetup(env, s, i).storage, "position") && IsSet(PairSetup(env, s, i).storage, "distance_key")
  {
    PairSetupSpec(env, s, i);
    assert "" !in ScratchKeys;
  }

  /**
   * One pass of the pair loop on a state where every unit asked for is
   * known: it succeeds, and puts the store `calcDistance` leaves in the
   * result under the pair's label.
   */
  lemma PairStepOutcome(env: Env, s: State, i: nat)
    requires i + 1 < |s.points| && Plain(s)
    ensures var c := CalcDistance(env, PairSetup(env, s, i));
      PairStep(env, s, i) == Run(c.st.(result := Put(c.st.result, Label(env.prefix, i), Dict(c.st.storage))), Ok(()))
  {
    var t := PairSetup(env, s, i);
    PairSetupPlain(env, s, i);
    var c := CalcDistance(env, t);
    CalcDistanceSpec(env, t);
    MergeSingle(c.st.result, Label(env.prefix, i), Dict(c.st.storage));
  }

  /**
   * The store after one pass of the pair loop: the snapshot of its miles,
   * measured with the first two longitudes on record once the pair's own
   * are appended, and nothing under `""`.
   */
  lemma PairStepStorage(env: Env, s: State, i: nat)
    requires i + 1 < |s.points| && Plain(s)
    ensures var c := CalcDistance(env, PairSetup(env, s, i));
      c.st.storage.vals == SnapshotOf(s.storage.vals, UnitsOf(s.options), s.units.vals,
                                      PairMiles(env.trig, s.points[i], s.points[i + 1], FirstDelta(s.longs, s.points[i..]))) &&
      !IsSet(c.st.storage, "")
  {
    var t := PairSetup(env, s, i);
    PairSetupSpec(env, s, i);
    PairSetupPlain(env, s, i);
    PairSetupMiles(env, s, i);
    CalcDistanceSpec(env, t);
    SnapshotIgnoresScratch(t.storage.vals, s.storage.vals, UnitsOf(s.options), s.units.vals, CorrectDistanceValue(Rad2Deg(Arc(env, t))));
  }

  /**
   * One pass of the pair loop on a state where every unit asked for is
   * known: the pair's longitudes appended, its sin and cos products kept,
   * the store the snapshot of its miles, and that snapshot put in the result
   * under the pair's label.
   */
  lemma PairStepSpec(env: Env, s: State, i: nat)
    requires i + 1 < |s.points| && Plain(s)
    ensures var r := PairStep(env, s, i);
      var p, q := s.points[i], s.points[i + 1];
      r.out.Ok? && r.st.longs == s.longs + [p.long, q.long] &&
      r.st.sin == Real(GetAngle(env.trig, p.lat, q.lat, SinFn)) &&
      r.st.cos == Real(GetAngle(env.trig, p.lat, q.lat, CosFn)) &&
      r.st.storage.vals == SnapshotOf(s.storage.vals, UnitsOf(s.options), s.units.vals, PairMiles(env.trig, p, q, FirstDelta(s.longs, s.points[i..]))) &&
      !IsSet(r.st.storage, "") &&
      r.st.result == Put(s.result, Label(env.prefix, i), Dict(r.st.storage))
  {
    var t := PairSetup(env, s, i);
    PairSetupSpec(env, s, i);
    PairSetupPlain(env, s, i);
    CalcDistanceSpec(env, t);
    PairStepOutcome(env, s, i);
    PairStepStorage(env, s, i);
  }

  /** With fewer than two points there is no pair: nothing changes and the result is returned as it is. */
  lemma NoPairs(env: Env, s: State)
    requires |s.points| < 2
    ensures GetDistance(env, s) == Run(s, Ok(s.result))
  {
    if |s.points| == 1 {
      assert DistanceFrom(env, s, 0) == DistanceFrom(env, s, 1);
    }
  }

  /** A pass of the pair loop that succeeds hands its state to the rest of the loop. */
  lemma DistanceFromOk(env: Env, s: State, i: nat, t: State)
    requires i + 1 < |s.points| && PairStep(env, s, i) == Run(t, Ok(()))
    ensures DistanceFrom(env, s, i) == DistanceFrom(env, t, i + 1)
  {
  }

  /** A pass of the pair loop that throws ends the loop with its state. */
  lemma DistanceFromErr(env: Env, s: State, i: nat, t: State, e: Error)
    requires i + 1 < |s.points| && PairStep(env, s, i) == Run(t, Err(e))
    ensures DistanceFrom(env, s, i) == Run(t, Err(e))
  {
  }

  /** The last point has no pair; the loop moves past it. */
  lemma DistanceFromLast(env: Env, s: State, i: nat)
    requires i + 1 == |s.points|
    ensures DistanceFrom(env, s, i) == Run(s, Ok(()))
  {
    assert DistanceFrom(env, s, i) == DistanceFrom(env, s, i + 1);
  }

  /** `getDistance` returns the result the loop leaves, or throws what the loop threw. */
  lemma GetDistanceOfLoop(env: Env, s: State, t: State, out: Result<()>)
    requires DistanceFrom(env, s, 0) == Run(t, out)
    ensures GetDistance(env, s) == Run(t, if out.Ok? then Ok(t.result) else Err(out.error))
  {
  }
}
