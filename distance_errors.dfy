/**
 * The failures of `getDistance`: a requested unit missing from the table
 * throws at the first pair, once the units listed before it are stored; with
 * no units requested and no `mile` in the table, reading its factor fails.
 * Either way the result is left as it was.
 */
module DistanceErrors {
  import opened PhpArrays
  import opened Values
  import opened Kernel
  import opened Formatter
  import opened DataStorage
  import opened GeoState
  import opened Distances
  import opened DistanceLaws

  /** The units asked for are listed, and the j-th is the first the table does not have. */
  ghost predicate FirstUnknown(s: State, j: nat) {
    RequestedUnits(s.options).Some? && StopsAt(s.units.vals, UnitsOf(s.options), 0, j) && j < |UnitsOf(s.options)|
  }

  /** The unit part stops at the first unknown unit, with the units before it written. */
  lemma ResolveStops(s: State, d: real, j: nat)
    requires FirstUnknown(s, j)
    ensures ResolveDistanceWithUnits(s, d) ==
            Run(s.(storage := StoreUnitsFrom(s.storage, s.units.vals, UnitsOf(s.options), 0, d).store), Err(UnknownUnit(UnitsOf(s.options)[j])))
  {
    StoreUnitsFromFailure(s.storage, s.units.vals, UnitsOf(s.options), 0, d, j);
  }

  /** A unit listed before the first unknown one holds the distance in it once the unit part throws. */
  lemma ResolveStoresBefore(s: State, d: real, j: nat, k: string)
    requires FirstUnknown(s, j) && k in UnitsOf(s.options)[..j]
    ensures k in s.units.vals && k in ResolveDistanceWithUnits(s, d).st.storage.vals &&
            ResolveDistanceWithUnits(s, d).st.storage.vals[k] == Num(InUnit(d, s.units.vals[k]))
  {
    var us := UnitsOf(s.options);
    ResolveStops(s, d, j);
    assert us[0..j] == us[..j];
    StoreUnitsFromAt(s.storage, s.units.vals, us, 0, d, j, k);
  }

  /** A state whose first unknown unit is the j-th keeps it so once prepared. */
  lemma PreparedUnknown(env: Env, s: State, j: nat)
    requires s.sin.Real? && s.cos.Real? && |s.longs| >= 2 && FirstUnknown(s, j)
    ensures FirstUnknown(Prepared(env, s), j)
  {
  }

  /**
   * `getDistance` with at least one pair and an unknown unit throws the
   * unit's exception at the first pair, leaving the result as it was, the
   * first pair's longitudes appended, and the state `calcDistance` of the
   * first pair leaves behind.
   */
  lemma GetDistanceStops(env: Env, s: State, j: nat)
    requires |s.points| >= 2 && FirstUnknown(s, j)
    ensures GetDistance(env, s).out == Err(UnknownUnit(UnitsOf(s.options)[j]))
    ensures GetDistance(env, s).st == CalcDistance(env, PairSetup(env, s, 0)).st
    ensures GetDistance(env, s).st.result == s.result
    ensures GetDistance(env, s).st.longs == s.longs + [s.points[0].long, s.points[1].long]
  {
    var t := PairSetup(env, s, 0);
    PairSetupSpec(env, s, 0);
    CalcDistanceResolves(env, t);
    PreparedUnknown(env, t, j);
    ResolveStops(Prepared(env, t), CorrectDistanceValue(Rad2Deg(Arc(env, t))), j);
    assert PairStep(env, s, 0) == Run(CalcDistance(env, t).st, Err(UnknownUnit(UnitsOf(s.options)[j])));
    assert DistanceFrom(env, s, 0) == PairStep(env, s, 0);
  }

  /** When `getDistance` throws for an unknown unit, each unit listed before it holds the first pair's distance. */
  lemma GetDistanceStoresBefore(env: Env, s: State, j: nat, k: string)
    requires |s.points| >= 2 && FirstUnknown(s, j) && k in UnitsOf(s.options)[..j]
    ensures k in s.units.vals && k in GetDistance(env, s).st.storage.vals &&
            GetDistance(env, s).st.storage.vals[k] == Num(InUnit(Miles(env, s, 0), s.units.vals[k]))
  {
    var t := PairSetup(env, s, 0);
    var p, d := Prepared(env, t), CorrectDistanceValue(Rad2Deg(Arc(env, t)));
    FirstPairStops(env, s, j, t, p, d);
    ResolveStoresBefore(p, d, j, k);
  }

  /** With an unknown unit, `getDistance` leaves what converting the first pair's distance d leaves. */
  lemma FirstPairStops(env: Env, s: State, j: nat, t: State, p: State, d: real)
    requires |s.points| >= 2 && FirstUnknown(s, j)
    requires t == PairSetup(env, s, 0) && p == Prepared(env, t) && d == CorrectDistanceValue(Rad2Deg(Arc(env, t)))
    ensures GetDistance(env, s).st == ResolveDistanceWithUnits(p, d).st
    ensures FirstUnknown(p, j) && p.units == s.units && p.options == s.options && d == Miles(env, s, 0)
  {
    PairSetupSpec(env, s, 0);
    GetDistanceStops(env, s, j);
    CalcDistanceResolves(env, t);
    PreparedUnknown(env, t, j);
    PairSetupMiles(env, s, 0);
    assert s.points[0..] == s.points;
  }

  /** With no units asked for and no `mile` in the table, reading its factor fails and nothing is stored. */
  lemma ResolveNoMile(s: State, d: real)
    requires RequestedUnits(s.options).None? && "mile" !in s.units.vals
    ensures ResolveDistanceWithUnits(s, d) == Run(s, Err(UndefinedKey("mile")))
  {
  }

  /** `getDistance` with at least one pair, no units asked for and no `mile` in the table fails at the first pair. */
  lemma GetDistanceNoMile(env: Env, s: State)
    requires |s.points| >= 2 && RequestedUnits(s.options).None? && "mile" !in s.units.vals
    ensures GetDistance(env, s).out == Err(UndefinedKey("mile"))
    ensures GetDistance(env, s).st.result == s.result
  {
    var t := PairSetup(env, s, 0);
    CalcDistanceResolves(env, t);
    ResolveNoMile(Prepared(env, t), CorrectDistanceValue(Rad2Deg(Arc(env, t))));
    assert DistanceFrom(env, s, 0) == PairStep(env, s, 0);
  }
}
