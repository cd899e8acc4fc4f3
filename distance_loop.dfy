/**
 * The pair loop of `getDistance` as a whole: after it, the result holds one
 * entry per adjacent pair, under the pair's label, each the snapshot of the
 * store with that pair's distance in every requested unit; the longitudes of
 * every pair are appended; the points, options, unit table, diameter and
 * tour record are untouched; and an unknown unit stops the run at the first
 * pair, with the units before it already stored.
 */
module DistanceLoop {
  import opened PhpArrays
  import opened Values
  import opened Kernel
  import opened Formatter
  import opened DataStorage
  import opened GeoState
  import opened Distances
  import opened DistanceLaws

  /** The labels of the first i pairs, in order. */
  function Labels(prefix: Option<string>, i: nat): (r: seq<string>)
    ensures |r| == i
  {
    if i == 0 then [] else Labels(prefix, i - 1) + [Label(prefix, i - 1)]
  }

  /** The label of a pair is not among those of the pairs before it. */
  lemma {:induction false} LabelFresh(prefix: Option<string>, i: nat, n: nat)
    requires n <= i
    ensures Label(prefix, i) !in Labels(prefix, n)
  {
    if n > 0 {
      LabelFresh(prefix, i, n - 1);
      LabelRoundTrip(prefix, i);
      LabelRoundTrip(prefix, n - 1);
    }
  }

  /** The entry of pair j in a result: the snapshot of the store of s0 with the miles of that pair. */
  ghost predicate Entry(env: Env, s0: State, res: Store, j: nat)
    requires Plain(s0) && j + 1 < |s0.points|
  {
    Label(env.prefix, j) in res.vals && res.vals[Label(env.prefix, j)].Dict? &&
    res.vals[Label(env.prefix, j)].m.vals == SnapshotOf(s0.storage.vals, UnitsOf(s0.options), s0.units.vals, Miles(env, s0, j))
  }

  /** The result keeps every key of the result of s0 that is not the label of one of the first i pairs. */
  ghost predicate OthersKept(env: Env, s0: State, res: Store, i: nat) {
    forall k :: k !in Labels(env.prefix, i) ==>
      (k in res.vals <==> k in s0.result.vals) && (k in res.vals ==> res.vals[k] == s0.result.vals[k])
  }

  /** The store after the first i pairs: as it was before any, then the snapshot of the last pair done. */
  ghost predicate StoreAfter(env: Env, s0: State, t: State, i: nat)
    requires Plain(s0) && i < |s0.points|
  {
    if i == 0 then t.storage == s0.storage && t.sin == s0.sin && t.cos == s0.cos
    else
      t.storage.vals == SnapshotOf(s0.storage.vals, UnitsOf(s0.options), s0.units.vals, Miles(env, s0, i - 1)) &&
      t.sin == Real(GetAngle(env.trig, s0.points[i - 1].lat, s0.points[i].lat, SinFn)) &&
      t.cos == Real(GetAngle(env.trig, s0.points[i - 1].lat, s0.points[i].lat, CosFn))
  }

  /** The state of the pair loop of `getDistance` started in s0 once the first i pairs are done. */
  ghost predicate PairsDone(env: Env, s0: State, t: State, i: nat) {
    Plain(s0) && i < |s0.points| && SameConfig(s0, t) && Plain(t) &&
    t.longs == s0.longs + LongPairs(s0.points, i) &&
    StoreAfter(env, s0, t, i) &&
    (forall j :: 0 <= j < i ==> Entry(env, s0, t.result, j)) &&
    OthersKept(env, s0, t.result, i) &&
    (s0.result.keys == [] ==> t.result.keys == Labels(env.prefix, i))
  }

  /**
   * Every pair is measured with the same longitude difference: the first
   * two longitudes on record when the loop started, completed by the first
   * pair's own when fewer than two were on record.
   */
  lemma DeltaStable(longs: seq<real>, points: seq<Point>, i: nat)
    requires i + 1 < |points|
    ensures FirstDelta(longs + LongPairs(points, i), points[i..]) == FirstDelta(longs, points)
  {
    var ls := longs + LongPairs(points, i);
    if i > 0 {
      assert ls[..|longs|] == longs;
      if |longs| == 0 {
        assert ls[0] == points[0].long && ls[1] == points[1].long;
      } else if |longs| == 1 {
        assert ls[1] == points[0].long;
      }
    }
  }

  /** The longitudes of the first i + 1 pairs: those of the first i, then the pair at i. */
  lemma LongsStep(longs: seq<real>, points: seq<Point>, i: nat)
    requires i + 1 < |points|
    ensures longs + LongPairs(points, i + 1) == longs + LongPairs(points, i) + [points[i].long, points[i + 1].long]
  {
  }

  /**
   * What one pass of the pair loop makes of t, as [`PairStepSpec`] states
   * it: the pair's longitudes appended, its sin and cos products, the
   * snapshot of its miles as the store, that snapshot in the result.
   */
  ghost predicate Stepped(env: Env, t: State, i: nat, r: State)
    requires Plain(t) && i + 1 < |t.points|
  {
    var p, q := t.points[i], t.points[i + 1];
    SameConfig(t, r) && Plain(r) &&
    r.longs == t.longs + [p.long, q.long] &&
    r.sin == Real(GetAngle(env.trig, p.lat, q.lat, SinFn)) &&
    r.cos == Real(GetAngle(env.trig, p.lat, q.lat, CosFn)) &&
    r.storage.vals == SnapshotOf(t.storage.vals, UnitsOf(t.options), t.units.vals, PairMiles(env.trig, p, q, FirstDelta(t.longs, t.points[i..]))) &&
    r.result == Put(t.result, Label(env.prefix, i), Dict(r.storage))
  }

  /** One pass of the pair loop on a state where every unit asked for is known succeeds and is [`Stepped`]. */
  lemma StepStepped(env: Env, t: State, i: nat)
    requires Plain(t) && i + 1 < |t.points|
    ensures PairStep(env, t, i).out.Ok? && Stepped(env, t, i, PairStep(env, t, i).st)
  {
    PairStepSpec(env, t, i);
  }

  /** One pass of the loop keeps the store, sin and cos as [`StoreAfter`] has them. */
  lemma AdvanceStore(env: Env, s0: State, t: State, i: nat, r: State)
    requires PairsDone(env, s0, t, i) && i + 1 < |s0.points| && Stepped(env, t, i, r)
    ensures StoreAfter(env, s0, r, i + 1)
  {
    DeltaStable(s0.longs, s0.points, i);
    assert Miles(env, s0, i) == PairMiles(env.trig, t.points[i], t.points[i + 1], FirstDelta(t.longs, t.points[i..]));
    if i > 0 {
      SnapshotTwice(s0.storage.vals, UnitsOf(s0.options), s0.units.vals, Miles(env, s0, i - 1), Miles(env, s0, i));
    }
  }

  /** One pass of the loop puts the entry of its own pair. */
  lemma NewEntry(env: Env, s0: State, t: State, i: nat, r: State)
    requires PairsDone(env, s0, t, i) && i + 1 < |s0.points| && Stepped(env, t, i, r)
    ensures Entry(env, s0, r.result, i)
  {
    AdvanceStore(env, s0, t, i, r);
  }

  /** Putting the entry of pair i keeps the entry of an earlier pair j. */
  lemma OldEntry(env: Env, s0: State, res: Store, i: nat, v: Value, j: nat)
    requires Plain(s0) && i + 1 < |s0.points| && j < i && Entry(env, s0, res, j)
    ensures Entry(env, s0, Put(res, Label(env.prefix, i), v), j)
  {
    if Label(env.prefix, j) == Label(env.prefix, i) {
      LabelInjective(env.prefix, j, i);
    }
  }

  /** Putting the entry of pair i keeps the entries of the pairs before it. */
  lemma OldEntries(env: Env, s0: State, res: Store, i: nat, v: Value)
    requires Plain(s0) && i + 1 < |s0.points| && forall j :: 0 <= j < i ==> Entry(env, s0, res, j)
    ensures forall j :: 0 <= j < i ==> Entry(env, s0, Put(res, Label(env.prefix, i), v), j)
  {
    forall j | 0 <= j < i
      ensures Entry(env, s0, Put(res, Label(env.prefix, i), v), j)
    {
      OldEntry(env, s0, res, i, v, j);
    }
  }

  /** The entries of the pairs before i and that of pair i are those of the first i + 1 pairs. */
  lemma EntriesExtend(env: Env, s0: State, res: Store, i: nat)
    requires Plain(s0) && i + 1 < |s0.points|
    requires (forall j :: 0 <= j < i ==> Entry(env, s0, res, j)) && Entry(env, s0, res, i)
    ensures forall j :: 0 <= j < i + 1 ==> Entry(env, s0, res, j)
  {
  }

  /** One pass of the loop adds the entry of its pair and keeps those before it. */
  lemma AdvanceEntries(env: Env, s0: State, t: State, i: nat, r: State)
    requires PairsDone(env, s0, t, i) && i + 1 < |s0.points| && Stepped(env, t, i, r)
    ensures forall j :: 0 <= j < i + 1 ==> Entry(env, s0, r.result, j)
  {
    OldEntries(env, s0, t.result, i, Dict(r.storage));
    NewEntry(env, s0, t, i, r);
    EntriesExtend(env, s0, r.result, i);
  }

  /** One pass of the loop changes no result key but its pair's label. */
  lemma AdvanceOthers(env: Env, s0: State, t: State, i: nat, r: State)
    requires PairsDone(env, s0, t, i) && i + 1 < |s0.points| && Stepped(env, t, i, r)
    ensures OthersKept(env, s0, r.result, i + 1)
  {
  }

  /** From a fresh result, one pass of the loop appends its pair's label to the keys. */
  lemma AdvanceKeys(env: Env, s0: State, t: State, i: nat, r: State)
    requires PairsDone(env, s0, t, i) && i + 1 < |s0.points| && Stepped(env, t, i, r) && s0.result.keys == []
    ensures r.result.keys == Labels(env.prefix, i + 1)
  {
    LabelFresh(env.prefix, i, i);
    Membership(t.result, Label(env.prefix, i));
  }

  /** One pass of the pair loop keeps [`PairsDone`]. */
  lemma Advance(env: Env, s0: State, t: State, i: nat, r: State)
    requires PairsDone(env, s0, t, i) && i + 1 < |s0.points| && Stepped(env, t, i, r)
    ensures PairsDone(env, s0, r, i + 1)
  {
    LongsStep(s0.longs, s0.points, i);
    AdvanceStore(env, s0, t, i, r);
    AdvanceEntries(env, s0, t, i, r);
    AdvanceOthers(env, s0, t, i, r);
    if s0.result.keys == [] {
      AdvanceKeys(env, s0, t, i, r);
    }
  }

  /** The rest of the pair loop, from pair i on, succeeds and ends with every pair done. */
  lemma {:induction false} DistanceFromDone(env: Env, s0: State, t: State, i: nat)
    requires PairsDone(env, s0, t, i)
    ensures DistanceFrom(env, t, i).out.Ok?
    ensures PairsDone(env, s0, DistanceFrom(env, t, i).st, |s0.points| - 1)
    decreases |s0.points| - i
  {
    if i + 1 < |s0.points| {
      var r := PairStep(env, t, i);
      StepStepped(env, t, i);
      Advance(env, s0, t, i, r.st);
      assert DistanceFrom(env, t, i) == DistanceFrom(env, r.st, i + 1);
      DistanceFromDone(env, s0, r.st, i + 1);
    } else {
      assert DistanceFrom(env, t, i) == DistanceFrom(env, t, i + 1);
    }
  }

  /**
   * `getDistance` on a state where every unit asked for is known: it
   * succeeds and returns the result, which holds the entry of every pair
   * under its label and keeps every other key; from a fresh result its keys
   * are exactly the labels, in pair order; the longitudes of every pair are
   * appended, and the store, sin and cos are those of the last pair.
   */
  lemma GetDistanceSpec(env: Env, s: State)
    requires Plain(s) && |s.points| >= 1
    ensures var r := GetDistance(env, s);
      r.out == Ok(r.st.result) &&
      r.st.longs == s.longs + LongPairs(s.points, |s.points| - 1) &&
      StoreAfter(env, s, r.st, |s.points| - 1) &&
      (forall j :: 0 <= j < |s.points| - 1 ==> Entry(env, s, r.st.result, j)) &&
      OthersKept(env, s, r.st.result, |s.points| - 1) &&
      (s.result.keys == [] ==> r.st.result.keys == Labels(env.prefix, |s.points| - 1))
  {
    assert PairsDone(env, s, s, 0);
    DistanceFromDone(env, s, s, 0);
  }

  /** On a fresh store, a pair's snapshot holds exactly the units asked for. */
  lemma FreshSnapshot(us: seq<string>, factors: map<string, real>, miles: real, k: string)
    requires forall u :: u in us ==> u in factors
    ensures k in SnapshotOf(map[], us, factors, miles) <==> k in us
  {
    SnapshotOfSpec(map[], us, factors, miles, k);
  }

  /** The first of the labels is that of the first pair. */
  lemma {:induction false} LabelsFirst(prefix: Option<string>, n: nat)
    requires n >= 1
    ensures Labels(prefix, n)[0] == Label(prefix, 0)
  {
    if n > 1 {
      LabelsFirst(prefix, n - 1);
    }
  }

  /** In a result whose keys are the labels, with the first pair's entry, the first value is that entry. */
  lemma FirstEntryIn(env: Env, s: State, res: Store, u: string)
    requires Plain(s) && |s.points| >= 2 && u in UnitsOf(s.options)
    requires Entry(env, s, res, 0) && res.keys == Labels(env.prefix, |s.points| - 1)
    ensures u in s.units.vals && FirstField(res, u) == Ok(Num(InUnit(Miles(env, s, 0), s.units.vals[u])))
  {
    LabelsFirst(env.prefix, |s.points| - 1);
    SnapshotOfSpec(s.storage.vals, UnitsOf(s.options), s.units.vals, Miles(env, s, 0), u);
  }

  /**
   * With a fresh result, the callback `fn ($r) => $r->first()[$u]` on what
   * `getDistance` returns reads the distance of the first pair in unit u.
   */
  lemma FirstPairIn(env: Env, s: State, u: string)
    requires Plain(s) && |s.points| >= 2 && s.result.keys == [] && u in UnitsOf(s.options)
    ensures GetDistance(env, s).out.Ok?
    ensures u in s.units.vals && FirstField(GetDistance(env, s).out.value, u) == Ok(Num(InUnit(Miles(env, s, 0), s.units.vals[u])))
  {
    var r := GetDistance(env, s);
    GetDistanceSpec(env, s);
    FirstEntryIn(env, s, r.st.result, u);
  }
}
