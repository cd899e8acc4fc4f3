/**
 * Ordered PHP arrays: every key once, in insertion order, each with its value.
 * The calculator keeps its scratch store, its result, its options, its unit
 * table and the tour it builds in arrays of this kind; `first()`, `array_merge`
 * and `unset` observe or keep the order.
 */
module PhpArrays {

  datatype OMap<K(==,!new), V> = OMap(keys: seq<K>, vals: map<K, V>) {
    /** Keys are distinct and are exactly the keys that carry a value. */
    ghost predicate Valid() {
      Unique(keys) && (forall k {:trigger Listed(keys, k)} :: Listed(keys, k) <==> k in vals)
    }
  }

  /** The key is in the list; membership is stated through it so that it is used only where it is needed. */
  ghost predicate Listed<K>(s: seq<K>, k: K) {
    k in s
  }

  /** The i-th element of a sequence; distinctness is stated through it so that it is used only where it is needed. */
  ghost function At<K>(s: seq<K>, i: int): K
    requires 0 <= i < |s|
  {
    s[i]
  }

  /** No element occurs twice. */
  ghost predicate Unique<K>(s: seq<K>) {
    forall i, j :: 0 <= i < j < |s| ==> At(s, i) != At(s, j)
  }

  /** A well-formed PHP array. */
  type PhpArray<K(==,!new), V> = m: OMap<K, V> | m.Valid() witness OMap([], map[])

  function Empty<K(==,!new), V>(): (r: PhpArray<K, V>)
    ensures r.keys == [] && r.vals == map[]
  {
    OMap([], map[])
  }

  /** A one-entry array `[k => v]`. */
  function Single<K(==,!new), V>(k: K, v: V): (r: PhpArray<K, V>)
    ensures r.keys == [k] && k in r.vals && r.vals[k] == v && r.vals.Keys == {k}
  {
    OMap([k], map[k := v])
  }

  /** A key is listed exactly when it carries a value. */
  lemma Membership<K(!new), V>(m: PhpArray<K, V>, k: K)
    ensures k in m.keys <==> k in m.vals
  {
    assert Listed(m.keys, k) <==> k in m.vals;
  }

  /** Every key is listed exactly when it carries a value. */
  lemma MembershipAll<K(!new), V>(m: PhpArray<K, V>)
    ensures forall k :: k in m.keys <==> k in m.vals
  {
    forall k ensures k in m.keys <==> k in m.vals {
      Membership(m, k);
    }
  }

  /** The value under the first key: what `reset()` or a collection's `first()` gives. */
  function FirstValue<K(==,!new), V>(m: PhpArray<K, V>): (r: V)
    requires |m.keys| > 0
    ensures m.keys[0] in m.vals && r == m.vals[m.keys[0]]
  {
    Membership(m, m.keys[0]);
    m.vals[m.keys[0]]
  }

  /** The value under the last key: `$a[array_key_last($a)]`. */
  function LastValue<K(==,!new), V>(m: PhpArray<K, V>): (r: V)
    requires |m.keys| > 0
    ensures m.keys[|m.keys| - 1] in m.vals && r == m.vals[m.keys[|m.keys| - 1]]
  {
    Membership(m, m.keys[|m.keys| - 1]);
    m.vals[m.keys[|m.keys| - 1]]
  }

  /** A distinct sequence extended by a new element stays distinct. */
  lemma UniqueSnoc<K>(s: seq<K>, k: K)
    requires Unique(s) && k !in s
    ensures Unique(s + [k])
  {
    forall i, j | 0 <= i < j < |s| + 1
      ensures At(s + [k], i) != At(s + [k], j)
    {
      assert At(s + [k], i) == At(s, i);
      if j < |s| {
        assert At(s + [k], j) == At(s, j);
      }
    }
  }

  /** `$a[$k] = $v`: an existing key keeps its position, a new key goes last. */
  function Put<K(==,!new), V>(m: PhpArray<K, V>, k: K, v: V): (r: PhpArray<K, V>)
    ensures r.vals == m.vals[k := v]
    ensures k in m.vals ==> r.keys == m.keys
    ensures k !in m.vals ==> r.keys == m.keys + [k]
  {
    if k in m.vals then OMap(m.keys, m.vals[k := v])
    else
      MembershipAll(m);
      UniqueSnoc(m.keys, k);
      OMap(m.keys + [k], m.vals[k := v])
  }

  /** `$a[$k] = $v` for a key the array already has: the order is unchanged. */
  function Overwrite<K(==,!new), V>(m: PhpArray<K, V>, k: K, v: V): (r: PhpArray<K, V>)
    requires k in m.vals
    ensures r.keys == m.keys && r.vals == m.vals[k := v]
  {
    OMap(m.keys, m.vals[k := v])
  }

  /** Writing a key the array has is overwriting it. */
  lemma PutPresent<K(!new), V>(m: PhpArray<K, V>, k: K, v: V)
    requires k in m.vals
    ensures Put(m, k, v) == Overwrite(m, k, v)
  {
  }

  /** The keys of `s` other than `k`, in their order. */
  function Without<K(==,!new)>(s: seq<K>, k: K): (r: seq<K>)
    ensures forall x :: x in r <==> x in s && x != k
    ensures |r| <= |s|
  {
    if |s| == 0 then []
    else
      assert forall x :: x in s[1..] ==> x in s;
      if s[0] == k then Without(s[1..], k) else [s[0]] + Without(s[1..], k)
  }

  /** Dropping the occurrences of a key from a distinct sequence leaves it distinct. */
  lemma {:induction false} WithoutUnique<K(!new)>(s: seq<K>, k: K)
    requires Unique(s)
    ensures Unique(Without(s, k))
    decreases |s|
  {
    if |s| > 0 {
      var t := s[1..];
      forall i, j | 0 <= i < j < |t|
        ensures At(t, i) != At(t, j)
      {
        assert At(t, i) == At(s, i + 1) && At(t, j) == At(s, j + 1);
      }
      WithoutUnique(t, k);
      if s[0] != k {
        var w := Without(t, k);
        forall j | 0 < j < |s| ensures s[0] != s[j] {
          assert At(s, 0) != At(s, j);
        }
        assert s[0] !in t;
        forall i, j | 0 <= i < j < |w| + 1
          ensures At([s[0]] + w, i) != At([s[0]] + w, j)
        {
          assert At([s[0]] + w, j) == At(w, j - 1);
          if i > 0 {
            assert At([s[0]] + w, i) == At(w, i - 1);
          }
        }
      }
    }
  }

  /** `unset($a[$k])`. */
  function Remove<K(==,!new), V>(m: PhpArray<K, V>, k: K): (r: PhpArray<K, V>)
    ensures r.vals == m.vals - {k}
    ensures k !in m.vals ==> r == m
  {
    if k !in m.vals then m
    else
      MembershipAll(m);
      WithoutUnique(m.keys, k);
      OMap(Without(m.keys, k), m.vals - {k})
  }

  /** `array_merge($m, $n)` for string-style keys: entries of `n` override, in `n`'s order. */
  function Merge<K(==,!new), V>(m: PhpArray<K, V>, n: PhpArray<K, V>): (r: PhpArray<K, V>)
    ensures r.vals == m.vals + n.vals
    ensures |m.keys| <= |r.keys| && r.keys[..|m.keys|] == m.keys
  {
    MembershipAll(n);
    var r := MergeKeys(m, n, n.keys);
    assert r.keys[..|m.keys|] == m.keys;
    assert forall k :: k in r.vals <==> k in m.vals + n.vals;
    assert forall k :: k in r.vals ==> r.vals[k] == (m.vals + n.vals)[k];
    r
  }

  /** Puts the entries of `n` under `ks`, one after the other. */
  function MergeKeys<K(==,!new), V>(m: PhpArray<K, V>, n: PhpArray<K, V>, ks: seq<K>): (r: PhpArray<K, V>)
    requires forall k :: k in ks ==> k in n.vals
    ensures forall k :: k in r.vals <==> k in m.vals || k in ks
    ensures forall k :: k in ks ==> r.vals[k] == n.vals[k]
    ensures forall k :: k in m.vals && k !in ks ==> r.vals[k] == m.vals[k]
    ensures |m.keys| <= |r.keys| && forall i :: 0 <= i < |m.keys| ==> r.keys[i] == m.keys[i]
    decreases |ks|
  {
    if |ks| == 0 then m
    else
      var m' := Put(m, ks[0], n.vals[ks[0]]);
      var r := MergeKeys(m', n, ks[1..]);
      assert forall k :: k in ks ==> k == ks[0] || k in ks[1..];
      r
  }

  /** Merging a one-entry array is writing that entry. */
  lemma MergeSingle<K(!new), V>(m: PhpArray<K, V>, k: K, v: V)
    ensures Merge(m, Single(k, v)) == Put(m, k, v)
  {
    var s := Single(k, v);
    assert s.keys[1..] == [];
    assert MergeKeys(m, s, s.keys) == MergeKeys(Put(m, k, v), s, []);
  }
}
