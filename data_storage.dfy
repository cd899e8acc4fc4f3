/**
 * The scratch store, result and options of the calculator: how a value is
 * read back (`$a[$k] ?? $a`), appended to, copied out under several keys, and
 * removed. A stored null counts as not set, as PHP's `isset` and `??` have it.
 */
module DataStorage {
  import opened PhpArrays
  import opened Values

  type Store = PhpArray<string, Value>

  /** `isset($a[$k])`. */
  predicate IsSet(a: Store, key: string) {
    key in a.vals && a.vals[key] != Null
  }

  /**
   * `$a[$key] ?? $a`, the read behind getFromStorage and getResultByKey. A
   * null key reads the key `""`, as PHP converts it.
   */
  function Coalesce(a: Store, key: string): (r: Lookup<Value, Store>)
    ensures r.Found? <==> IsSet(a, key)
    ensures r.Found? ==> r.value == a.vals[key]
    ensures r.Whole? ==> r.all == a
  {
    if IsSet(a, key) then Found(a.vals[key]) else Whole(a)
  }

  /** The lookup as a PHP value: the whole array when the key is not set. */
  function AsValue(l: Lookup<Value, Store>): Value {
    match l
    case Found(v) => v
    case Whole(a) => Dict(a)
  }

  /** `getOptions($key)`: an option value, or all options. */
  function OptionsLookup(options: PhpArray<string, seq<string>>, key: string)
    : (r: Lookup<seq<string>, PhpArray<string, seq<string>>>)
    ensures r.Found? <==> key in options.vals
    ensures r.Found? ==> r.value == options.vals[key]
    ensures r.Whole? ==> r.all == options
  {
    if key in options.vals then Found(options.vals[key]) else Whole(options)
  }

  /** Writing a value and reading it back gives the value, unless it is null. */
  lemma StoreRoundTrip(a: Store, key: string, v: Value)
    ensures Coalesce(Put(a, key, v), key) == if v == Null then Whole(Put(a, key, v)) else Found(v)
    ensures forall k :: k != key ==>
              Coalesce(Put(a, key, v), k) == (if IsSet(a, k) then Found(a.vals[k]) else Whole(Put(a, key, v)))
  {
  }

  /**
   * `appendToStorage`: an unset key starts as an empty list; the value goes
   * at the end. Appending to a value that is not a list is an error.
   */
  function Append(a: Store, key: string, v: Value): (r: Result<Store>)
    ensures r.Ok? <==> !IsSet(a, key) || a.vals[key].List?
    ensures r.Ok? ==> r.value.vals == a.vals[key := List(Items(a, key) + [v])]
    ensures r.Err? ==> r.error == NotAnArray
  {
    if !IsSet(a, key) then
      assert Items(a, key) + [v] == [v];
      Ok(Put(a, key, List([v])))
    else if a.vals[key].List? then Ok(Put(a, key, List(a.vals[key].items + [v])))
    else Err(NotAnArray)
  }

  /** The list stored under a key; an unset key holds none. */
  function Items(a: Store, key: string): seq<Value>
    requires !IsSet(a, key) || a.vals[key].List?
  {
    if IsSet(a, key) then a.vals[key].items else []
  }

  /** Appending values one by one, from the key not being set. */
  function AppendAll(a: Store, key: string, vs: seq<Value>): Result<Store>
    decreases |vs|
  {
    if |vs| == 0 then Ok(a)
    else match Append(a, key, vs[0])
      case Err(e) => Err(e)
      case Ok(b) => AppendAll(b, key, vs[1..])
  }

  /** Appending a sequence to an unset key leaves exactly that sequence, in order. */
  lemma {:induction false} AppendCollects(a: Store, key: string, done: seq<Value>, vs: seq<Value>)
    requires (done == [] && !IsSet(a, key)) || (IsSet(a, key) && a.vals[key] == List(done))
    requires |done| + |vs| > 0
    ensures AppendAll(a, key, vs).Ok?
    ensures AppendAll(a, key, vs).value.vals == a.vals[key := List(done + vs)]
    decreases |vs|
  {
    if |vs| > 0 {
      var b := Append(a, key, vs[0]).value;
      assert b.vals == a.vals[key := List(done + [vs[0]])];
      assert done + vs == (done + [vs[0]]) + vs[1..];
      assert AppendAll(a, key, vs) == AppendAll(b, key, vs[1..]);
      if |vs| > 1 {
        AppendCollects(b, key, done + [vs[0]], vs[1..]);
        assert b.vals[key := List((done + [vs[0]]) + vs[1..])] == a.vals[key := List(done + vs)];
      } else {
        assert vs == [vs[0]];
        assert AppendAll(a, key, vs) == AppendAll(b, key, []);
      }
    } else {
      assert done + vs == done;
      assert a.vals[key := List(done)] == a.vals;
    }
  }

  /** `getCustomKeysFromStorage`: each key with what reading it gives, in the order given. */
  function CustomKeys(a: Store, keys: seq<string>): (r: Store)
    ensures forall k :: k in r.vals ==> k in keys
    decreases |keys|
  {
    if |keys| == 0 then Empty()
    else Put(CustomKeys(a, keys[..|keys| - 1]), keys[|keys| - 1], AsValue(Coalesce(a, keys[|keys| - 1])))
  }

  /** The copy holds exactly the requested keys, each with the stored value or, when unset, the whole store. */
  lemma {:induction false} CustomKeysSpec(a: Store, keys: seq<string>)
    ensures forall k :: k in CustomKeys(a, keys).vals <==> k in keys
    ensures forall k :: k in keys ==>
              CustomKeys(a, keys).vals[k] == if IsSet(a, k) then a.vals[k] else Dict(a)
    decreases |keys|
  {
    if |keys| > 0 {
      var init := keys[..|keys| - 1];
      CustomKeysSpec(a, init);
      assert forall k :: k in keys <==> k in init || k == keys[|keys| - 1];
    }
  }

  /** `removeFromStorage(...$keys)`: each key still set when it comes up is unset. */
  function RemoveKeys(a: Store, keys: seq<string>): Store
    decreases |keys|
  {
    if |keys| == 0 then a
    else RemoveKeys(if IsSet(a, keys[0]) then Remove(a, keys[0]) else a, keys[1..])
  }

  /** Exactly the listed keys holding a non-null value go; everything else stays as it was. */
  lemma {:induction false} RemoveKeysSpec(a: Store, keys: seq<string>, k: string)
    ensures k in RemoveKeys(a, keys).vals <==> k in a.vals && !(k in keys && a.vals[k] != Null)
    ensures k in RemoveKeys(a, keys).vals ==> RemoveKeys(a, keys).vals[k] == a.vals[k]
    decreases |keys|
  {
    if |keys| > 0 {
      var b := if IsSet(a, keys[0]) then Remove(a, keys[0]) else a;
      RemoveKeysSpec(b, keys[1..], k);
      assert k in keys <==> k == keys[0] || k in keys[1..];
    }
  }
}
