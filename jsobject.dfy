/** A JavaScript object used as a dictionary with participant ids as keys.
    Integer-like keys are enumerated in ascending numeric order whatever the
    order of insertion (`for ... in`, `Object.entries`), so the object is an
    association list kept sorted by key. */
module JsObject {
  import opened Common

  type Dict<V> = seq<(nat, V)>

  /** Keys strictly ascending: each key at most once, in enumeration order. */
  predicate Ordered<V>(d: Dict<V>)
  {
    |d| <= 1 || (d[0].0 < d[1].0 && Ordered(d[1..]))
  }

  function Keys<V>(d: Dict<V>): set<nat>
  {
    if d == [] then {} else {d[0].0} + Keys(d[1..])
  }

  /** `obj[k]`: the value under `k`, or None for `undefined`. */
  function Get<V>(d: Dict<V>, k: nat): (r: Option<V>)
    ensures r.Some? ==> (k, r.value) in d
    ensures r.None? <==> k !in Keys(d)
  {
    if d == [] then None
    else if d[0].0 == k then Some(d[0].1)
    else
      var r := Get(d[1..], k);
      assert r.Some? ==> d[1..][1..] == d[2..];
      r
  }

  /** `obj[k] = v`: replaces the value under an existing key, or adds the key
      in its place in the enumeration order. */
  function Put<V>(d: Dict<V>, k: nat, v: V): (r: Dict<V>)
    ensures r != [] && (d == [] || r[0].0 == d[0].0 || r[0].0 == k)
  {
    if d == [] then [(k, v)]
    else if k < d[0].0 then [(k, v)] + d
    else if k == d[0].0 then [(k, v)] + d[1..]
    else [d[0]] + Put(d[1..], k, v)
  }

  /** Every key after the first is larger than the first. */
  lemma {:induction false} OrderedBelow<V>(d: Dict<V>, k: nat)
    requires Ordered(d) && d != [] && k in Keys(d[1..])
    ensures d[0].0 < k
  {
    if d[1].0 != k {
      OrderedBelow(d[1..], k);
    }
  }

  /** Put keeps the keys ascending and adds exactly `k` to them. */
  lemma {:induction false} PutOrdered<V>(d: Dict<V>, k: nat, v: V)
    requires Ordered(d)
    ensures Ordered(Put(d, k, v))
    ensures Keys(Put(d, k, v)) == Keys(d) + {k}
  {
    var r := Put(d, k, v);
    if d == [] {
    } else if k < d[0].0 {
      assert r[1..] == d;
    } else if k == d[0].0 {
      assert r[1..] == d[1..];
    } else {
      PutOrdered(d[1..], k, v);
      assert r[1..] == Put(d[1..], k, v);
    }
  }

  /** After Put, `k` holds `v` and every other key keeps its value. */
  lemma {:induction false} GetPut<V>(d: Dict<V>, k: nat, v: V, k': nat)
    ensures Get(Put(d, k, v), k') == if k' == k then Some(v) else Get(d, k')
  {
    var r := Put(d, k, v);
    if d == [] {
    } else if k < d[0].0 {
      assert r[1..] == d;
    } else if k == d[0].0 {
      assert r[1..] == d[1..];
    } else {
      GetPut(d[1..], k, v, k');
      assert r[1..] == Put(d[1..], k, v);
    }
  }

  /** `for (let key in obj) if (obj[key] === value) { found = key; break; }`:
      the first key in enumeration order whose value is `value`. */
  function FirstKeyOf<V(==)>(d: Dict<V>, value: V): (r: Option<nat>)
    ensures r.Some? ==> (r.value, value) in d
    ensures r.None? ==> forall i :: 0 <= i < |d| ==> d[i].1 != value
  {
    if d == [] then None
    else if d[0].1 == value then Some(d[0].0)
    else
      var r := FirstKeyOf(d[1..], value);
      assert forall i :: 0 < i < |d| ==> d[i] == d[1..][i - 1];
      r
  }

  /** In an ordered dictionary the key found is the smallest key holding the
      value. */
  lemma {:induction false} FirstKeyOfSmallest<V>(d: Dict<V>, value: V, k: nat)
    requires Ordered(d) && Get(d, k) == Some(value)
    ensures FirstKeyOf(d, value).Some?
    ensures FirstKeyOf(d, value).value <= k
    ensures Get(d, FirstKeyOf(d, value).value) == Some(value)
  {
    if d[0].0 != k && d[0].1 != value {
      FirstKeyOfSmallest(d[1..], value, k);
      var f := FirstKeyOf(d[1..], value).value;
      assert f in Keys(d[1..]);
      OrderedBelow(d, f);
    } else if d[0].0 != k {
      assert k in Keys(d[1..]);
      OrderedBelow(d, k);
    }
  }

  /** When no other key holds the value, the key found is the key that holds it:
      the lookup by value inverts `Get`. */
  lemma FirstKeyOfUnique<V>(d: Dict<V>, value: V, k: nat)
    requires Ordered(d) && Get(d, k) == Some(value)
    requires forall k' :: k' != k ==> Get(d, k') != Some(value)
    ensures FirstKeyOf(d, value) == Some(k)
  {
    FirstKeyOfSmallest(d, value, k);
  }
}
