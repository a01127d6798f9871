/**
 * `java.util.TreeMap` with integer keys: the keys in ascending order beside the
 * key-to-value map, so that iteration order, `firstKey` and `lastKey` are explicit.
 */
module SortedMaps {
  import opened IdOrder

  datatype SortedMap<V> = SortedMap(keys: seq<int>, entries: map<int, V>)

  /** The keys are listed once each, ascending, and are exactly the map's keys. */
  ghost predicate Valid<V>(m: SortedMap<V>) {
    Increasing(m.keys) && forall k :: k in m.keys <==> k in m.entries
  }

  function Empty<V>(): (m: SortedMap<V>)
    ensures Valid(m) && m.entries == map[]
  {
    SortedMap([], map[])
  }

  /** Adds `k` to an ascending key list at its place; a key already present is kept once. */
  function Insert(keys: seq<int>, k: int): (r: seq<int>)
    requires Increasing(keys)
    ensures Increasing(r)
    ensures forall x :: x in r <==> x in keys || x == k
    ensures |r| <= |keys| + 1
  {
    if keys == [] then [k]
    else if k < keys[0] then [k] + keys
    else if k == keys[0] then keys
    else
      var rest := Insert(keys[1..], k);
      assert forall x :: x in rest ==> keys[0] < x;
      var r := [keys[0]] + rest;
      assert forall i :: 0 < i < |r| ==> r[i] == rest[i - 1] && r[i] in rest;
      assert forall x :: x in r <==> x == keys[0] || x in rest;
      assert keys == [keys[0]] + keys[1..];
      r
  }

  /** `put(k, v)`: maps `k` to `v`, replacing any previous value, and keeps the order. */
  function Put<V>(m: SortedMap<V>, k: int, v: V): (r: SortedMap<V>)
    requires Valid(m)
    ensures Valid(r)
    ensures r.entries == m.entries[k := v]
  {
    SortedMap(Insert(m.keys, k), m.entries[k := v])
  }

  /** `firstKey()`: the smallest key; a `NoSuchElementException` on an empty map. */
  function FirstKey<V>(m: SortedMap<V>): (first: int)
    requires Valid(m) && m.keys != []
    ensures first in m.entries
    ensures forall k :: k in m.entries ==> first <= k
  {
    assert forall k :: k in m.entries ==> k in m.keys;
    m.keys[0]
  }

  /** `lastKey()`: the largest key; a `NoSuchElementException` on an empty map. */
  function LastKey<V>(m: SortedMap<V>): (last: int)
    requires Valid(m) && m.keys != []
    ensures last in m.entries
    ensures forall k :: k in m.entries ==> k <= last
  {
    assert forall k :: k in m.entries ==> k in m.keys;
    m.keys[|m.keys| - 1]
  }
}
