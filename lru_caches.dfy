/**
 * The memory tier: a least-recently-used cache of bitmaps by item id with a
 * size budget, as `android.support.v4.util.LruCache` keeps it (an access-ordered
 * map, eldest first, trimmed from the eldest end after every put). Each entry
 * carries the size its owner's `sizeOf` gave it when it was put.
 */
module LruCaches {
  import opened Wrappers
  import opened Bitmaps

  datatype Slot = Slot(key: int, value: Bitmap, size: nat)

  /** A cache with budget `maxSize`; `slots` run from the eldest to the most recently used entry. */
  datatype Lru = Lru(maxSize: nat, slots: seq<Slot>)

  /** The summed size of the slots. */
  function Total(slots: seq<Slot>): nat {
    if slots == [] then 0 else slots[0].size + Total(slots[1..])
  }

  /** The slot stored under `key`, if any. */
  function Find(slots: seq<Slot>, key: int): Option<Slot> {
    if slots == [] then None
    else if slots[0].key == key then Some(slots[0])
    else Find(slots[1..], key)
  }

  /** The bitmap stored under `key`, if any. */
  function Cached(c: Lru, key: int): Option<Bitmap> {
    match Find(c.slots, key)
    case None => None
    case Some(slot) => Some(slot.value)
  }

  /** The slots without the one under `key`. */
  function Without(slots: seq<Slot>, key: int): seq<Slot> {
    if slots == [] then []
    else if slots[0].key == key then Without(slots[1..], key)
    else [slots[0]] + Without(slots[1..], key)
  }

  /** No key is stored twice. */
  ghost predicate DistinctKeys(slots: seq<Slot>) {
    forall i, j :: 0 <= i < j < |slots| ==> slots[i].key != slots[j].key
  }

  /** The cache keeps its keys distinct and its total size within the budget. */
  ghost predicate Valid(c: Lru) {
    DistinctKeys(c.slots) && Total(c.slots) <= c.maxSize
  }

  /** Every entry counts as one (`sizeOf` not overridden). */
  ghost predicate UnitSized(c: Lru) {
    forall s :: s in c.slots ==> s.size == 1
  }

  /** `new LruCache(maxSize)`. */
  function New(maxSize: nat): (c: Lru)
    ensures Valid(c) && UnitSized(c) && forall key :: Cached(c, key) == None
  {
    Lru(maxSize, [])
  }

  /** `get`: the value under `key`; a hit makes that entry the most recently used. */
  function Get(c: Lru, key: int): (r: (Option<Bitmap>, Lru))
    ensures r.0 == Cached(c, key)
    ensures r.0.None? ==> r.1 == c
    ensures r.0.Some? ==> r.1.slots != [] && Some(r.1.slots[|r.1.slots| - 1]) == Find(c.slots, key)
    ensures r.1.maxSize == c.maxSize
  {
    match Find(c.slots, key)
    case None => (None, c)
    case Some(slot) => (Some(slot.value), c.(slots := Without(c.slots, key) + [slot]))
  }

  /**
   * Drops the eldest slots until the total size fits `maxSize`. Only as many as
   * needed go: keeping one more would exceed the budget.
   */
  function Trim(maxSize: nat, slots: seq<Slot>): (r: seq<Slot>)
    ensures |r| <= |slots| && r == slots[|slots| - |r|..]
    ensures Total(r) <= maxSize
    ensures |r| < |slots| ==> Total(slots[|slots| - |r| - 1..]) > maxSize
  {
    if Total(slots) <= maxSize then slots
    else
      var r := Trim(maxSize, slots[1..]);
      assert slots[1..][|slots| - 1 - |r|..] == slots[|slots| - |r|..];
      if |r| < |slots| - 1 then
        assert slots[1..][|slots| - 1 - |r| - 1..] == slots[|slots| - |r| - 1..];
        r
      else
        assert slots[|slots| - |r| - 1..] == slots;
        r
  }

  /** `put`: stores `value` of size `size` under `key` as the most recently used entry, then trims. */
  function Put(c: Lru, key: int, value: Bitmap, size: nat): (r: Lru)
    ensures r.maxSize == c.maxSize
  {
    c.(slots := Trim(c.maxSize, Without(c.slots, key) + [Slot(key, value, size)]))
  }

  lemma {:induction false} FindWithout(slots: seq<Slot>, key: int, other: int)
    ensures Find(Without(slots, key), key) == None
    ensures other != key ==> Find(Without(slots, key), other) == Find(slots, other)
  {
    if slots != [] {
      FindWithout(slots[1..], key, other);
    }
  }

  lemma {:induction false} WithoutSubset(slots: seq<Slot>, key: int)
    ensures forall s :: s in Without(slots, key) ==> s in slots
  {
    if slots != [] {
      WithoutSubset(slots[1..], key);
    }
  }

  lemma {:induction false} WithoutAbsent(slots: seq<Slot>, key: int)
    requires Find(slots, key) == None
    ensures Without(slots, key) == slots
  {
    if slots != [] {
      WithoutAbsent(slots[1..], key);
    }
  }

  lemma {:induction false} DistinctByFind(slots: seq<Slot>)
    ensures DistinctKeys(slots) <==> (slots == [] || (Find(slots[1..], slots[0].key) == None && DistinctKeys(slots[1..])))
  {
    if slots != [] {
      var tail := slots[1..];
      if DistinctKeys(slots) {
        FindAbsent(tail, slots[0].key);
      } else if Find(tail, slots[0].key) == None && DistinctKeys(tail) {
        forall i, j | 0 <= i < j < |slots| ensures slots[i].key != slots[j].key {
          if i == 0 {
            FindPresent(tail, j - 1);
          } else {
            assert tail[i - 1].key != tail[j - 1].key;
          }
        }
      }
    }
  }

  lemma {:induction false} FindAbsent(slots: seq<Slot>, key: int)
    requires forall i :: 0 <= i < |slots| ==> slots[i].key != key
    ensures Find(slots, key) == None
  {
    if slots != [] {
      FindAbsent(slots[1..], key);
    }
  }

  lemma {:induction false} FindPresent(slots: seq<Slot>, i: int)
    requires 0 <= i < |slots|
    ensures Find(slots, slots[i].key).Some?
  {
    if i > 0 && slots[0].key != slots[i].key {
      FindPresent(slots[1..], i - 1);
    }
  }

  lemma {:induction false} FindIn(slots: seq<Slot>, key: int)
    ensures Find(slots, key).Some? ==> Find(slots, key).value in slots && Find(slots, key).value.key == key
  {
    if slots != [] && slots[0].key != key {
      FindIn(slots[1..], key);
    }
  }

  lemma {:induction false} WithoutDistinct(slots: seq<Slot>, key: int)
    requires DistinctKeys(slots)
    ensures DistinctKeys(Without(slots, key))
  {
    if slots != [] {
      DistinctByFind(slots);
      WithoutDistinct(slots[1..], key);
      if slots[0].key != key {
        FindWithout(slots[1..], key, slots[0].key);
        DistinctByFind(Without(slots, key));
        assert Without(slots, key)[1..] == Without(slots[1..], key);
      }
    }
  }

  lemma {:induction false} AppendDistinct(slots: seq<Slot>, slot: Slot)
    requires DistinctKeys(slots) && Find(slots, slot.key) == None
    ensures DistinctKeys(slots + [slot])
  {
    forall i | 0 <= i < |slots| ensures slots[i].key != slot.key {
      FindUnique(slots, i);
    }
  }

  lemma {:induction false} FindUnique(slots: seq<Slot>, i: int)
    requires DistinctKeys(slots) && 0 <= i < |slots|
    ensures Find(slots, slots[i].key) == Some(slots[i])
  {
    if i > 0 {
      assert slots[0].key != slots[i].key;
      FindUnique(slots[1..], i - 1);
    }
  }

  lemma {:induction false} FindAppend(slots: seq<Slot>, slot: Slot, other: int)
    ensures Find(slots + [slot], other) ==
      if Find(slots, other).Some? then Find(slots, other) else if other == slot.key then Some(slot) else None
  {
    if slots != [] {
      assert (slots + [slot])[1..] == slots[1..] + [slot];
      FindAppend(slots[1..], slot, other);
    }
  }

  lemma {:induction false} TotalAppend(slots: seq<Slot>, slot: Slot)
    ensures Total(slots + [slot]) == Total(slots) + slot.size
  {
    if slots != [] {
      assert (slots + [slot])[1..] == slots[1..] + [slot];
      TotalAppend(slots[1..], slot);
    }
  }

  lemma {:induction false} TotalWithout(slots: seq<Slot>, key: int)
    requires DistinctKeys(slots) && Find(slots, key).Some?
    ensures Total(Without(slots, key)) + Find(slots, key).value.size == Total(slots)
  {
    DistinctByFind(slots);
    if slots[0].key == key {
      WithoutAbsent(slots[1..], key);
    } else {
      TotalWithout(slots[1..], key);
    }
  }

  /** A suffix of distinct slots stores nothing the whole does not. */
  lemma {:induction false} FindSuffix(slots: seq<Slot>, n: int, key: int)
    requires DistinctKeys(slots) && 0 <= n <= |slots|
    ensures Find(slots[n..], key) == None || Find(slots[n..], key) == Find(slots, key)
  {
    if n > 0 {
      DistinctByFind(slots);
      assert slots[1..][n - 1..] == slots[n..];
      FindSuffix(slots[1..], n - 1, key);
      if slots[0].key == key && Find(slots[n..], key).Some? {
        assert Find(slots[1..], key).Some?;
      }
    }
  }

  lemma SuffixDistinct(slots: seq<Slot>, n: int)
    requires DistinctKeys(slots) && 0 <= n <= |slots|
    ensures DistinctKeys(slots[n..])
  {
    assert forall i :: 0 <= i < |slots| - n ==> slots[n..][i] == slots[n + i];
  }

  /** A non-empty suffix weighs at least as much as the newest slot. */
  lemma TotalSuffixLast(slots: seq<Slot>, n: int)
    requires slots != [] && 0 <= n <= |slots|
    ensures n < |slots| ==> slots[|slots| - 1].size <= Total(slots[n..])
  {
    if n < |slots| {
      var suffix := slots[n..];
      var last := slots[|slots| - 1];
      TotalAppend(suffix[..|suffix| - 1], last);
      assert suffix[..|suffix| - 1] + [last] == suffix;
    }
  }

  /**
   * A hit keeps the same entries with the same total size, so the cache stays
   * within budget; a read never changes what is cached.
   */
  lemma GetValid(c: Lru, key: int)
    requires Valid(c)
    ensures Valid(Get(c, key).1)
    ensures forall other :: Find(Get(c, key).1.slots, other) == Find(c.slots, other)
    ensures forall s :: s in Get(c, key).1.slots ==> s in c.slots
  {
    var found := Find(c.slots, key);
    if found.Some? {
      var slot := found.value;
      var rest := Without(c.slots, key);
      FindIn(c.slots, key);
      WithoutSubset(c.slots, key);
      WithoutDistinct(c.slots, key);
      FindWithout(c.slots, key, key);
      AppendDistinct(rest, slot);
      TotalAppend(rest, slot);
      TotalWithout(c.slots, key);
      forall other ensures Find(rest + [slot], other) == Find(c.slots, other) {
        FindWithout(c.slots, key, other);
        FindAppend(rest, slot, other);
      }
    }
  }

  /** Reading an entry twice orders the cache as reading it once. */
  lemma GetTwice(c: Lru, key: int)
    ensures Get(Get(c, key).1, key) == Get(c, key)
  {
    var found := Find(c.slots, key);
    if found.Some? {
      var slot := found.value;
      var rest := Without(c.slots, key);
      FindIn(c.slots, key);
      FindWithout(c.slots, key, key);
      FindAppend(rest, slot, key);
      WithoutAppend(rest, slot);
      WithoutAbsent(rest, key);
    }
  }

  lemma {:induction false} WithoutAppend(slots: seq<Slot>, slot: Slot)
    ensures Without(slots + [slot], slot.key) == Without(slots, slot.key)
  {
    if slots == [] {
      assert Without([slot], slot.key) == Without([], slot.key);
    } else {
      assert (slots + [slot])[1..] == slots[1..] + [slot];
      WithoutAppend(slots[1..], slot);
    }
  }

  /**
   * After `put` the cache is within budget, holds `value` under `key` exactly when
   * that one entry fits the budget, and holds nothing new under any other key.
   */
  lemma PutSpec(c: Lru, key: int, value: Bitmap, size: nat)
    requires DistinctKeys(c.slots)
    ensures Valid(Put(c, key, value, size))
    ensures Find(Put(c, key, value, size).slots, key) == if size <= c.maxSize then Some(Slot(key, value, size)) else None
    ensures forall other :: other != key ==>
      Find(Put(c, key, value, size).slots, other) == None || Find(Put(c, key, value, size).slots, other) == Find(c.slots, other)
    ensures forall s :: s in Put(c, key, value, size).slots ==> s in c.slots || s == Slot(key, value, size)
  {
    PutValid(c, key, value, size);
    PutFindKey(c, key, value, size);
    forall other | other != key
      ensures Find(Put(c, key, value, size).slots, other) == None || Find(Put(c, key, value, size).slots, other) == Find(c.slots, other)
    {
      PutFindOther(c, key, value, size, other);
    }
    PutSlots(c, key, value, size);
  }

  /** The slots `put` trims: the others, then the new one. */
  function Added(c: Lru, key: int, value: Bitmap, size: nat): seq<Slot> {
    Without(c.slots, key) + [Slot(key, value, size)]
  }

  lemma AddedDistinct(c: Lru, key: int, value: Bitmap, size: nat)
    requires DistinctKeys(c.slots)
    ensures DistinctKeys(Added(c, key, value, size))
  {
    WithoutDistinct(c.slots, key);
    FindWithout(c.slots, key, key);
    AppendDistinct(Without(c.slots, key), Slot(key, value, size));
  }

  lemma PutValid(c: Lru, key: int, value: Bitmap, size: nat)
    requires DistinctKeys(c.slots)
    ensures Valid(Put(c, key, value, size))
  {
    var added := Added(c, key, value, size);
    var r := Put(c, key, value, size).slots;
    AddedDistinct(c, key, value, size);
    SuffixDistinct(added, |added| - |r|);
  }

  lemma PutFindKey(c: Lru, key: int, value: Bitmap, size: nat)
    requires DistinctKeys(c.slots)
    ensures Find(Put(c, key, value, size).slots, key) == if size <= c.maxSize then Some(Slot(key, value, size)) else None
  {
    var slot := Slot(key, value, size);
    var added := Added(c, key, value, size);
    var r := Put(c, key, value, size).slots;
    AddedDistinct(c, key, value, size);
    FindSuffix(added, |added| - |r|, key);
    FindWithout(c.slots, key, key);
    FindAppend(Without(c.slots, key), slot, key);
    if size <= c.maxSize {
      PutMostRecent(c, key, value, size);
      SuffixDistinct(added, |added| - |r|);
      FindUnique(r, |r| - 1);
    } else {
      TotalSuffixLast(added, |added| - |r|);
      assert |r| == 0;
    }
  }

  lemma PutFindOther(c: Lru, key: int, value: Bitmap, size: nat, other: int)
    requires DistinctKeys(c.slots) && other != key
    ensures var r := Put(c, key, value, size).slots;
      Find(r, other) == None || Find(r, other) == Find(c.slots, other)
  {
    var added := Added(c, key, value, size);
    var r := Put(c, key, value, size).slots;
    AddedDistinct(c, key, value, size);
    FindSuffix(added, |added| - |r|, other);
    FindAppend(Without(c.slots, key), Slot(key, value, size), other);
    FindWithout(c.slots, key, other);
  }

  lemma PutSlots(c: Lru, key: int, value: Bitmap, size: nat)
    ensures forall s :: s in Put(c, key, value, size).slots ==> s in c.slots || s == Slot(key, value, size)
  {
    var added := Added(c, key, value, size);
    var r := Put(c, key, value, size).slots;
    WithoutSubset(c.slots, key);
    forall s | s in r ensures s in c.slots || s == Slot(key, value, size) {
      var i :| 0 <= i < |r| && r[i] == s;
      assert s == added[|added| - |r| + i];
    }
  }

  /** An entry that fits the budget is the most recently used one after `put`. */
  lemma PutMostRecent(c: Lru, key: int, value: Bitmap, size: nat)
    requires size <= c.maxSize
    ensures var r := Put(c, key, value, size).slots;
      r != [] && r[|r| - 1] == Slot(key, value, size)
  {
    var added := Without(c.slots, key) + [Slot(key, value, size)];
    var r := Trim(c.maxSize, added);
    assert added[|added| - 1..] == [Slot(key, value, size)];
    assert Total([Slot(key, value, size)]) == size;
    assert |r| >= 1;
    assert r[|r| - 1] == added[|added| - 1];
  }

  /** A read keeps every entry at unit size. */
  lemma UnitSizedGet(c: Lru, key: int)
    requires Valid(c) && UnitSized(c)
    ensures UnitSized(Get(c, key).1)
  {
    GetValid(c, key);
  }

  /** A put of unit size keeps every entry at unit size. */
  lemma UnitSizedPut(c: Lru, key: int, value: Bitmap)
    requires Valid(c) && UnitSized(c)
    ensures UnitSized(Put(c, key, value, 1))
  {
    PutSpec(c, key, value, 1);
  }

  /** With unit sizes the budget is a bound on the number of entries. */
  lemma CountBound(c: Lru)
    requires Valid(c) && UnitSized(c)
    ensures |c.slots| <= c.maxSize
  {
    UnitTotal(c.slots);
  }

  lemma {:induction false} UnitTotal(slots: seq<Slot>)
    requires forall s :: s in slots ==> s.size == 1
    ensures Total(slots) == |slots|
  {
    if slots != [] {
      assert forall s :: s in slots[1..] ==> s in slots;
      UnitTotal(slots[1..]);
    }
  }
}
