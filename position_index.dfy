/**
 * The position index: the filtered, newest-first list of item ids that maps a
 * grid position to an item id.
 */
module PositionIndex {
  import opened Wrappers
  import opened Items
  import opened IdOrder
  import SortedMaps

  /** The index settings: hide videos, hide images, and the optional tag to show. */
  datatype Filter = Filter(hideVideos: bool, hideImages: bool, tag: Option<string>)

  /** An item survives the filter: never audio, videos and images only when shown, and carrying the tag if one is set. */
  predicate Visible(item: Item, f: Filter) {
    && item.itemType != Audio
    && !(item.itemType == Video && f.hideVideos)
    && !(item.itemType == Image && f.hideImages)
    && (f.tag.Some? ==> HasTag(item, f.tag.value))
  }

  /** The ids of the cached items that survive the filter. */
  ghost function VisibleIds(cache: map<Id, Item>, f: Filter): set<Id> {
    set id | id in cache && Visible(cache[id], f)
  }

  /** `idx` is the position index of `cache` under `f`: exactly the surviving ids, newest first. */
  ghost predicate IsIndexOf(idx: seq<Id>, cache: map<Id, Item>, f: Filter) {
    Decreasing(idx) && forall id :: id in idx <==> id in cache && Visible(cache[id], f)
  }

  /** The index is determined by the cache and the filter: rebuilding it twice gives the same list. */
  lemma IndexUnique(a: seq<Id>, b: seq<Id>, cache: map<Id, Item>, f: Filter)
    requires IsIndexOf(a, cache, f) && IsIndexOf(b, cache, f)
    ensures a == b
  {
    DecreasingUnique(a, b);
  }

  /** The item count is the number of surviving items. */
  lemma IndexSize(idx: seq<Id>, cache: map<Id, Item>, f: Filter)
    requires IsIndexOf(idx, cache, f)
    ensures |idx| == |VisibleIds(cache, f)|
  {
    DecreasingCard(idx);
    assert (set x | x in idx) == VisibleIds(cache, f);
  }

  /** Position 0 holds the newest surviving id and the last position the oldest. */
  lemma IndexEnds(idx: seq<Id>, cache: map<Id, Item>, f: Filter)
    requires IsIndexOf(idx, cache, f) && idx != []
    ensures idx[0] in cache && Visible(cache[idx[0]], f)
    ensures forall id :: id in cache && Visible(cache[id], f) ==> idx[|idx| - 1] <= id <= idx[0]
  {
    assert idx[0] in idx;
    forall id | id in cache && Visible(cache[id], f) ensures idx[|idx| - 1] <= id <= idx[0] {
      assert id in idx;
      var j :| 0 <= j < |idx| && idx[j] == id;
      if 0 < j { assert idx[0] > idx[j]; }
      if j < |idx| - 1 { assert idx[j] > idx[|idx| - 1]; }
    }
  }

  /**
   * `createPositionCache`: walks the sorted item cache in ascending id order, keeps
   * the ids of the items that survive the filter, then reverses the list.
   */
  method BuildIndex(cache: SortedMaps.SortedMap<Item>, f: Filter) returns (idx: seq<Id>)
    requires SortedMaps.Valid(cache) && KeysMatch(cache.entries)
    ensures IsIndexOf(idx, cache.entries, f)
  {
    var ascending: seq<Id> := [];
    for i := 0 to |cache.keys|
      invariant Increasing(ascending)
      invariant forall id :: id in ascending ==> i > 0 && id <= cache.keys[i - 1]
      invariant forall id :: id in ascending <==> id in cache.keys[..i] && id in cache.entries && Visible(cache.entries[id], f)
    {
      var item := cache.entries[cache.keys[i]];
      assert cache.keys[i] in cache.keys && item.id == cache.keys[i];
      assert i > 0 ==> cache.keys[i - 1] < cache.keys[i];
      if Visible(item, f) {
        forall k | 0 <= k < |ascending| ensures ascending[k] < item.id {
          assert ascending[k] in ascending;
        }
        ascending := ascending + [item.id];
      }
    }
    assert cache.keys[..|cache.keys|] == cache.keys;
    ReversedIncreasing(ascending);
    idx := Reversed(ascending);
  }
}
