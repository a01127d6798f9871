/** Feed items as the API client hands them to the core, and the merge of a fetched page. */
module Items {
  import opened Wrappers
  import SortedMaps

  type Id = int

  datatype ItemType = Image | Video | Audio

  /** The image descriptor of an item: relative thumbnail path and full-size path. */
  datatype ImageRef = ImageRef(thumbnail: string, full: string)

  datatype Item = Item(id: Id, itemType: ItemType, title: Option<string>, tags: seq<string>, image: Option<ImageRef>)

  /** Tag membership of an item, an exact match on the tag name. */
  predicate HasTag(item: Item, name: string) {
    name in item.tags
  }

  /** Every cached item is stored under its own id. */
  ghost predicate KeysMatch(cache: map<Id, Item>) {
    forall k :: k in cache ==> cache[k].id == k
  }

  /** The ids carried by a fetched page. */
  ghost function PageIds(page: seq<Item>): set<Id> {
    set i | 0 <= i < |page| :: page[i].id
  }

  lemma PageIdsSnoc(page: seq<Item>)
    requires page != []
    ensures PageIds(page) == PageIds(page[..|page| - 1]) + {page[|page| - 1].id}
  {
    var front := page[..|page| - 1];
    forall k | k in PageIds(page) ensures k in PageIds(front) + {page[|page| - 1].id} {
      var i :| 0 <= i < |page| && page[i].id == k;
      if i < |page| - 1 { assert front[i] == page[i]; }
    }
    forall k | k in PageIds(front) ensures k in PageIds(page) {
      var i :| 0 <= i < |front| && front[i].id == k;
      assert page[i] == front[i];
    }
  }

  /**
   * The item cache after `put(item.getId(), item)` for every item of a fetched page,
   * in list order: a later item with the same id replaces an earlier one, and no
   * key is ever removed.
   */
  function PutAll(cache: SortedMaps.SortedMap<Item>, page: seq<Item>): (r: SortedMaps.SortedMap<Item>)
    requires SortedMaps.Valid(cache)
    ensures SortedMaps.Valid(r)
    ensures r.entries.Keys == cache.entries.Keys + PageIds(page)
    ensures forall k :: k in r.entries && k !in PageIds(page) ==> r.entries[k] == cache.entries[k]
    ensures forall k :: k in PageIds(page) ==> r.entries[k] in page && r.entries[k].id == k
    ensures |page| > 0 ==> r.entries[page[|page| - 1].id] == page[|page| - 1]
    ensures KeysMatch(cache.entries) ==> KeysMatch(r.entries)
  {
    if page == [] then cache
    else
      var last := page[|page| - 1];
      var front := page[..|page| - 1];
      var r := PutAll(cache, front);
      PageIdsSnoc(page);
      assert forall it :: it in front ==> it in page;
      SortedMaps.Put(r, last.id, last)
  }
}
