/**
 * The earlier item provider: the same cache and position index as the item
 * worker, without tag filtering, tag updates or a disk snapshot.
 */
module ItemProviders {
  import opened Wrappers
  import opened Items
  import opened IdOrder
  import SortedMaps
  import opened PositionIndex
  import opened Feed

  /** A page query posted to the provider thread and not yet run. */
  datatype PendingQuery = PendingQuery(after: int, before: int)

  class ItemProvider {
    var itemCache: SortedMaps.SortedMap<Item>
    var positionCache: seq<Id>
    var filterVideos: bool
    var filterImages: bool
    var loading: bool
    /** The thread has created its handler. */
    var handlerReady: bool
    var newListener: seq<ListenerId>
    var tasks: seq<PendingQuery>
    var events: seq<Event>

    ghost predicate Valid()
      reads this
    {
      && SortedMaps.Valid(itemCache)
      && KeysMatch(itemCache.entries)
      && Decreasing(positionCache)
      && (forall id :: id in positionCache ==> id in itemCache.entries)
    }

    function CurrentFilter(): Filter
      reads this
    {
      Filter(filterVideos, filterImages, None)
    }

    ghost predicate IndexExact()
      reads this
    {
      IsIndexOf(positionCache, itemCache.entries, CurrentFilter())
    }

    /** An empty, in-memory cache; videos are hidden, images shown. */
    constructor ()
      ensures Valid() && IndexExact()
      ensures itemCache == SortedMaps.Empty() && positionCache == []
      ensures filterVideos && !filterImages
      ensures !loading && !handlerReady
      ensures newListener == [] && tasks == [] && events == []
    {
      itemCache := SortedMaps.Empty();
      positionCache := [];
      filterVideos := true;
      filterImages := false;
      loading := false;
      handlerReady := false;
      newListener := [];
      tasks := [];
      events := [];
    }

    /** The thread body: the handler is created and the newest page is queried. */
    method Run()
      requires !handlerReady
      modifies this`handlerReady, this`loading, this`tasks
      ensures handlerReady && loading
      ensures tasks == old(tasks) + [PendingQuery(-1, -1)]
    {
      handlerReady := true;
      var _ := QueryItems(-1, -1);
    }

    method AddNewItemsListener(listener: ListenerId)
      modifies this`newListener
      ensures newListener == old(newListener) + [listener]
    {
      newListener := newListener + [listener];
    }

    /** The item at a grid position: the cached item whose id the index holds there. */
    function GetItemByPosition(position: int): (item: Item)
      reads this
      requires Valid() && 0 <= position < |positionCache|
      ensures item.id == positionCache[position] && item == itemCache.entries[item.id]
      ensures IndexExact() ==> Visible(item, CurrentFilter())
    {
      assert positionCache[position] in positionCache;
      itemCache.entries[positionCache[position]]
    }

    function GetItemById(id: Id): (item: Option<Item>)
      reads this
      requires Valid()
      ensures item.Some? <==> id in itemCache.entries
      ensures item.Some? ==> item.value == itemCache.entries[id] && item.value.id == id
    {
      if id in itemCache.entries then Some(itemCache.entries[id]) else None
    }

    /** The size of the position index. */
    function GetItemCount(): (count: nat)
      reads this
      requires Valid()
      ensures IndexExact() ==> count == |VisibleIds(itemCache.entries, CurrentFilter())|
    {
      assert IndexExact() ==> |positionCache| == |VisibleIds(itemCache.entries, CurrentFilter())| by {
        if IndexExact() {
          IndexSize(positionCache, itemCache.entries, CurrentFilter());
        }
      }
      |positionCache|
    }

    /**
     * Posts a page query. Loading is set first; posting goes through the handler
     * the thread creates, so before the thread has run the post throws (`thrown`)
     * and no query is queued, leaving loading on.
     */
    method QueryItems(after: int, before: int) returns (thrown: bool)
      modifies this`loading, this`tasks
      ensures thrown <==> !handlerReady
      ensures loading
      ensures tasks == old(tasks) + (if handlerReady then [PendingQuery(after, before)] else [])
    {
      loading := true;
      if !handlerReady {
        return true;
      }
      tasks := tasks + [PendingQuery(after, before)];
      return false;
    }

    /**
     * Queries the page before the oldest cached id. The size guard is always true,
     * so `firstKey` throws on an empty cache before anything changes; otherwise
     * the query throws as `QueryItems` does.
     */
    method QueryOlderItems() returns (thrown: bool)
      requires Valid()
      modifies this`loading, this`tasks
      ensures thrown <==> itemCache.keys == [] || !handlerReady
      ensures itemCache.keys == [] ==> loading == old(loading) && tasks == old(tasks)
      ensures itemCache.keys != [] && !handlerReady ==> loading && tasks == old(tasks)
      ensures !thrown ==> loading && |tasks| == |old(tasks)| + 1 && tasks[..|old(tasks)|] == old(tasks)
      ensures !thrown ==> tasks[|tasks| - 1].after == -1 && tasks[|tasks| - 1].before in itemCache.entries
      ensures !thrown ==> forall id :: id in itemCache.entries ==> tasks[|tasks| - 1].before <= id
    {
      if itemCache.keys == [] {
        return true;
      }
      var firstId := SortedMaps.FirstKey(itemCache);
      thrown := QueryItems(-1, firstId);
    }

    /** Queries the page after the newest cached id; throws where `QueryOlderItems` does. */
    method QueryNewerItems() returns (thrown: bool)
      requires Valid()
      modifies this`loading, this`tasks
      ensures thrown <==> itemCache.keys == [] || !handlerReady
      ensures itemCache.keys == [] ==> loading == old(loading) && tasks == old(tasks)
      ensures itemCache.keys != [] && !handlerReady ==> loading && tasks == old(tasks)
      ensures !thrown ==> loading && |tasks| == |old(tasks)| + 1 && tasks[..|old(tasks)|] == old(tasks)
      ensures !thrown ==> tasks[|tasks| - 1].before == -1 && tasks[|tasks| - 1].after in itemCache.entries
      ensures !thrown ==> forall id :: id in itemCache.entries ==> id <= tasks[|tasks| - 1].after
    {
      if itemCache.keys == [] {
        return true;
      }
      var lastId := SortedMaps.LastKey(itemCache);
      thrown := QueryItems(lastId, -1);
    }

    /**
     * Runs the oldest posted query; `response` is what the feed API answered to
     * `call` (an id `after` >= 0 wins over `before`). A page is merged, the index
     * rebuilt, every listener told and loading ends; an error is only logged, so
     * loading stays on and no listener hears of it.
     */
    method RunQuery(response: Result<seq<Item>>) returns (call: ApiCall)
      requires Valid() && tasks != []
      modifies this`tasks, this`itemCache, this`positionCache, this`events, this`loading
      ensures Valid()
      ensures call == SelectCall(None, old(tasks[0].after), old(tasks[0].before))
      ensures tasks == old(tasks[1..])
      ensures response.Ok? ==>
        && itemCache == PutAll(old(itemCache), response.value)
        && IndexExact() && !loading
        && events == old(events) + Notify(newListener, Updated(Some(response.value)))
      ensures response.Err? ==>
        && itemCache == old(itemCache) && positionCache == old(positionCache)
        && loading == old(loading) && events == old(events)
    {
      var query := tasks[0];
      tasks := tasks[1..];
      call := SelectCall(None, query.after, query.before);
      match response {
        case Ok(newItemsList) =>
          PutPage(newItemsList);
          CreatePositionCache();
          CallUpdatedItems(Updated(Some(newItemsList)));
          loading := false;
        case Err(_) =>
      }
    }

    /** Puts every item of a page into the cache under its id, in page order. */
    method PutPage(page: seq<Item>)
      requires SortedMaps.Valid(itemCache) && KeysMatch(itemCache.entries)
      modifies this`itemCache
      ensures itemCache == PutAll(old(itemCache), page)
    {
      for i := 0 to |page|
        invariant SortedMaps.Valid(itemCache)
        invariant itemCache == PutAll(old(itemCache), page[..i])
      {
        assert page[..i + 1][..i] == page[..i];
        itemCache := SortedMaps.Put(itemCache, page[i].id, page[i]);
      }
      assert page[..|page|] == page;
    }

    /** `createPositionCache`: rebuilds the index from the cache and the type filters. */
    method CreatePositionCache()
      requires SortedMaps.Valid(itemCache) && KeysMatch(itemCache.entries)
      modifies this`positionCache
      ensures Valid() && IndexExact()
    {
      positionCache := BuildIndex(itemCache, CurrentFilter());
    }

    /** Tells every registered listener, in order. */
    method CallUpdatedItems(signal: Signal)
      modifies this`events
      ensures events == old(events) + Notify(newListener, signal)
    {
      for i := 0 to |newListener|
        invariant events == old(events) + Notify(newListener[..i], signal)
      {
        assert newListener[..i + 1][..i] == newListener[..i];
        events := events + [ItemsEvent(newListener[i], signal)];
      }
      assert newListener[..|newListener|] == newListener;
    }

    /** Hides or shows videos, rebuilds the index and tells the listeners with no page. */
    method SetFilterVideos(filter: bool)
      requires Valid()
      modifies this`filterVideos, this`positionCache, this`events
      ensures Valid() && IndexExact() && filterVideos == filter
      ensures events == old(events) + Notify(newListener, Updated(None))
      ensures old(filterVideos) == filter && old(IndexExact()) ==> positionCache == old(positionCache)
    {
      ghost var before := positionCache;
      ghost var wasExact := IndexExact();
      ghost var wasFiltered := filterVideos;
      filterVideos := filter;
      CreatePositionCache();
      if wasFiltered == filter && wasExact {
        IndexUnique(before, positionCache, itemCache.entries, CurrentFilter());
      }
      CallUpdatedItems(Updated(None));
    }

    /** Hides or shows images, rebuilds the index and tells the listeners with no page. */
    method SetFilterImages(filter: bool)
      requires Valid()
      modifies this`filterImages, this`positionCache, this`events
      ensures Valid() && IndexExact() && filterImages == filter
      ensures events == old(events) + Notify(newListener, Updated(None))
      ensures old(filterImages) == filter && old(IndexExact()) ==> positionCache == old(positionCache)
    {
      ghost var before := positionCache;
      ghost var wasExact := IndexExact();
      ghost var wasFiltered := filterImages;
      filterImages := filter;
      CreatePositionCache();
      if wasFiltered == filter && wasExact {
        IndexUnique(before, positionCache, itemCache.entries, CurrentFilter());
      }
      CallUpdatedItems(Updated(None));
    }
  }
}
