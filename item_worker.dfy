/**
 * The item worker: one per application. It keeps the sorted item cache, derives
 * the filtered position index from it, and runs page queries and tag updates one
 * at a time on its own thread.
 */
module ItemWorkers {
  import opened Wrappers
  import opened Items
  import opened IdOrder
  import SortedMaps
  import opened PositionIndex
  import opened Feed

  /** A runnable posted to the worker thread's handler. */
  datatype Task =
    | Query(after: int, before: int)
    | UpdateTags(id: Id, tags: string, tagListener: ListenerId)

  class ItemWorker {
    var itemCache: SortedMaps.SortedMap<Item>
    var positionCache: seq<Id>
    /** The last page query returned no items. */
    var lockedQuery: bool
    var hideVideos: bool
    var hideImages: bool
    var showTagName: Option<string>
    var loading: bool
    /** `isAlive() && handler != null`: the worker thread runs its message loop. */
    var running: bool
    var updatedListeners: seq<ListenerId>
    /** Runnables posted to the worker thread and not yet run, oldest first. */
    var tasks: seq<Task>
    /** Listener callbacks made so far, in order. */
    var events: seq<Event>

    /** Every index id is a cached id, the index is strictly newest first, and items sit under their own ids. */
    ghost predicate Valid()
      reads this
    {
      && SortedMaps.Valid(itemCache)
      && KeysMatch(itemCache.entries)
      && Decreasing(positionCache)
      && (forall id :: id in positionCache ==> id in itemCache.entries)
    }

    function CurrentFilter(): Filter
      reads this
    {
      Filter(hideVideos, hideImages, showTagName)
    }

    /** The index is exactly the surviving cached ids under the current settings. */
    ghost predicate IndexExact()
      reads this
    {
      IsIndexOf(positionCache, itemCache.entries, CurrentFilter())
    }

    /**
     * Builds the worker; `snapshot` is the item cache read back from the disk
     * snapshot, if one could be read, and the index is rebuilt from it.
     */
    constructor (snapshot: Option<SortedMaps.SortedMap<Item>>)
      requires snapshot.Some? ==> SortedMaps.Valid(snapshot.value) && KeysMatch(snapshot.value.entries)
      ensures Valid() && IndexExact()
      ensures itemCache == (if snapshot.Some? then snapshot.value else SortedMaps.Empty())
      ensures hideVideos && !hideImages && showTagName == None
      ensures !loading && !lockedQuery && !running
      ensures updatedListeners == [] && tasks == [] && events == []
    {
      itemCache := SortedMaps.Empty();
      positionCache := [];
      lockedQuery := false;
      hideVideos := true;
      hideImages := false;
      showTagName := None;
      loading := false;
      running := false;
      updatedListeners := [];
      tasks := [];
      events := [];
      new;
      if snapshot.Some? {
        itemCache := snapshot.value;
        CreatePositionCache();
      }
    }

    /** The thread body: the message loop starts and the newest page is queried. */
    method Run()
      requires Valid() && !running
      modifies this`running, this`loading, this`tasks
      ensures running && loading
      ensures tasks == old(tasks) + [Query(-1, -1)]
    {
      running := true;
      QueryFirstItems();
    }

    method AddUpdatedItemsListener(listener: ListenerId)
      modifies this`updatedListeners
      ensures updatedListeners == old(updatedListeners) + [listener]
    {
      updatedListeners := updatedListeners + [listener];
    }

    /** The item at a grid position: the cached item whose id the index holds there. */
    function GetItemByPosition(position: int): (item: Item)
      reads this
      requires Valid() && 0 <= position < |positionCache|
      ensures item.id == positionCache[position] && item == itemCache.entries[item.id]
      ensures IndexExact() ==> Visible(item, CurrentFilter())
      ensures IndexExact() ==> forall id :: id in itemCache.entries && Visible(itemCache.entries[id], CurrentFilter()) ==>
        (position == 0 ==> id <= item.id) && (position == |positionCache| - 1 ==> item.id <= id)
    {
      var id := positionCache[position];
      assert IndexExact() ==> forall other :: other in itemCache.entries && Visible(itemCache.entries[other], CurrentFilter()) ==>
        positionCache[|positionCache| - 1] <= other <= positionCache[0] by {
        if IndexExact() {
          IndexEnds(positionCache, itemCache.entries, CurrentFilter());
        }
      }
      itemCache.entries[id]
    }

    /** The cached item with this id, or null when it was never fetched. */
    function GetItemById(id: Id): (item: Option<Item>)
      reads this
      requires Valid()
      ensures item.Some? <==> id in itemCache.entries
      ensures item.Some? ==> item.value == itemCache.entries[id] && item.value.id == id
    {
      if id in itemCache.entries then Some(itemCache.entries[id]) else None
    }

    /** The size of the position index. */
    function GetItemCount(): (count: nat)
      reads this
      requires Valid()
      ensures IndexExact() ==> count == |VisibleIds(itemCache.entries, CurrentFilter())|
    {
      assert IndexExact() ==> |positionCache| == |VisibleIds(itemCache.entries, CurrentFilter())| by {
        if IndexExact() {
          IndexSize(positionCache, itemCache.entries, CurrentFilter());
        }
      }
      |positionCache|
    }

    /** Posts a page query, unless the worker thread does not run yet. */
    method QueryItems(after: int, before: int)
      modifies this`loading, this`tasks
      ensures running ==> loading && tasks == old(tasks) + [Query(after, before)]
      ensures !running ==> loading == old(loading) && tasks == old(tasks)
    {
      if !running {
        return;
      }
      loading := true;
      tasks := tasks + [Query(after, before)];
    }

    /** Queries the newest page. */
    method QueryFirstItems()
      modifies this`loading, this`tasks
      ensures running ==> loading && tasks == old(tasks) + [Query(-1, -1)]
      ensures !running ==> loading == old(loading) && tasks == old(tasks)
    {
      QueryItems(-1, -1);
    }

    /**
     * Queries the page before the oldest cached id. The size guard of the source is
     * always true, so `firstKey` is reached on an empty cache too: there it throws
     * (`thrown`) and nothing is posted.
     */
    method QueryOlderItems() returns (thrown: bool)
      requires Valid()
      modifies this`loading, this`tasks
      ensures thrown <==> itemCache.keys == []
      ensures thrown ==> loading == old(loading) && tasks == old(tasks)
      ensures !thrown && running ==> loading && |tasks| == |old(tasks)| + 1 && tasks[..|old(tasks)|] == old(tasks)
      ensures !thrown && running ==> tasks[|tasks| - 1].Query? && tasks[|tasks| - 1].after == -1
      ensures !thrown && running ==> tasks[|tasks| - 1].before in itemCache.entries
      ensures !thrown && running ==> forall id :: id in itemCache.entries ==> tasks[|tasks| - 1].before <= id
      ensures !running ==> loading == old(loading) && tasks == old(tasks)
    {
      if itemCache.keys == [] {
        return true;
      }
      var firstId := SortedMaps.FirstKey(itemCache);
      QueryItems(-1, firstId);
      return false;
    }

    /** Queries the page after the newest cached id; throws on an empty cache like `QueryOlderItems`. */
    method QueryNewerItems() returns (thrown: bool)
      requires Valid()
      modifies this`loading, this`tasks
      ensures thrown <==> itemCache.keys == []
      ensures thrown ==> loading == old(loading) && tasks == old(tasks)
      ensures !thrown && running ==> loading && |tasks| == |old(tasks)| + 1 && tasks[..|old(tasks)|] == old(tasks)
      ensures !thrown && running ==> tasks[|tasks| - 1].Query? && tasks[|tasks| - 1].before == -1
      ensures !thrown && running ==> tasks[|tasks| - 1].after in itemCache.entries
      ensures !thrown && running ==> forall id :: id in itemCache.entries ==> id <= tasks[|tasks| - 1].after
      ensures !running ==> loading == old(loading) && tasks == old(tasks)
    {
      if itemCache.keys == [] {
        return true;
      }
      var lastId := SortedMaps.LastKey(itemCache);
      QueryItems(lastId, -1);
      return false;
    }

    /** Posts a tag update (comma separated tags, `-` to remove), unless the thread does not run yet. */
    method UpdateItemTags(id: Id, tags: string, listener: ListenerId)
      modifies this`tasks
      ensures tasks == (if running then old(tasks) + [UpdateTags(id, tags, listener)] else old(tasks))
    {
      if !running {
        return;
      }
      tasks := tasks + [UpdateTags(id, tags, listener)];
    }

    /**
     * Runs the oldest posted task, a page query; `response` is what the feed API
     * answered to `call`. A page is merged into the cache, the index is rebuilt and
     * every listener gets the page; an error reaches every listener and changes
     * neither cache nor index. Either way loading ends.
     */
    method RunQuery(response: Result<seq<Item>>) returns (call: ApiCall)
      requires Valid() && tasks != [] && tasks[0].Query?
      modifies this`tasks, this`itemCache, this`positionCache, this`lockedQuery, this`events, this`loading
      ensures Valid()
      ensures call == SelectCall(showTagName, old(tasks[0].after), old(tasks[0].before))
      ensures tasks == old(tasks[1..]) && !loading
      ensures response.Ok? ==>
        && itemCache == PutAll(old(itemCache), response.value)
        && IndexExact()
        && lockedQuery == (old(lockedQuery) || response.value == [])
        && events == old(events) + Notify(updatedListeners, Updated(Some(response.value)))
      ensures response.Err? ==>
        && itemCache == old(itemCache) && positionCache == old(positionCache)
        && lockedQuery == old(lockedQuery)
        && events == old(events) + Notify(updatedListeners, Failed(response.error))
    {
      var task := tasks[0];
      tasks := tasks[1..];
      call := SelectCall(showTagName, task.after, task.before);
      match response {
        case Ok(newItemsList) =>
          if |newItemsList| == 0 {
            lockedQuery := true;
          }
          PutPage(newItemsList);
          CreatePositionCache();
          CallUpdatedItems(Updated(Some(newItemsList)));
        case Err(message) =>
          CallUpdatedItems(Failed(message));
      }
      loading := false;
    }

    /** Puts every item of a page into the cache under its id, in page order. */
    method PutPage(page: seq<Item>)
      requires SortedMaps.Valid(itemCache) && KeysMatch(itemCache.entries)
      modifies this`itemCache
      ensures itemCache == PutAll(old(itemCache), page)
    {
      for i := 0 to |page|
        invariant SortedMaps.Valid(itemCache)
        invariant itemCache == PutAll(old(itemCache), page[..i])
      {
        assert page[..i + 1][..i] == page[..i];
        itemCache := SortedMaps.Put(itemCache, page[i].id, page[i]);
      }
      assert page[..|page|] == page;
    }

    /**
     * Runs the oldest posted task, a tag update; `response` is the updated item
     * the feed API returned (carrying the requested id) or its error. The item
     * replaces the cached one only if that id is cached; the index is not rebuilt.
     */
    method RunUpdateTags(response: Result<Item>) returns (call: ApiCall)
      requires Valid() && tasks != [] && tasks[0].UpdateTags?
      requires response.Ok? ==> response.value.id == tasks[0].id
      modifies this`itemCache, this`tasks, this`events
      ensures Valid()
      ensures call == Update(old(tasks[0].id), old(tasks[0].tags))
      ensures tasks == old(tasks[1..])
      ensures itemCache.entries.Keys == old(itemCache.entries.Keys)
      ensures response.Ok? ==>
        && itemCache.entries == (if call.id in old(itemCache.entries) then old(itemCache.entries)[call.id := response.value] else old(itemCache.entries))
        && events == old(events) + [TagsUpdated(old(tasks[0].tagListener), response.value)]
      ensures response.Err? ==>
        && itemCache == old(itemCache)
        && events == old(events) + [TagsFailed(old(tasks[0].tagListener), response.error)]
    {
      var task := tasks[0];
      tasks := tasks[1..];
      call := Update(task.id, task.tags);
      match response
      case Ok(item) =>
        if task.id in itemCache.entries {
          itemCache := SortedMaps.Put(itemCache, task.id, item);
        }
        events := events + [TagsUpdated(task.tagListener, item)];
      case Err(message) =>
        events := events + [TagsFailed(task.tagListener, message)];
    }

    /** `createPositionCache`: rebuilds the index from the cache and the current settings. */
    method CreatePositionCache()
      requires SortedMaps.Valid(itemCache) && KeysMatch(itemCache.entries)
      modifies this`positionCache
      ensures Valid() && IndexExact()
    {
      positionCache := BuildIndex(itemCache, CurrentFilter());
    }

    /** Tells every registered listener, in order. */
    method CallUpdatedItems(signal: Signal)
      modifies this`events
      ensures events == old(events) + Notify(updatedListeners, signal)
    {
      for i := 0 to |updatedListeners|
        invariant events == old(events) + Notify(updatedListeners[..i], signal)
      {
        assert updatedListeners[..i + 1][..i] == updatedListeners[..i];
        events := events + [ItemsEvent(updatedListeners[i], signal)];
      }
      assert updatedListeners[..|updatedListeners|] == updatedListeners;
    }

    /**
     * Shows or hides videos, rebuilds the index and tells the listeners with no page.
     * Setting the value it already has leaves an exact index as it was.
     */
    method SetHideVideos(hidden: bool)
      requires Valid()
      modifies this`hideVideos, this`positionCache, this`events
      ensures Valid() && IndexExact() && hideVideos == hidden
      ensures events == old(events) + Notify(updatedListeners, Updated(None))
      ensures old(hideVideos) == hidden && old(IndexExact()) ==> positionCache == old(positionCache)
    {
      ghost var before := positionCache;
      ghost var wasExact := IndexExact();
      ghost var wasHidden := hideVideos;
      hideVideos := hidden;
      CreatePositionCache();
      if wasHidden == hidden && wasExact {
        IndexUnique(before, positionCache, itemCache.entries, CurrentFilter());
      }
      CallUpdatedItems(Updated(None));
    }

    /**
     * Shows or hides images, rebuilds the index and tells the listeners with no page.
     * Setting the value it already has leaves an exact index as it was.
     */
    method SetHideImages(hidden: bool)
      requires Valid()
      modifies this`hideImages, this`positionCache, this`events
      ensures Valid() && IndexExact() && hideImages == hidden
      ensures events == old(events) + Notify(updatedListeners, Updated(None))
      ensures old(hideImages) == hidden && old(IndexExact()) ==> positionCache == old(positionCache)
    {
      ghost var before := positionCache;
      ghost var wasExact := IndexExact();
      ghost var wasHidden := hideImages;
      hideImages := hidden;
      CreatePositionCache();
      if wasHidden == hidden && wasExact {
        IndexUnique(before, positionCache, itemCache.entries, CurrentFilter());
      }
      CallUpdatedItems(Updated(None));
    }

    /** Allows queries again. */
    method ResetLockedQuery()
      modifies this`lockedQuery
      ensures !lockedQuery
    {
      lockedQuery := false;
    }

    /**
     * Sets or clears the tag filter and rebuilds the index. When no cached item
     * survives the new filter the newest page is queried (scoped to the tag when
     * the query runs). The query lock is cleared and the listeners are told.
     */
    method SetShowTag(name: Option<string>)
      requires Valid()
      modifies this`showTagName, this`positionCache, this`loading, this`tasks, this`lockedQuery, this`events
      ensures Valid() && IndexExact() && showTagName == name
      ensures positionCache == [] <==> VisibleIds(itemCache.entries, CurrentFilter()) == {}
      ensures tasks == old(tasks) + (if positionCache == [] && running then [Query(-1, -1)] else [])
      ensures loading == (if positionCache == [] && running then true else old(loading))
      ensures !lockedQuery
      ensures events == old(events) + Notify(updatedListeners, Updated(None))
    {
      showTagName := name;
      CreatePositionCache();
      IndexSize(positionCache, itemCache.entries, CurrentFilter());
      if |positionCache| == 0 {
        QueryFirstItems();
      }
      ResetLockedQuery();
      CallUpdatedItems(Updated(None));
    }

    /**
     * The id shown before `itemId` (the next newer one), or `itemId` itself when it
     * is first or not in the index.
     */
    function GetPreviousItemId(itemId: Id): (r: Id)
      reads this
      requires Valid()
      ensures itemId !in positionCache ==> r == itemId
      ensures forall k :: 0 <= k < |positionCache| && positionCache[k] == itemId ==>
        r == if k > 0 then positionCache[k - 1] else itemId
    {
      var pos := IndexOf(positionCache, itemId) - 1;
      if pos >= 0 && pos < |positionCache| then positionCache[pos] else itemId
    }

    /**
     * The id shown after `itemId` (the next older one), or `itemId` itself when it
     * is last; for an id not in the index, the first id of a non-empty index.
     */
    function GetNextItemId(itemId: Id): (r: Id)
      reads this
      requires Valid()
      ensures itemId !in positionCache ==> r == if positionCache != [] then positionCache[0] else itemId
      ensures forall k :: 0 <= k < |positionCache| && positionCache[k] == itemId ==>
        r == if k + 1 < |positionCache| then positionCache[k + 1] else itemId
    {
      var pos := IndexOf(positionCache, itemId) + 1;
      if pos >= 0 && pos < |positionCache| then positionCache[pos] else itemId
    }

    /** Inside the index, stepping back and then forward (or the other way) returns to the same id. */
    lemma NeighboursInverse(k: int)
      requires Valid() && 0 < k < |positionCache|
      ensures GetNextItemId(GetPreviousItemId(positionCache[k])) == positionCache[k]
      ensures GetPreviousItemId(GetNextItemId(positionCache[k - 1])) == positionCache[k - 1]
    {
      assert GetPreviousItemId(positionCache[k]) == positionCache[k - 1];
      assert GetNextItemId(positionCache[k - 1]) == positionCache[k];
    }
  }
}
