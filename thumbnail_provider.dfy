/**
 * The earlier thumbnail provider: the memory, disk and web tiers without an
 * overlay, and a registry of loaded-listeners by item id that keeps at most one
 * fetch task per id in flight.
 */
module ThumbnailProviders {
  import opened Wrappers
  import opened Items
  import opened Bitmaps
  import opened LruCaches
  import opened ThumbFiles
  import opened ThumbTiers
  import opened Feed

  /** `onLoadedThumbnail(bitmap)` on a listener. */
  datatype Loaded = Loaded(listener: ListenerId, bitmap: Bitmap)

  const MemCacheEntries := 150

  /** No two tasks are for the same id. */
  ghost predicate DistinctIds(pool: seq<Item>) {
    forall i, j :: 0 <= i < j < |pool| ==> pool[i].id != pool[j].id
  }

  /**
   * The registry and task queue after `loadThumbnail(item, null)` for each item in
   * turn: a task only for an id not registered yet, and a null listener for every
   * id, replacing whatever was registered.
   */
  function Prefetch(listeners: map<Id, Option<ListenerId>>, pool: seq<Item>, items: seq<Item>): (r: (map<Id, Option<ListenerId>>, seq<Item>))
  {
    if items == [] then (listeners, pool)
    else
      var (l, p) := Prefetch(listeners, pool, items[..|items| - 1]);
      var item := items[|items| - 1];
      (l[item.id := None], if item.id in l then p else p + [item])
  }

  /**
   * After prefetching a page, every id of the page is registered with a null
   * listener, other registrations are untouched, and a task was added exactly for
   * each id that was not registered before, once per id.
   */
  lemma {:induction false} PrefetchSpec(listeners: map<Id, Option<ListenerId>>, pool: seq<Item>, items: seq<Item>)
    requires DistinctIds(pool) && forall i :: 0 <= i < |pool| ==> pool[i].id in listeners
    ensures var (l, p) := Prefetch(listeners, pool, items);
      && l.Keys == listeners.Keys + PageIds(items)
      && (forall i :: 0 <= i < |items| ==> l[items[i].id] == None)
      && (forall id :: id in listeners && (forall i :: 0 <= i < |items| ==> items[i].id != id) ==> l[id] == listeners[id])
      && |p| >= |pool| && p[..|pool|] == pool
      && DistinctIds(p) && (forall i :: 0 <= i < |p| ==> p[i].id in l)
      && (forall i :: |pool| <= i < |p| ==> p[i].id !in listeners && p[i] in items)
  {
    if items != [] {
      var front := items[..|items| - 1];
      var item := items[|items| - 1];
      PrefetchSpec(listeners, pool, front);
      var (l, p) := Prefetch(listeners, pool, front);
      assert forall i :: 0 <= i < |front| ==> front[i] == items[i];
      PageIdsSnoc(items);
      if item.id !in l {
        var p' := p + [item];
        forall i, j | 0 <= i < j < |p'| ensures p'[i].id != p'[j].id {
          if j == |p| { assert p[i].id in l; }
        }
      }
    }
  }

  class ThumbnailProvider {
    var memCache: Lru
    var diskCache: map<string, DiskFile>
    /** The application's base URL, which thumbnail paths are resolved against. */
    const baseUrl: string
    /** `loadedListeners`: the listener to call for each id being loaded (null for a prefetch). */
    var loadedListeners: map<Id, Option<ListenerId>>
    /** Fetch tasks submitted to the pool and not yet run, in submission order. */
    var pool: seq<Item>
    var deliveries: seq<Loaded>
    var downloads: seq<string>

    /**
     * The memory budget, and the registry invariant: every queued task's id is
     * registered, and no id has two tasks queued.
     */
    ghost predicate Valid()
      reads this
    {
      && LruCaches.Valid(memCache) && memCache.maxSize == MemCacheEntries && UnitSized(memCache)
      && DistinctIds(pool)
      && forall i :: 0 <= i < |pool| ==> pool[i].id in loadedListeners
    }

    function CurrentTiers(): Tiers
      reads this
    {
      Tiers(memCache, diskCache)
    }

    constructor (baseUrl: string, disk: map<string, DiskFile>)
      ensures Valid() && memCache == New(MemCacheEntries) && diskCache == disk && this.baseUrl == baseUrl
      ensures loadedListeners == map[] && pool == [] && deliveries == [] && downloads == []
    {
      memCache := New(MemCacheEntries);
      diskCache := disk;
      this.baseUrl := baseUrl;
      loadedListeners := map[];
      pool := [];
      deliveries := [];
      downloads := [];
    }

    /**
     * Registers `listener` for the item's id, replacing any earlier one, and submits
     * a fetch task only when the id was not registered already.
     */
    method LoadThumbnail(item: Item, listener: Option<ListenerId>)
      requires Valid()
      modifies this`loadedListeners, this`pool
      ensures Valid()
      ensures loadedListeners == old(loadedListeners)[item.id := listener]
      ensures pool == if item.id in old(loadedListeners) then old(pool) else old(pool) + [item]
    {
      var alreadyLoading := item.id in loadedListeners;
      loadedListeners := loadedListeners[item.id := listener];
      if alreadyLoading {
        return;
      }
      pool := pool + [item];
    }

    /**
     * Runs the oldest fetch task; `web` is what downloading its thumbnail would
     * yield. When the lookup completes, the listener registered at that moment is
     * called if it is not null and the bitmap is not null, and the id is
     * unregistered either way. When it throws, the id stays registered.
     */
    method RunFetchTask(web: Option<Bitmap>)
      requires Valid() && pool != []
      modifies this`pool, this`memCache, this`diskCache, this`downloads, this`deliveries, this`loadedListeners
      ensures Valid() && pool == old(pool[1..])
      ensures var item := old(pool[0]);
        var o := ResolveItem(old(CurrentTiers()), item, None, baseUrl, web);
        && CurrentTiers() == o.tiers
        && downloads == old(downloads) + (if o.fetched.Some? then [o.fetched.value] else [])
        && loadedListeners == (if o.completed then old(loadedListeners) - {item.id} else old(loadedListeners))
        && var listener := old(loadedListeners)[item.id];
           deliveries == old(deliveries) +
             (if o.completed && listener.Some? && o.bitmap.Some? then [Loaded(listener.value, o.bitmap.value)] else [])
    {
      var item := pool[0];
      pool := pool[1..];
      var bitmap, completed := GetBitmapByItem(item, web);
      if completed {
        CallLoadedListener(item.id, bitmap);
      }
    }

    /** Calls the registered listener with a non-null bitmap, then unregisters the id. */
    method CallLoadedListener(id: Id, bitmap: Option<Bitmap>)
      requires Valid() && forall i :: 0 <= i < |pool| ==> pool[i].id != id
      modifies this`loadedListeners, this`deliveries
      ensures Valid()
      ensures loadedListeners == old(loadedListeners) - {id}
      ensures var listener := if id in old(loadedListeners) then old(loadedListeners)[id] else None;
        deliveries == old(deliveries) + (if listener.Some? && bitmap.Some? then [Loaded(listener.value, bitmap.value)] else [])
    {
      var listener := if id in loadedListeners then loadedListeners[id] else None;
      if listener.Some? && bitmap.Some? {
        deliveries := deliveries + [Loaded(listener.value, bitmap.value)];
      }
      loadedListeners := loadedListeners - {id};
    }

    /** `getBitmapByItem`, step by step, without an overlay. */
    method GetBitmapByItem(item: Item, web: Option<Bitmap>) returns (bitmap: Option<Bitmap>, completed: bool)
      requires LruCaches.Valid(memCache) && memCache.maxSize == MemCacheEntries && UnitSized(memCache)
      modifies this`memCache, this`diskCache, this`downloads
      ensures LruCaches.Valid(memCache) && memCache.maxSize == MemCacheEntries && UnitSized(memCache)
      ensures var o := ResolveItem(old(CurrentTiers()), item, None, baseUrl, web);
        && bitmap == o.bitmap && completed == o.completed && CurrentTiers() == o.tiers
        && downloads == old(downloads) + (if o.fetched.Some? then [o.fetched.value] else [])
    {
      if item.image.None? {
        return None, true;
      }
      GetValid(memCache, item.id);
      GetTwice(memCache, item.id);
      UnitSizedGet(memCache, item.id);
      var hit: Option<Bitmap>;
      hit, memCache := Get(memCache, item.id).0, Get(memCache, item.id).1;
      if hit.Some? {
        GetValid(memCache, item.id);
        UnitSizedGet(memCache, item.id);
        bitmap, memCache := Get(memCache, item.id).0, Get(memCache, item.id).1;
        return bitmap, true;
      }
      var file := FileName(item.id);
      if file in diskCache {
        bitmap := Decode(diskCache[file]);
        if bitmap.None? {
          return None, false;
        }
      } else {
        var url := baseUrl + item.image.value.thumbnail;
        downloads := downloads + [url];
        bitmap := web;
        if bitmap.None? {
          return None, true;
        }
        diskCache := diskCache[file := Compress(bitmap.value)];
      }
      PutSpec(memCache, item.id, bitmap.value, 1);
      UnitSizedPut(memCache, item.id, bitmap.value);
      memCache := Put(memCache, item.id, bitmap.value, 1);
      completed := true;
    }

    /** Prefetches the thumbnails of new items, registering a null listener for each. */
    method OnNewItems(newItemsList: seq<Item>)
      requires Valid()
      modifies this`loadedListeners, this`pool
      ensures Valid()
      ensures (loadedListeners, pool) == Prefetch(old(loadedListeners), old(pool), newItemsList)
    {
      for i := 0 to |newItemsList|
        invariant Valid()
        invariant (loadedListeners, pool) == Prefetch(old(loadedListeners), old(pool), newItemsList[..i])
      {
        assert newItemsList[..i + 1][..i] == newItemsList[..i];
        LoadThumbnail(newItemsList[i], None);
      }
      assert newItemsList[..|newItemsList|] == newItemsList;
    }
  }
}
