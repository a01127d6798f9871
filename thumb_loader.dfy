/**
 * The thumb loader: a pool of fetch tasks, a map of running listeners by item id
 * that is only ever added to, and a memory cache budgeted by bitmap bytes.
 */
module ThumbLoaders {
  import opened Wrappers
  import opened Items
  import opened Bitmaps
  import opened LruCaches
  import opened ThumbFiles
  import opened ThumbTiers
  import opened Feed

  /** `loaded(bitmap)` on a listener. */
  datatype Loaded = Loaded(listener: ListenerId, bitmap: Bitmap)

  /** The memory budget: 2 MiB of bitmap bytes. */
  const MemCacheBytes := 2 * 1024 * 1024

  /** Every entry weighs the bytes of its bitmap (`sizeOf` returns `getRowBytes() * getHeight()`). */
  ghost predicate WeighsBytes(slots: seq<Slot>) {
    forall i :: 0 <= i < |slots| ==> slots[i].size == slots[i].value.ByteCount()
  }

  /** A read keeps every entry's weight. */
  lemma WeighsBytesGet(c: Lru, key: int)
    requires LruCaches.Valid(c) && WeighsBytes(c.slots)
    ensures WeighsBytes(Get(c, key).1.slots)
  {
    GetValid(c, key);
    var r := Get(c, key).1.slots;
    forall i | 0 <= i < |r| ensures r[i].size == r[i].value.ByteCount() {
      assert r[i] in r;
    }
  }

  /** A put weighed by the bitmap's bytes keeps every entry's weight. */
  lemma WeighsBytesPut(c: Lru, key: int, value: Bitmap)
    requires LruCaches.Valid(c) && WeighsBytes(c.slots)
    ensures WeighsBytes(Put(c, key, value, value.ByteCount()).slots)
  {
    PutSpec(c, key, value, value.ByteCount());
    var r := Put(c, key, value, value.ByteCount()).slots;
    forall i | 0 <= i < |r| ensures r[i].size == r[i].value.ByteCount() {
      assert r[i] in r;
    }
  }

  class ThumbLoader {
    var memCache: Lru
    var diskCache: map<string, DiskFile>
    /** `runningListeners`: the listener to run when an id's thumbnail is loaded. */
    var runningListeners: map<Id, ListenerId>
    /** Fetch tasks submitted to the pool and not yet run. */
    var pool: seq<Item>
    var deliveries: seq<Loaded>
    var downloads: seq<string>
    /** Every id a fetch task was ever submitted for, in order. */
    ghost var submitted: seq<Id>

    /**
     * The memory budget (each entry weighs its bitmap's bytes), and the registry: the ids ever submitted are exactly the
     * registered ids, each submitted once, and every queued task is one of them.
     */
    ghost predicate Valid()
      reads this
    {
      MemoryValid() && RegistryValid()
    }

    ghost predicate MemoryValid()
      reads this
    {
      && LruCaches.Valid(memCache) && memCache.maxSize == MemCacheBytes
      && WeighsBytes(memCache.slots)
    }

    ghost predicate RegistryValid()
      reads this
    {
      && (forall i, j :: 0 <= i < j < |submitted| ==> submitted[i] != submitted[j])
      && (forall id :: id in submitted <==> id in runningListeners)
      && (forall i :: 0 <= i < |pool| ==> pool[i].id in runningListeners)
    }

    function CurrentTiers(): Tiers
      reads this
    {
      Tiers(memCache, diskCache)
    }

    /** The map of running listeners starts empty. */
    constructor (disk: map<string, DiskFile>)
      ensures Valid() && memCache == New(MemCacheBytes) && diskCache == disk
      ensures runningListeners == map[] && pool == [] && deliveries == [] && downloads == [] && submitted == []
    {
      memCache := New(MemCacheBytes);
      diskCache := disk;
      runningListeners := map[];
      pool := [];
      deliveries := [];
      downloads := [];
      submitted := [];
    }

    /** `isItemLoading`: a listener was ever registered for the id. */
    function IsItemLoading(item: Item): (loading: bool)
      reads this
      requires Valid()
      ensures loading <==> item.id in submitted
    {
      item.id in runningListeners
    }

    /**
     * Submits a fetch task unless the id was registered before, then registers
     * `listener`, replacing the earlier one. An id gets at most one task over the
     * loader's lifetime.
     */
    method QueueThumbLoading(item: Item, listener: ListenerId)
      requires Valid()
      modifies this`pool, this`runningListeners, this`submitted
      ensures Valid()
      ensures runningListeners == old(runningListeners)[item.id := listener]
      ensures pool == if item.id in old(runningListeners) then old(pool) else old(pool) + [item]
      ensures submitted == if item.id in old(runningListeners) then old(submitted) else old(submitted) + [item.id]
    {
      if !IsItemLoading(item) {
        pool := pool + [item];
        submitted := submitted + [item.id];
      }
      runningListeners := runningListeners[item.id := listener];
    }

    /**
     * Runs the oldest task (`loadThumb`); `web` is what downloading its thumbnail
     * would yield. When the lookup completes, the listener registered for the id
     * at that moment gets the bitmap; the registration stays.
     */
    method RunLoadTask(web: Option<Bitmap>)
      requires Valid() && pool != []
      modifies this`pool, this`memCache, this`diskCache, this`downloads, this`deliveries
      ensures Valid() && pool == old(pool[1..])
      ensures var item := old(pool[0]);
        var o := ResolveLoader(old(CurrentTiers()), item, web);
        && CurrentTiers() == o.tiers
        && downloads == old(downloads) + (if o.fetched.Some? then [o.fetched.value] else [])
        && o.completed == o.bitmap.Some?
        && deliveries == old(deliveries) +
             (if o.completed then [Loaded(runningListeners[item.id], o.bitmap.value)] else [])
    {
      var item := pool[0];
      assert item.id in runningListeners;
      pool := pool[1..];
      assert RegistryValid();
      var bitmap, completed := LoadThumb(item, web);
      if completed {
        deliveries := deliveries + [Loaded(runningListeners[item.id], bitmap.value)];
      }
    }

    /** `loadThumb` up to the listener call, step by step. */
    method LoadThumb(item: Item, web: Option<Bitmap>) returns (bitmap: Option<Bitmap>, completed: bool)
      requires MemoryValid()
      modifies this`memCache, this`diskCache, this`downloads
      ensures MemoryValid()
      ensures var o := ResolveLoader(old(CurrentTiers()), item, web);
        && bitmap == o.bitmap && completed == o.completed && CurrentTiers() == o.tiers
        && downloads == old(downloads) + (if o.fetched.Some? then [o.fetched.value] else [])
      ensures completed <==> bitmap.Some?
    {
      if item.image.None? {
        return None, false;
      }
      GetValid(memCache, item.id);
      GetTwice(memCache, item.id);
      WeighsBytesGet(memCache, item.id);
      var hit: Option<Bitmap>;
      hit, memCache := Get(memCache, item.id).0, Get(memCache, item.id).1;
      if hit.Some? {
        GetValid(memCache, item.id);
        WeighsBytesGet(memCache, item.id);
        bitmap, memCache := Get(memCache, item.id).0, Get(memCache, item.id).1;
        return bitmap, true;
      }
      var file := FileName(item.id);
      if file in diskCache {
        bitmap := Decode(diskCache[file]);
      } else {
        var url := item.image.value.thumbnail;
        downloads := downloads + [url];
        bitmap := web;
        // the file is created before `compress` is called on the bitmap
        diskCache := diskCache[file := if bitmap.Some? then Compress(bitmap.value) else Empty];
      }
      if bitmap.None? {
        // the memory cache refuses a null value
        return None, false;
      }
      PutSpec(memCache, item.id, bitmap.value, bitmap.value.ByteCount());
      WeighsBytesPut(memCache, item.id, bitmap.value);
      memCache := Put(memCache, item.id, bitmap.value, bitmap.value.ByteCount());
      completed := true;
    }
  }
}
