/**
 * The thumbnail worker (the same code serves as the worker-side thumbnail
 * provider, which only receives its API client from outside): a pool of fetch
 * tasks, one per request and without de-duplication, resolving each item's
 * thumbnail through memory, disk and web, with the video overlay drawn on videos.
 */
module ThumbnailWorkers {
  import opened Wrappers
  import opened Items
  import opened Bitmaps
  import opened LruCaches
  import opened ThumbFiles
  import opened ThumbTiers
  import opened Feed

  /** A task submitted to the pool: the item and the listener (null for a prefetch). */
  datatype LoadTask = LoadTask(item: Item, listener: Option<ListenerId>)

  /** `onLoadedThumbnail(id, bitmap)` on a listener; the bitmap may be null. */
  datatype Delivery = Delivery(listener: ListenerId, id: Id, bitmap: Option<Bitmap>)

  /** The memory cache holds at most this many thumbnails. */
  const MemCacheEntries := 150

  /** The prefetch tasks for a page of new items: one per item, without a listener. */
  function PrefetchTasks(items: seq<Item>): (r: seq<LoadTask>)
    ensures |r| == |items|
    ensures forall i :: 0 <= i < |items| ==> r[i] == LoadTask(items[i], None)
  {
    if items == [] then [] else PrefetchTasks(items[..|items| - 1]) + [LoadTask(items[|items| - 1], None)]
  }

  class ThumbnailWorker {
    var memCache: Lru
    /** The thumbnail files of the disk cache directory, by file name. */
    var diskCache: map<string, DiskFile>
    /** The bitmap drawn over video thumbnails. */
    const videoOverlayBitmap: Bitmap
    /** The server base URL the API client was built with. */
    const baseUrl: string
    /** Tasks submitted to the pool and not yet run, in submission order. */
    var pool: seq<LoadTask>
    var deliveries: seq<Delivery>
    /** The thumbnail URLs downloaded so far. */
    var downloads: seq<string>

    ghost predicate Valid()
      reads this
    {
      LruCaches.Valid(memCache) && memCache.maxSize == MemCacheEntries && UnitSized(memCache)
    }

    function CurrentTiers(): Tiers
      reads this
    {
      Tiers(memCache, diskCache)
    }

    /** `disk` is what the cache directory already holds; memory starts empty. */
    constructor (baseUrl: string, videoOverlayBitmap: Bitmap, disk: map<string, DiskFile>)
      ensures Valid() && memCache == New(MemCacheEntries) && diskCache == disk
      ensures this.baseUrl == baseUrl && this.videoOverlayBitmap == videoOverlayBitmap
      ensures pool == [] && deliveries == [] && downloads == []
    {
      memCache := New(MemCacheEntries);
      diskCache := disk;
      this.videoOverlayBitmap := videoOverlayBitmap;
      this.baseUrl := baseUrl;
      pool := [];
      deliveries := [];
      downloads := [];
    }

    /** Submits one fetch task per call. */
    method LoadThumbnail(item: Item, listener: Option<ListenerId>)
      modifies this`pool
      ensures pool == old(pool) + [LoadTask(item, listener)]
    {
      pool := pool + [LoadTask(item, listener)];
    }

    /**
     * Runs the oldest task; `web` is what downloading its thumbnail would yield.
     * The listener hears (id, bitmap) when the lookup completed; a prefetch task
     * has no listener, so its call fails after the lookup and nobody hears of it.
     */
    method RunLoadTask(web: Option<Bitmap>)
      requires Valid() && pool != []
      modifies this`pool, this`memCache, this`diskCache, this`downloads, this`deliveries
      ensures Valid() && pool == old(pool[1..])
      ensures var task := old(pool[0]);
        var o := ResolveItem(old(CurrentTiers()), task.item, Some(videoOverlayBitmap), baseUrl, web);
        && CurrentTiers() == o.tiers
        && downloads == old(downloads) + (if o.fetched.Some? then [o.fetched.value] else [])
        && deliveries == old(deliveries) +
             (if o.completed && task.listener.Some? then [Delivery(task.listener.value, task.item.id, o.bitmap)] else [])
    {
      var task := pool[0];
      pool := pool[1..];
      var bitmap, completed := GetBitmapByItem(task.item, web);
      if completed && task.listener.Some? {
        deliveries := deliveries + [Delivery(task.listener.value, task.item.id, bitmap)];
      }
    }

    /**
     * `getBitmapByItem`, step by step. `completed` is false when a disk file that
     * does not decode makes the overlay or the memory put throw.
     */
    method GetBitmapByItem(item: Item, web: Option<Bitmap>) returns (bitmap: Option<Bitmap>, completed: bool)
      requires Valid()
      modifies this`memCache, this`diskCache, this`downloads
      ensures Valid()
      ensures var o := ResolveItem(old(CurrentTiers()), item, Some(videoOverlayBitmap), baseUrl, web);
        && bitmap == o.bitmap && completed == o.completed && CurrentTiers() == o.tiers
        && downloads == old(downloads) + (if o.fetched.Some? then [o.fetched.value] else [])
    {
      if item.image.None? {
        return None, true;
      }
      ghost var o := ResolveItem(CurrentTiers(), item, Some(videoOverlayBitmap), baseUrl, web);
      // isMemCached, then loadFromMemCache: two reads of the same entry
      GetValid(memCache, item.id);
      GetTwice(memCache, item.id);
      UnitSizedGet(memCache, item.id);
      var hit: Option<Bitmap>;
      hit, memCache := Get(memCache, item.id).0, Get(memCache, item.id).1;
      if hit.Some? {
        GetValid(memCache, item.id);
        UnitSizedGet(memCache, item.id);
        bitmap, memCache := Get(memCache, item.id).0, Get(memCache, item.id).1;
        assert o.bitmap == bitmap && o.tiers == CurrentTiers() && o.fetched == None;
        return bitmap, true;
      }
      var mem := memCache;
      var file := FileName(item.id);
      if file in diskCache {
        bitmap := Decode(diskCache[file]);
        if bitmap.None? {
          assert o.tiers == CurrentTiers() && !o.completed;
          return None, false;
        }
        assert o.fetched == None;
      } else {
        var url := baseUrl + item.image.value.thumbnail;
        downloads := downloads + [url];
        bitmap := web;
        if bitmap.None? {
          assert o.tiers == CurrentTiers() && o.fetched == Some(url) && o.bitmap == None;
          return None, true;
        }
        diskCache := diskCache[file := Compress(bitmap.value)];
        assert o.fetched == Some(url);
      }
      assert o.tiers.disk == diskCache;
      if item.itemType == Video {
        bitmap := Some(DrawBitmapOverlay(bitmap.value, videoOverlayBitmap));
      }
      assert o.bitmap == bitmap;
      PutSpec(mem, item.id, bitmap.value, 1);
      UnitSizedPut(mem, item.id, bitmap.value);
      memCache := Put(mem, item.id, bitmap.value, 1);
      completed := true;
      assert o.tiers == CurrentTiers();
    }

    /** Prefetches the thumbnails of a page of new items; a null list (a filter change) submits nothing. */
    method OnUpdatedItems(newItemsList: Option<seq<Item>>)
      modifies this`pool
      ensures pool == old(pool) + (if newItemsList.Some? then PrefetchTasks(newItemsList.value) else [])
    {
      if newItemsList.None? {
        return;
      }
      var items := newItemsList.value;
      for i := 0 to |items|
        invariant pool == old(pool) + PrefetchTasks(items[..i])
      {
        assert items[..i + 1][..i] == items[..i];
        LoadThumbnail(items[i], None);
      }
      assert items[..|items|] == items;
    }
  }
}
