/**
 * The thumb worker: a memory cache of 80 thumbnails shared by every instance
 * (created by the first one), the shared `zeitgeist_cache` directory, and a
 * handler thread that resolves memory misses one task at a time. A task that
 * ends with a null bitmap throws out of the thread's loop, which halts it.
 */
module ThumbWorkers {
  import opened Wrappers
  import opened Items
  import opened Bitmaps
  import opened LruCaches
  import opened ThumbFiles
  import opened ThumbTiers
  import opened Feed

  /** The capacity of the shared memory cache, in entries. */
  const CacheEntries := 80

  /** A task posted on a memory miss: the id, the URL to download, the listener. */
  datatype ThumbTask = ThumbTask(id: Id, url: string, listener: ListenerId)

  /** `newThumb(bitmap)` on a listener. */
  datatype NewThumb = NewThumb(listener: ListenerId, bitmap: Bitmap)

  /**
   * What all thumb workers share: the static memory cache (null until the first
   * worker is built) and the files of the disk cache directory.
   */
  class ThumbStore {
    var cache: Option<Lru>
    var disk: map<string, DiskFile>

    /** Once created, the cache has the fixed capacity and counts entries. */
    ghost predicate Valid()
      reads this
    {
      cache.Some? ==> LruCaches.Valid(cache.value) && cache.value.maxSize == CacheEntries && UnitSized(cache.value)
    }

    /** Before any worker exists: no memory cache; `disk` is what the directory already holds. */
    constructor (disk: map<string, DiskFile>)
      ensures Valid() && cache == None && this.disk == disk
    {
      cache := None;
      this.disk := disk;
    }
  }

  class ThumbWorker {
    const store: ThumbStore
    /** The width thumbnails are meant for; the code does not scale by it. */
    const thumbWidth: int
    /** The thread's loop runs and its handler exists. */
    var started: bool
    /** A task threw and ended the thread's loop: no further task runs. */
    var halted: bool
    /** Tasks posted to the thread and not yet run, in posting order. */
    var tasks: seq<ThumbTask>
    /** Listener calls made on the UI thread, in order. */
    var newThumbs: seq<NewThumb>
    /** The URLs downloaded so far. */
    var downloads: seq<string>

    ghost predicate Valid()
      reads this, store
    {
      store.Valid() && store.cache.Some?
    }

    /** The tiers as a task sees them. */
    function CurrentTiers(): Tiers
      reads this, store
      requires store.cache.Some?
    {
      Tiers(store.cache.value, store.disk)
    }

    /** Creates the shared cache unless an earlier worker did; the thread is not started yet. */
    constructor (store: ThumbStore, thumbWidth: int)
      requires store.Valid()
      modifies store`cache
      ensures Valid() && this.store == store && this.thumbWidth == thumbWidth
      ensures store.cache == if old(store.cache).None? then Some(New(CacheEntries)) else old(store.cache)
      ensures !started && !halted && tasks == [] && newThumbs == [] && downloads == []
    {
      this.store := store;
      this.thumbWidth := thumbWidth;
      started := false;
      halted := false;
      tasks := [];
      newThumbs := [];
      downloads := [];
      new;
      if store.cache.None? {
        store.cache := Some(New(CacheEntries));
      }
    }

    /** `run`: prepares the loop and creates the handler. */
    method Start()
      modifies this`started
      ensures started
    {
      started := true;
    }

    /**
     * `queueThumb`, on the UI thread: a memory hit calls the listener at once;
     * a miss posts a task through the handler the thread creates, so a miss
     * before the thread has run throws (`thrown`) and posts nothing.
     */
    method QueueThumb(id: Id, url: string, listener: ListenerId) returns (thrown: bool)
      requires Valid()
      modifies this`tasks, this`newThumbs, store`cache
      ensures Valid()
      ensures store.cache == Some(Get(old(store.cache.value), id).1)
      ensures var hit := Cached(old(store.cache.value), id);
        && (thrown <==> hit.None? && !started)
        && (hit.Some? ==> newThumbs == old(newThumbs) + [NewThumb(listener, hit.value)] && tasks == old(tasks))
        && (hit.None? && started ==> tasks == old(tasks) + [ThumbTask(id, url, listener)] && newThumbs == old(newThumbs))
        && (thrown ==> tasks == old(tasks) && newThumbs == old(newThumbs))
    {
      UnitSizedGet(store.cache.value, id);
      GetValid(store.cache.value, id);
      var (bitmap, cache) := Get(store.cache.value, id);
      store.cache := Some(cache);
      if bitmap.Some? {
        newThumbs := newThumbs + [NewThumb(listener, bitmap.value)];
        return false;
      }
      if !started {
        // the handler is still null
        return true;
      }
      tasks := tasks + [ThumbTask(id, url, listener)];
      return false;
    }

    /**
     * Runs the oldest task; `web` is what downloading its URL would yield. A
     * non-null result reaches the listener; a null one halts the thread.
     */
    method RunTask(web: Option<Bitmap>)
      requires Valid() && started && !halted && tasks != []
      modifies this`tasks, this`halted, this`newThumbs, this`downloads, store`cache, store`disk
      ensures Valid() && tasks == old(tasks[1..])
      ensures var task := old(tasks[0]);
        var o := ResolveById(old(CurrentTiers()), task.id, task.url, web);
        && CurrentTiers() == o.tiers
        && downloads == old(downloads) + (if o.fetched.Some? then [o.fetched.value] else [])
        && halted == !o.completed
        && newThumbs == old(newThumbs) + (if o.completed then [NewThumb(task.listener, o.bitmap.value)] else [])
    {
      var task := tasks[0];
      var mem := store.cache.value;
      var disk := store.disk;
      ghost var o := ResolveById(Tiers(mem, disk), task.id, task.url, web);
      var file := FileName(task.id);
      var bitmap: Option<Bitmap>;
      var fetched: Option<string>;
      if file in disk {
        bitmap := Decode(disk[file]);
        fetched := None;
      } else {
        bitmap := web;
        fetched := Some(task.url);
        // the file is created before `compress` is called on the bitmap
        disk := disk[file := if bitmap.Some? then Compress(bitmap.value) else Empty];
      }
      assert o.fetched == fetched && o.bitmap == bitmap && o.tiers.disk == disk;
      assert o.completed == bitmap.Some?;
      tasks := tasks[1..];
      downloads := downloads + (if fetched.Some? then [fetched.value] else []);
      store.disk := disk;
      if bitmap.None? {
        // the memory cache refuses a null value; the exception ends the loop
        assert o.tiers == Tiers(mem, disk);
        halted := true;
        return;
      }
      PutSpec(mem, task.id, bitmap.value, 1);
      UnitSizedPut(mem, task.id, bitmap.value);
      store.cache := Some(Put(mem, task.id, bitmap.value, 1));
      assert o.tiers == Tiers(store.cache.value, store.disk);
      newThumbs := newThumbs + [NewThumb(task.listener, bitmap.value)];
    }
  }
}
