# Zeitgeist for Android: item index, thumbnail tiers and grid arithmetic

This project models the core of the Zeitgeist Android client in Dafny and proves properties of that model. Zeitgeist is an image and video bookmarking service. The modelled parts are:

- **The item index.** This is the item worker, and the earlier item provider. It holds a sorted cache of every item fetched from the feed API. It also keeps a *position index*: the ids of the items that survive the type and tag filters, newest first. Page queries and tag updates run on a worker thread. Listeners are told about every page and every error.
- **The thumbnail tiers.** Four classes resolve an item's thumbnail through the same three tiers, in order: a least-recently-used memory cache, a JPEG file named `thumb_<id>.jpg` in a cache directory, and a download. These classes are:
  - the thumbnail worker (which also serves as the worker-side thumbnail provider);
  - the earlier thumbnail provider;
  - the thumb loader;
  - the thumb worker.

  Each class also keeps its own registry of work in flight.
- **Small pure helpers.** These are:
  - `Utils.join`;
  - the removal of a trailing `/` from the server base URL when an API client is built;
  - the thumbnail-grid arithmetic of the gallery screens;
  - the power-of-two sample size chosen when a picked image is scaled down.

Each entity keeps the form it has in the source:

- **Mutating classes.** Classes whose fields change become Dafny classes with `modifies` frames: the workers, providers, loader and gallery screens.
- **Memory caches.** The LRU memory cache is a value: a sequence of slots from eldest to most recently used, trimmed from the eldest end after every put. Each owner keeps that value in a field.
- **Pure resolution functions.** One lookup through the tiers is a pure function of the tiers and of the download's result: `ResolveItem`, `ResolveLoader` or `ResolveById`. Each method that performs the lookup step by step is proved equal to its function. The lemmas about the functions state what a lookup promises.
- **Threads.** A thread or a thread pool becomes a queue of posted tasks. A `Run…` method runs the oldest task.
- **Outside results.** The answers of the feed API and the results of downloads are parameters. Listener calls are appended to an event log.

## Model

| member | source | states |
|---|---|---|
| Items.PutAll | src/li/zeitgeist/android/worker/ItemWorker.java:387-389 | putting a page adds exactly the page's ids; other entries are kept; every new entry is an item of the page under its own id; the last item of the page wins |
| SortedMaps.Put | src/li/zeitgeist/android/worker/ItemWorker.java:387-389 | `TreeMap.put` keeps the keys ascending and updates the value under one key |
| SortedMaps.FirstKey | src/li/zeitgeist/android/worker/ItemWorker.java:272-280 | `firstKey` is a cached key no larger than any other |
| SortedMaps.LastKey | src/li/zeitgeist/android/worker/ItemWorker.java:285-293 | `lastKey` is a cached key no smaller than any other |
| IdOrder.Reversed | src/li/zeitgeist/android/worker/ItemWorker.java:471 | `Collections.reverse`: same length, element i is element n-1-i of the input |
| IdOrder.ReversedIncreasing | src/li/zeitgeist/android/worker/ItemWorker.java:448-474 | reversing the ascending ids gives a strictly descending list holding the same ids |
| IdOrder.DecreasingUnique | src/li/zeitgeist/android/worker/ItemWorker.java:448-474 | two strictly descending lists with the same ids are equal, so the index is determined by the ids it holds |
| IdOrder.IndexOf | src/li/zeitgeist/android/worker/ItemWorker.java:600-626 | `indexOf`: the first position of the id, or -1 exactly when it is absent |
| Feed.SelectCall | src/li/zeitgeist/android/worker/ItemWorker.java:357-378 | the feed call: `after` > -1 wins over `before`; both -1 asks for the newest page; the call is scoped to the tag filter exactly when one is set |
| Feed.Notify | src/li/zeitgeist/android/worker/ItemWorker.java:485-492 | every registered listener is called once, in registration order, with the same signal |
| PositionIndex.BuildIndex | src/li/zeitgeist/android/worker/ItemWorker.java:448-474 | the rebuilt index is exactly the cached ids that pass the audio, video, image and tag filters, newest first |
| PositionIndex.IndexUnique | src/li/zeitgeist/android/worker/ItemWorker.java:448-474 | the index is a function of the cache and the filter: two indices of the same cache and filter are equal |
| PositionIndex.IndexSize | src/li/zeitgeist/android/worker/ItemWorker.java:258-260 | the item count is the number of cached ids that pass the filter |
| PositionIndex.IndexEnds | src/li/zeitgeist/android/worker/ItemWorker.java:448-474 | position 0 holds the newest visible item and the last position the oldest |
| ItemWorkers.ItemWorker.constructor | src/li/zeitgeist/android/worker/ItemWorker.java:155-202 | the cache comes from the disk snapshot when one is read, else it is empty; the index is exact; videos hidden, images shown, no tag filter, nothing loading or locked |
| ItemWorkers.ItemWorker.Run | src/li/zeitgeist/android/worker/ItemWorker.java:579-592 | starting the thread marks it running and queries the newest page |
| ItemWorkers.ItemWorker.AddUpdatedItemsListener | src/li/zeitgeist/android/worker/ItemWorker.java:227-229 | the listener is appended to the list |
| ItemWorkers.ItemWorker.GetItemByPosition | src/li/zeitgeist/android/worker/ItemWorker.java:238-241 | the item at a position is the cached item whose id the index holds there; with an exact index it is visible, and the positions are ordered newest first |
| ItemWorkers.ItemWorker.GetItemById | src/li/zeitgeist/android/worker/ItemWorker.java:249-251 | null exactly when the id was never cached, else the cached item with that id |
| ItemWorkers.ItemWorker.GetItemCount | src/li/zeitgeist/android/worker/ItemWorker.java:258-260 | with an exact index, the number of visible cached items |
| ItemWorkers.ItemWorker.QueryItems | src/li/zeitgeist/android/worker/ItemWorker.java:344-350 | posts the query and sets loading only when the thread runs; otherwise nothing changes |
| ItemWorkers.ItemWorker.QueryFirstItems | src/li/zeitgeist/android/worker/ItemWorker.java:265-267 | posts a query for the newest page |
| ItemWorkers.ItemWorker.QueryOlderItems | src/li/zeitgeist/android/worker/ItemWorker.java:272-280 | on an empty cache `firstKey` throws, which the always-true size guard does not prevent, and nothing is posted; otherwise it queries the items before the smallest cached id, posting only when the thread runs |
| ItemWorkers.ItemWorker.QueryNewerItems | src/li/zeitgeist/android/worker/ItemWorker.java:285-293 | on an empty cache `lastKey` throws and nothing is posted; otherwise it queries the items after the largest cached id, posting only when the thread runs |
| ItemWorkers.ItemWorker.UpdateItemTags | src/li/zeitgeist/android/worker/ItemWorker.java:309-333 | posts a tag update only when the thread runs |
| ItemWorkers.ItemWorker.RunQuery | src/li/zeitgeist/android/worker/ItemWorker.java:344-414 | runs a query: a page is merged into the cache, the index is rebuilt exactly, and every listener gets the page; an error reaches every listener and changes neither the cache nor the index; loading ends either way |
| ItemWorkers.ItemWorker.PutPage | src/li/zeitgeist/android/worker/ItemWorker.java:387-389 | the loop over the page leaves the cache equal to `PutAll` of the page |
| ItemWorkers.ItemWorker.RunUpdateTags | src/li/zeitgeist/android/worker/ItemWorker.java:318-331 | the updated item replaces the cached one only when its id is cached, and the listener hears of it; an error reaches the listener; the cached ids never change |
| ItemWorkers.ItemWorker.CreatePositionCache | src/li/zeitgeist/android/worker/ItemWorker.java:448-474 | after a rebuild the index is exact for the current settings |
| ItemWorkers.ItemWorker.CallUpdatedItems | src/li/zeitgeist/android/worker/ItemWorker.java:485-492 | the event log grows by one call per listener |
| ItemWorkers.ItemWorker.SetHideVideos | src/li/zeitgeist/android/worker/ItemWorker.java:502-510 | the setting is stored, the index is exact for it and the listeners are told; setting the current value again leaves an exact index unchanged |
| ItemWorkers.ItemWorker.SetHideImages | src/li/zeitgeist/android/worker/ItemWorker.java:520-528 | the same for images |
| ItemWorkers.ItemWorker.ResetLockedQuery | src/li/zeitgeist/android/worker/ItemWorker.java:639-641 | the query lock is cleared |
| ItemWorkers.ItemWorker.SetShowTag | src/li/zeitgeist/android/worker/ItemWorker.java:559-576 | the tag filter is stored and the index is exact; the newest page is queried exactly when no cached item survives and the thread runs; the lock is cleared; the listeners are told |
| ItemWorkers.ItemWorker.GetPreviousItemId | src/li/zeitgeist/android/worker/ItemWorker.java:600-609 | the id one position before, the id itself at position 0, and the id itself when it is not indexed |
| ItemWorkers.ItemWorker.GetNextItemId | src/li/zeitgeist/android/worker/ItemWorker.java:617-626 | the id one position after, the id itself at the last position, and position 0's id when it is not indexed |
| ItemWorkers.ItemWorker.NeighboursInverse | src/li/zeitgeist/android/worker/ItemWorker.java:600-626 | inside the index, previous then next (and next then previous) returns to the same id |
| ItemProviders.ItemProvider.constructor | src/li/zeitgeist/android/provider/ItemProvider.java:72-92 | an empty cache and index; videos filtered, images shown; no handler yet |
| ItemProviders.ItemProvider.Run | src/li/zeitgeist/android/provider/ItemProvider.java:194-209 | the handler exists and the newest page is queried |
| ItemProviders.ItemProvider.AddNewItemsListener | src/li/zeitgeist/android/provider/ItemProvider.java:94-96 | the listener is appended |
| ItemProviders.ItemProvider.GetItemByPosition | src/li/zeitgeist/android/provider/ItemProvider.java:98-101 | the cached item whose id the index holds at that position; visible when the index is exact |
| ItemProviders.ItemProvider.GetItemById | src/li/zeitgeist/android/provider/ItemProvider.java:103-105 | null exactly when the id is not cached |
| ItemProviders.ItemProvider.GetItemCount | src/li/zeitgeist/android/provider/ItemProvider.java:108-110 | the number of visible cached items when the index is exact |
| ItemProviders.ItemProvider.QueryItems | src/li/zeitgeist/android/provider/ItemProvider.java:132-134 | sets loading; before the thread has created its handler the post throws and no query is queued, otherwise exactly one query is posted |
| ItemProviders.ItemProvider.QueryOlderItems | src/li/zeitgeist/android/provider/ItemProvider.java:112-120 | throws on an empty cache before anything changes, and throws with loading set when the handler does not exist yet; otherwise posts a query before the smallest cached id |
| ItemProviders.ItemProvider.QueryNewerItems | src/li/zeitgeist/android/provider/ItemProvider.java:122-130 | throws on an empty cache before anything changes, and throws with loading set when the handler does not exist yet; otherwise posts a query after the largest cached id |
| ItemProviders.ItemProvider.RunQuery | src/li/zeitgeist/android/provider/ItemProvider.java:132-175 | a page is merged, the index is rebuilt exactly, the listeners are told and loading ends; an error changes nothing and leaves loading on |
| ItemProviders.ItemProvider.PutPage | src/li/zeitgeist/android/provider/ItemProvider.java:155-157 | the cache afterwards equals `PutAll` of the page |
| ItemProviders.ItemProvider.CreatePositionCache | src/li/zeitgeist/android/provider/ItemProvider.java:221-241 | after a rebuild the index is exact for the type filters |
| ItemProviders.ItemProvider.CallUpdatedItems | src/li/zeitgeist/android/provider/ItemProvider.java:252-259 | one call per listener, in order |
| ItemProviders.ItemProvider.SetFilterVideos | src/li/zeitgeist/android/provider/ItemProvider.java:261-269 | stores the filter, rebuilds the index exactly and tells the listeners; the same value again keeps the index |
| ItemProviders.ItemProvider.SetFilterImages | src/li/zeitgeist/android/provider/ItemProvider.java:271-279 | the same for images |
| Bitmaps.DrawBitmapOverlay | src/li/zeitgeist/android/worker/ThumbnailWorker.java:215-231 | the overlaid bitmap has the base bitmap's size and configuration, and is a new picture drawn over the base |
| Bitmaps.Compress | src/li/zeitgeist/android/worker/ThumbnailWorker.java:271-288 | a saved JPEG decodes again, to a bitmap of the same size |
| Bitmaps.Decode | src/li/zeitgeist/android/worker/ThumbnailWorker.java:259-263 | decoding fails exactly on a file that holds no JPEG; otherwise it yields an ARGB_8888 bitmap of the stored size |
| ThumbFiles.FileNameInjective | src/li/zeitgeist/android/worker/ThumbnailWorker.java:249-251 | distinct ids have distinct cache file names |
| LruCaches.New | src/li/zeitgeist/android/worker/ThumbnailWorker.java:126 | a new cache is within budget and holds nothing |
| LruCaches.Get | src/li/zeitgeist/android/worker/ThumbnailWorker.java:310-317 | `get` returns the stored value; a miss changes nothing; a hit makes the entry the most recently used |
| LruCaches.GetValid | src/li/zeitgeist/android/worker/ThumbnailWorker.java:296-317 | a read keeps the cache valid and keeps every key's entry |
| LruCaches.GetTwice | src/li/zeitgeist/android/worker/ThumbnailWorker.java:164-172 | reading the same key twice (`isMemCached`, then `loadFromMemCache`) is the same as reading it once |
| LruCaches.Trim | src/li/zeitgeist/android/worker/ThumbnailWorker.java:325-331 | eviction drops only the eldest entries, and only as many as the budget needs |
| LruCaches.PutSpec | src/li/zeitgeist/android/worker/ThumbnailWorker.java:325-331 | after `put`, the cache is within budget and holds the value under the key exactly when it fits; other keys hold their old value or nothing; no other value appears |
| LruCaches.PutMostRecent | src/li/zeitgeist/android/worker/ThumbnailWorker.java:325-331 | an entry that fits the budget is the most recently used one after `put` |
| LruCaches.CountBound | src/li/zeitgeist/android/worker/ThumbnailWorker.java:126 | a cache counting entries holds at most its capacity of them |
| ThumbTiers.ResolveItemNoImage | src/li/zeitgeist/android/worker/ThumbnailWorker.java:164-168 | an item without an image yields null and touches no tier |
| ThumbTiers.ResolveItemMemoryHit | src/li/zeitgeist/android/worker/ThumbnailWorker.java:170-173 | a memory hit returns the stored bitmap, without disk, web or overlay |
| ThumbTiers.ResolveItemDiskHit | src/li/zeitgeist/android/worker/ThumbnailWorker.java:174-193 | a disk hit decodes the file without a download; when it decodes, memory holds the overlaid result |
| ThumbTiers.ResolveItemWebMiss | src/li/zeitgeist/android/worker/ThumbnailWorker.java:178-183 | a failed download of base URL + thumbnail path yields null and writes no tier |
| ThumbTiers.ResolveItemWebHit | src/li/zeitgeist/android/worker/ThumbnailWorker.java:178-193 | a download is saved to disk as a quality-90 JPEG without the overlay; memory and the result hold the overlaid bitmap |
| ThumbTiers.ResolveItemTwice | src/li/zeitgeist/android/worker/ThumbnailWorker.java:164-196 | once a lookup produced a bitmap, the next lookup serves the same bitmap from memory, without disk or web |
| ThumbTiers.ResolveLoaderFrame | src/li/zeitgeist/android/loader/ThumbLoader.java:113-135 | a load writes the tiers only for its own item |
| ThumbTiers.ResolveLoaderPoisoned | src/li/zeitgeist/android/loader/ThumbLoader.java:122-131 | a failed download leaves an empty file behind, and every later load of that item fails on it |
| ThumbTiers.ResolveByIdPoisoned | src/li/zeitgeist/android/worker/ThumbWorker.java:121-161 | the same for the thumb worker: a failed download leaves an empty file, and later tasks fail without downloading |
| ThumbTiers.ResolveByIdStores | src/li/zeitgeist/android/worker/ThumbWorker.java:121-161 | a successful task leaves its bitmap in memory, and after a download, its JPEG on disk |
| ThumbnailWorkers.PrefetchTasks | src/li/zeitgeist/android/worker/ThumbnailWorker.java:363-370 | one task per item of the page, in order, without a listener |
| ThumbnailWorkers.ThumbnailWorker.constructor | src/li/zeitgeist/android/worker/ThumbnailWorker.java:103-139 | an empty 150-entry memory cache over the existing disk files |
| ThumbnailWorkers.ThumbnailWorker.LoadThumbnail | src/li/zeitgeist/android/worker/ThumbnailWorker.java:147-155 | every call submits one task, with no de-duplication |
| ThumbnailWorkers.ThumbnailWorker.RunLoadTask | src/li/zeitgeist/android/worker/ThumbnailWorker.java:147-155 | a task resolves the item through the tiers, with the overlay, and its listener hears the id and bitmap when the lookup completes |
| ThumbnailWorkers.ThumbnailWorker.GetBitmapByItem | src/li/zeitgeist/android/worker/ThumbnailWorker.java:164-196 | the step-by-step lookup equals `ResolveItem` with the video overlay, including what it downloads |
| ThumbnailWorkers.ThumbnailWorker.OnUpdatedItems | src/li/zeitgeist/android/worker/ThumbnailWorker.java:363-370 | a page prefetches every item; a null list submits nothing |
| ThumbnailProviders.PrefetchSpec | src/li/zeitgeist/android/provider/ThumbnailProvider.java:301-305 | after prefetching a page, every page id is registered with a null listener, other registrations are kept, and exactly one task was added per id not registered before |
| ThumbnailProviders.ThumbnailProvider.constructor | src/li/zeitgeist/android/provider/ThumbnailProvider.java:86-116 | an empty 150-entry memory cache, no registrations, no tasks |
| ThumbnailProviders.ThumbnailProvider.LoadThumbnail | src/li/zeitgeist/android/provider/ThumbnailProvider.java:161-176 | registers the listener under the id, and submits a task only for an id not registered yet |
| ThumbnailProviders.ThumbnailProvider.RunFetchTask | src/li/zeitgeist/android/provider/ThumbnailProvider.java:170-174 | a task resolves the item without an overlay; a completed lookup calls the registered listener when it and the bitmap are non-null, then unregisters the id |
| ThumbnailProviders.ThumbnailProvider.CallLoadedListener | src/li/zeitgeist/android/provider/ThumbnailProvider.java:142-153 | calls the registered non-null listener with a non-null bitmap, then removes the registration |
| ThumbnailProviders.ThumbnailProvider.GetBitmapByItem | src/li/zeitgeist/android/provider/ThumbnailProvider.java:179-205 | the step-by-step lookup equals `ResolveItem` without an overlay |
| ThumbnailProviders.ThumbnailProvider.OnNewItems | src/li/zeitgeist/android/provider/ThumbnailProvider.java:301-305 | the registry and queue afterwards are `Prefetch` of the page |
| ThumbLoaders.WeighsBytesPut | src/li/zeitgeist/android/loader/ThumbLoader.java:75-80 | a put weighed by `getRowBytes() * getHeight()` keeps every entry weighed in bytes |
| ThumbLoaders.WeighsBytesGet | src/li/zeitgeist/android/loader/ThumbLoader.java:75-80 | a read keeps every entry weighed in bytes |
| ThumbLoaders.ThumbLoader.constructor | src/li/zeitgeist/android/loader/ThumbLoader.java:69-89 | an empty memory cache with a 2 MiB budget over the existing disk files; no listeners, no tasks |
| ThumbLoaders.ThumbLoader.IsItemLoading | src/li/zeitgeist/android/loader/ThumbLoader.java:108-111 | true exactly when a task was ever submitted for the id |
| ThumbLoaders.ThumbLoader.QueueThumbLoading | src/li/zeitgeist/android/loader/ThumbLoader.java:97-106 | registers the listener (the last one wins), and submits a task only the first time an id is seen; no id is ever submitted twice |
| ThumbLoaders.ThumbLoader.RunLoadTask | src/li/zeitgeist/android/loader/ThumbLoader.java:99-103 | a task resolves the item through the tiers, and the listener registered at that moment gets a non-null bitmap |
| ThumbLoaders.ThumbLoader.LoadThumb | src/li/zeitgeist/android/loader/ThumbLoader.java:113-135 | the step-by-step load equals `ResolveLoader`, and completes exactly when it has a bitmap; the byte budget holds |
| ThumbWorkers.ThumbStore.constructor | src/li/zeitgeist/android/worker/ThumbWorker.java:58 | the shared cache is null until the first worker is built |
| ThumbWorkers.ThumbWorker.constructor | src/li/zeitgeist/android/worker/ThumbWorker.java:67-92 | the first worker creates the shared 80-entry cache; later workers reuse it |
| ThumbWorkers.ThumbWorker.Start | src/li/zeitgeist/android/worker/ThumbWorker.java:180-191 | the thread's loop and handler exist |
| ThumbWorkers.ThumbWorker.QueueThumb | src/li/zeitgeist/android/worker/ThumbWorker.java:107-165 | a memory hit calls the listener at once; a miss posts exactly one task when the thread has started, and throws (posting nothing) before it has, because the handler is still null |
| ThumbWorkers.ThumbWorker.RunTask | src/li/zeitgeist/android/worker/ThumbWorker.java:121-161 | a task equals `ResolveById`: a bitmap reaches the listener; a null bitmap halts the thread |
| StringUtils.Join | src/li/zeitgeist/android/Utils.java:34-44 | the loop builds the separator-joined string |
| StringUtils.JoinedEmpty | src/li/zeitgeist/android/Utils.java:34-44 | joining nothing gives the empty string |
| StringUtils.JoinedSingle | src/li/zeitgeist/android/Utils.java:34-44 | joining one string gives that string, without a separator |
| StringUtils.JoinedSnoc | src/li/zeitgeist/android/Utils.java:34-44 | appending a string adds one separator and the string |
| StringUtils.JoinedFront | src/li/zeitgeist/android/Utils.java:34-44 | the join is the first string followed by separator-prefixed others |
| StringUtils.JoinedLength | src/li/zeitgeist/android/Utils.java:34-44 | the length is the sum of the lengths plus n-1 separators |
| ApiConfig.StripTrailingSlash | src/li/zeitgeist/android/ZeitgeistApiFactory.java:34-36 | one trailing slash is removed, and anything else is kept |
| ApiConfig.StripAppended | src/li/zeitgeist/android/ZeitgeistApiFactory.java:34-36 | stripping undoes appending a slash |
| ApiConfig.StripOnlyOne | src/li/zeitgeist/android/ZeitgeistApiFactory.java:34-36 | of two trailing slashes, one is kept |
| ApiConfig.StripPrefix | src/li/zeitgeist/android/ZeitgeistApiFactory.java:34-36 | the result is a prefix of the URL, at most one character shorter |
| ApiConfig.CreateInstance | src/li/zeitgeist/android/ZeitgeistApiFactory.java:27-39 | fails exactly when no base URL is stored; otherwise a client with the stripped base URL and the stored credentials, or null where none are stored |
| ApiConfig.GetApi | src/li/zeitgeist/android/ZeitgeistApp.java:61-73 | credentials are never null |
| ApiConfig.GetApiDefaults | src/li/zeitgeist/android/ZeitgeistApp.java:64-66 | with no preferences: `http://zeitgeist.li` and empty credentials |
| ApiConfig.CreateInstanceAgrees | src/li/zeitgeist/android/ZeitgeistApp.java:61-73 | with all three preferences stored, the factory and the application build the same client |
| JavaInts.Div | src/li/zeitgeist/android/CreateItemActivity.java:244-246 | Java `int` division: truncation toward zero |
| JavaInts.DivBounds | src/li/zeitgeist/android/CreateItemActivity.java:244-246 | the quotient is within one divisor of the exact value, on the side toward zero |
| JavaInts.DivTwice | src/li/zeitgeist/android/CreateItemActivity.java:244-246 | halving a quotient equals dividing by twice the divisor |
| GridLayout.LayoutFits | src/li/zeitgeist/android/GalleryActivity.java:298-301 | with a minimum width of 10 to the screen width, the grid has at least one column, a thumbnail width no more than 10 below the minimum, and it fits the screen with under 2 pixels per column left over |
| GridLayout.SmallSettingOverflows | src/li/zeitgeist/android/GalleryActivity.java:290-301 | a 480-pixel display with a minimum width of 5 gets 95 zero-width columns whose spacing overflows the screen; a minimum width of 1 gives a negative thumbnail width |
| GridLayout.ScrollThreshold | src/li/zeitgeist/android/Gallery.java:84 | `floor(numColumns * 2.5)` |
| GridLayout.GalleryActivity.constructor | src/li/zeitgeist/android/GalleryActivity.java:170-171 | the screen width is the display width less 4; no grid yet |
| GridLayout.GalleryActivity.UpdateThumbnailSize | src/li/zeitgeist/android/GalleryActivity.java:290-307 | a setting of 0 or less means 120; the grid is the layout of the screen for that minimum, and it fits when that minimum is between 10 and the screen width |
| GridLayout.Gallery.constructor | src/li/zeitgeist/android/Gallery.java:66-86 | the grid is laid out for a 130-pixel minimum, fits any screen at least that wide, and the scroll threshold follows the columns |
| GridLayout.Gallery.OnScroll | src/li/zeitgeist/android/Gallery.java:147-158 | an older-items query is made exactly when nothing is loading and fewer items than the threshold remain below the view; at most one query is outstanding |
| GridLayout.Gallery.OnNewItems | src/li/zeitgeist/android/Gallery.java:124-138 | a page arriving ends loading |
| SampleSizes.SampleSize | src/li/zeitgeist/android/CreateItemActivity.java:241-246 | the scale is the smallest power of two at which halving again would drop a side below 120; both sides stay at least 120 when it exceeds 1; a side under 240 gives 1 |
| SampleSizes.SideAfterDoubling | src/li/zeitgeist/android/CreateItemActivity.java:244-246 | the loop's halved side equals the side divided by the doubled scale, so doubling keeps it at least 120 |

## Left out

- **Threads and races.** The worker threads, the thread pools and `synchronized` are not modelled. Tasks run one at a time, in posting order, so no interleaving is modelled. This covers the check-then-set race on the listener registry in `provider/ThumbnailProvider.java:164-165`.
- **Start, stop and getters.** `stopThread`, `stopThreadPool` and `onError` are not modelled, nor are the getters `isLoading`, `isLockedQuery`, `isHiddenImages`, `isHiddenVideos`, `getFilterVideos` and `getFilterImages`, which only read a field.
- **The item disk snapshot.** The snapshot is serialised and read by Java object streams (`loadItemDiskCache`, `saveItemDiskCache`). It becomes the constructor's `snapshot` parameter: what was read back, or nothing.
- **Bitmaps.** Pixels, `recycle`, the canvas and JPEG encoding are not modelled. A bitmap is its size, configuration and a symbolic picture. A JPEG file is the bitmap it encodes, at quality 90.
- **File names.** The file name uses `String.valueOf(id)`. The model spells ids with ASCII digits; locale-specific digits are not modelled.
- **The library LRU cache.** `LruCache` is modelled by what the thumbnail code relies on: budget, access order, eviction from the eldest end, and a per-entry size. Its hit and miss statistics, `entryRemoved` and `create` hooks, and `null` checks are not modelled; `put` of a null value is a thrown exception in the lookups.
- **The thumb loader's listener map.** `ThumbLoader` declares `runningListeners` (line 52) but never assigns it, so its first use would throw a null-pointer exception. The model starts it as an empty map.
- **The provider's base URL.** `ZeitgeistApp.BASE_URL` is not part of this model. The earlier thumbnail provider takes its base URL as a constructor parameter.
- **Gallery leftovers.** `Gallery.thumbMaxWidth` is never read. The gallery's adapter keeps its `loading` flag; the model folds that flag into the `Gallery` class. `Gallery.OnNewItems` models the UI-thread post as running at once.
- **Listeners.** Listener callbacks posted to the UI thread are entries of an event log, appended when the post happens.
- **Null elements.** `Utils.join` turns a null element into `"null"`; the model has no null strings.
- **Integer width.** 32-bit `int` overflow is not modelled. Ids, sizes and widths are unbounded integers, and the grid and sample-size arithmetic keeps the source's truncating division.
- **Upload and UI code.** The upload progress (a float) and the rest of `CreateItemActivity` are not modelled. Neither is the UI glue of the activities: views, dialogs, menus and service binding.
- GridLayout.GalleryActivity.UpdateThumbnailSize: the grid is promised to fit only for a minimum width of at least 10, because the settings accept any value from 0 to 200 and smaller values overflow the screen. `GridLayout.SmallSettingOverflows` shows this.
- GridLayout.GalleryActivity.UpdateThumbnailSize: the method requires the effective minimum width to give at least one column. In the source a minimum above the screen width makes `numColumns` 0 and throws an `ArithmeticException` on the division.
- GridLayout.Gallery.constructor: the method requires at least one column for the same reason.
- ItemWorkers.ItemWorker.RunUpdateTags: the method requires that a successful reply of the feed API to `update(id, tags)` carries the requested id. The source stores the reply under `id` without checking, and the model does not cover a reply for another item: the cache would then hold an item under a key other than its own id.
- GridLayout.Gallery.OnScroll: the older-items query is counted, not tied to `ItemWorkers.ItemWorker.QueryOlderItems`. `Gallery.java` is written against an earlier item worker (`new ItemWorker(ZeitgeistApi)` and `setNewItemsListener`) that `worker/ItemWorker.java` no longer provides.

### Where the code and its description differ

- **One listener per id.** The thumb loader and the earlier thumbnail provider keep one listener per id; the last registration wins. An earlier caller for the same id never hears of the result.
- **Errors in the earlier item provider.** After an error, the earlier item provider leaves `loading` on and tells no listener.
- **A task that throws.** In the thumb loader, an id whose task threw stays registered, so no new task is ever submitted for it. The same holds for an id whose task completed.
- **Tag updates keep the index.** `updateItemTags` replaces the cached item but never rebuilds the position index. With a tag filter set, an item whose filtering tag was removed stays in the index until the next rebuild, so the index is then no longer exactly the visible items.
- **Crashes on early or empty calls.** Several calls throw instead of doing nothing. `queryOlderItems` and `queryNewerItems` throw on an empty cache because their size guard `size() >= 0` is always true. The earlier item provider's `queryItems` and the thumb worker's `queueThumb` post through a handler that is null until the thread runs. The gallery never starts its thumb worker, so its first memory miss throws. The model returns these as a `thrown` result.
