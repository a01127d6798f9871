/**
 * Thumbnail resolution through the three tiers: the memory cache, the disk
 * cache (files `thumb_<id>.jpg`), and the web. These functions give the outcome
 * of one lookup; the loader classes are proved to perform exactly these steps.
 */
module ThumbTiers {
  import opened Wrappers
  import opened Items
  import opened Bitmaps
  import opened LruCaches
  import opened ThumbFiles

  /** The memory tier and the thumbnail files of one loader's disk cache directory. */
  datatype Tiers = Tiers(mem: Lru, disk: map<string, DiskFile>)

  /**
   * How one lookup ended: the bitmap it produced, whether it ran to the end
   * (`completed` is false when a null bitmap made it throw), the tiers afterwards,
   * and the URL it downloaded, if it went to the web.
   */
  datatype Outcome = Outcome(bitmap: Option<Bitmap>, completed: bool, tiers: Tiers, fetched: Option<string>)

  /** The video overlay is drawn over video thumbnails when the loader has one. */
  function Overlaid(bitmap: Bitmap, item: Item, overlay: Option<Bitmap>): Bitmap {
    if item.itemType == Video && overlay.Some? then DrawBitmapOverlay(bitmap, overlay.value) else bitmap
  }

  /**
   * `getBitmapByItem`: null for an item without an image; the memory entry on a
   * hit; else the decoded disk file; else the download from `baseUrl` + thumbnail
   * path (`web` is what it yields), written to disk unchanged. A disk or web
   * bitmap gets the overlay (videos only) and is then put in memory. A disk file
   * that does not decode makes the overlay or the memory put throw.
   */
  function ResolveItem(t: Tiers, item: Item, overlay: Option<Bitmap>, baseUrl: string, web: Option<Bitmap>): Outcome {
    if item.image.None? then Outcome(None, true, t, None)
    else
      var (hit, mem) := Get(t.mem, item.id);
      if hit.Some? then Outcome(hit, true, Tiers(mem, t.disk), None)
      else
        var name := FileName(item.id);
        if name in t.disk then
          match Decode(t.disk[name])
          case None => Outcome(None, false, t, None)
          case Some(decoded) =>
            var bitmap := Overlaid(decoded, item, overlay);
            Outcome(Some(bitmap), true, Tiers(Put(mem, item.id, bitmap, 1), t.disk), None)
        else
          var url := baseUrl + item.image.value.thumbnail;
          match web
          case None => Outcome(None, true, t, Some(url))
          case Some(downloaded) =>
            var bitmap := Overlaid(downloaded, item, overlay);
            Outcome(Some(bitmap), true, Tiers(Put(mem, item.id, bitmap, 1), t.disk[name := Compress(downloaded)]), Some(url))
  }

  /**
   * `loadThumb` of the thumb loader: as `ResolveItem` without overlay, except that
   * an item without an image returns before any listener runs, the thumbnail path
   * is the whole URL, and a null download still gets its file created (empty)
   * before the memory put of null throws.
   */
  function ResolveLoader(t: Tiers, item: Item, web: Option<Bitmap>): Outcome {
    if item.image.None? then Outcome(None, false, t, None)
    else
      var (hit, mem) := Get(t.mem, item.id);
      if hit.Some? then Outcome(hit, true, Tiers(mem, t.disk), None)
      else
        var name := FileName(item.id);
        if name in t.disk then
          match Decode(t.disk[name])
          case None => Outcome(None, false, t, None)
          case Some(decoded) => Outcome(Some(decoded), true, Tiers(Put(mem, item.id, decoded, decoded.ByteCount()), t.disk), None)
        else
          var url := item.image.value.thumbnail;
          match web
          case None => Outcome(None, false, Tiers(mem, t.disk[name := Empty]), Some(url))
          case Some(downloaded) =>
            Outcome(Some(downloaded), true, Tiers(Put(mem, item.id, downloaded, downloaded.ByteCount()), t.disk[name := Compress(downloaded)]), Some(url))
  }

  /**
   * The task the thumb worker posts on a memory miss: decode the file if it
   * exists, else download `url` and create the file (left empty for a null
   * download); then put the result in memory, which throws for null.
   */
  function ResolveById(t: Tiers, id: Id, url: string, web: Option<Bitmap>): Outcome {
    var name := FileName(id);
    var (bitmap, disk, fetched) :=
      if name in t.disk then (Decode(t.disk[name]), t.disk, None)
      else (web, t.disk[name := if web.Some? then Compress(web.value) else Empty], Some(url));
    match bitmap
    case None => Outcome(None, false, Tiers(t.mem, disk), fetched)
    case Some(b) => Outcome(Some(b), true, Tiers(Put(t.mem, id, b, 1), disk), fetched)
  }

  /** An item without an image yields null and touches no tier. */
  lemma ResolveItemNoImage(t: Tiers, item: Item, overlay: Option<Bitmap>, baseUrl: string, web: Option<Bitmap>)
    requires item.image.None?
    ensures ResolveItem(t, item, overlay, baseUrl, web) == Outcome(None, true, t, None)
  {
  }

  /**
   * A memory hit returns the stored bitmap as it is: no disk read or write, no
   * download, no overlay, and the memory holds the same entries.
   */
  lemma ResolveItemMemoryHit(t: Tiers, item: Item, overlay: Option<Bitmap>, baseUrl: string, web: Option<Bitmap>)
    requires Valid(t.mem) && item.image.Some? && Cached(t.mem, item.id).Some?
    ensures var r := ResolveItem(t, item, overlay, baseUrl, web);
      && r.bitmap == Cached(t.mem, item.id) && r.completed && r.fetched == None
      && r.tiers.disk == t.disk && Valid(r.tiers.mem)
      && forall k :: Cached(r.tiers.mem, k) == Cached(t.mem, k)
  {
    GetValid(t.mem, item.id);
  }

  /**
   * A memory miss with a thumbnail file decodes that file: no download and no disk
   * write. It completes exactly when the file decodes, and then memory holds the
   * (overlaid) result it returns.
   */
  lemma ResolveItemDiskHit(t: Tiers, item: Item, overlay: Option<Bitmap>, baseUrl: string, web: Option<Bitmap>)
    requires Valid(t.mem) && t.mem.maxSize >= 1
    requires item.image.Some? && Cached(t.mem, item.id).None? && FileName(item.id) in t.disk
    ensures var r := ResolveItem(t, item, overlay, baseUrl, web);
      && r.fetched == None && r.tiers.disk == t.disk && Valid(r.tiers.mem)
      && r.completed == Decode(t.disk[FileName(item.id)]).Some?
      && (r.completed ==> r.bitmap == Some(Overlaid(Decode(t.disk[FileName(item.id)]).value, item, overlay)))
      && (r.completed ==> Cached(r.tiers.mem, item.id) == r.bitmap)
      && (!r.completed ==> r.tiers == t)
  {
    var decoded := Decode(t.disk[FileName(item.id)]);
    assert Get(t.mem, item.id) == (None, t.mem);
    if decoded.Some? {
      var bitmap := Overlaid(decoded.value, item, overlay);
      PutSpec(t.mem, item.id, bitmap, 1);
      assert ResolveItem(t, item, overlay, baseUrl, web) == Outcome(Some(bitmap), true, Tiers(Put(t.mem, item.id, bitmap, 1), t.disk), None);
    }
  }

  /** A memory and disk miss whose download fails yields null, writes no tier, and fetched the item's URL. */
  lemma ResolveItemWebMiss(t: Tiers, item: Item, overlay: Option<Bitmap>, baseUrl: string)
    requires item.image.Some? && Cached(t.mem, item.id).None? && FileName(item.id) !in t.disk
    ensures ResolveItem(t, item, overlay, baseUrl, None) ==
      Outcome(None, true, t, Some(baseUrl + item.image.value.thumbnail))
  {
  }

  /**
   * A download is written to disk as it came, before the overlay: the file holds
   * the plain bitmap as a quality-90 JPEG, while memory holds, and the lookup
   * returns, the overlaid one. Nothing else on disk changes.
   */
  lemma ResolveItemWebHit(t: Tiers, item: Item, overlay: Option<Bitmap>, baseUrl: string, downloaded: Bitmap)
    requires Valid(t.mem) && t.mem.maxSize >= 1
    requires item.image.Some? && Cached(t.mem, item.id).None? && FileName(item.id) !in t.disk
    ensures var r := ResolveItem(t, item, overlay, baseUrl, Some(downloaded));
      && r.completed && r.fetched == Some(baseUrl + item.image.value.thumbnail)
      && r.tiers.disk == t.disk[FileName(item.id) := Jpeg(downloaded, 90)]
      && r.bitmap == Some(Overlaid(downloaded, item, overlay))
      && Cached(r.tiers.mem, item.id) == r.bitmap
      && Valid(r.tiers.mem)
      && (item.itemType == Video && overlay.Some? ==> r.bitmap != Some(downloaded))
  {
    PutSpec(t.mem, item.id, Overlaid(downloaded, item, overlay), 1);
  }

  /**
   * Caching is transparent: once a lookup produced a bitmap, the next lookup of
   * the same item serves that same bitmap from memory, without disk or web.
   */
  lemma ResolveItemTwice(t: Tiers, item: Item, overlay: Option<Bitmap>, baseUrl: string, web: Option<Bitmap>, laterWeb: Option<Bitmap>)
    requires Valid(t.mem) && t.mem.maxSize >= 1
    requires ResolveItem(t, item, overlay, baseUrl, web).bitmap.Some?
    ensures var first := ResolveItem(t, item, overlay, baseUrl, web);
      var second := ResolveItem(first.tiers, item, overlay, baseUrl, laterWeb);
      second.bitmap == first.bitmap && second.fetched == None && second.tiers.disk == first.tiers.disk
  {
    var first := ResolveItem(t, item, overlay, baseUrl, web);
    if Cached(t.mem, item.id).Some? {
      ResolveItemMemoryHit(t, item, overlay, baseUrl, web);
    } else if FileName(item.id) in t.disk {
      ResolveItemDiskHit(t, item, overlay, baseUrl, web);
    } else {
      ResolveItemWebHit(t, item, overlay, baseUrl, web.value);
    }
  }

  /**
   * The thumb loader writes the tiers only for its own item: on every path the
   * memory holds nothing new under other ids and the only file that may change is
   * the item's own.
   */
  lemma ResolveLoaderFrame(t: Tiers, item: Item, web: Option<Bitmap>)
    requires Valid(t.mem)
    ensures var r := ResolveLoader(t, item, web);
      && Valid(r.tiers.mem)
      && (forall name :: name != FileName(item.id) ==> (name in r.tiers.disk <==> name in t.disk))
      && (forall name :: name != FileName(item.id) && name in t.disk ==> r.tiers.disk[name] == t.disk[name])
      && (forall k :: k != item.id ==> Cached(r.tiers.mem, k) == None || Cached(r.tiers.mem, k) == Cached(t.mem, k))
  {
    var r := ResolveLoader(t, item, web);
    if item.image.None? {
      assert r.tiers == t;
      return;
    }
    GetValid(t.mem, item.id);
    var (hit, mem) := Get(t.mem, item.id);
    var name := FileName(item.id);
    if hit.Some? {
      assert r.tiers == Tiers(mem, t.disk);
      return;
    }
    assert mem == t.mem;
    if name in t.disk {
      var decoded := Decode(t.disk[name]);
      if decoded.Some? {
        PutSpec(mem, item.id, decoded.value, decoded.value.ByteCount());
        assert r.tiers == Tiers(Put(mem, item.id, decoded.value, decoded.value.ByteCount()), t.disk);
      } else {
        assert r.tiers == t;
      }
    } else if web.Some? {
      PutSpec(mem, item.id, web.value, web.value.ByteCount());
      assert r.tiers == Tiers(Put(mem, item.id, web.value, web.value.ByteCount()), t.disk[name := Compress(web.value)]);
    } else {
      assert r.tiers == Tiers(mem, t.disk[name := Empty]);
    }
  }

  /**
   * A failed download in the thumb loader leaves an empty thumbnail file behind and
   * throws before memory or any listener is reached; from then on every lookup of
   * that item finds the file, fails to decode it and throws again.
   */
  lemma ResolveLoaderPoisoned(t: Tiers, item: Item, web: Option<Bitmap>)
    requires item.image.Some? && Cached(t.mem, item.id).None? && FileName(item.id) !in t.disk
    ensures var first := ResolveLoader(t, item, None);
      && !first.completed && first.tiers.disk == t.disk[FileName(item.id) := Empty]
      && first.tiers.mem == t.mem
      && var again := ResolveLoader(first.tiers, item, web);
         !again.completed && again.fetched == None && again.tiers == first.tiers
  {
  }

  /**
   * The same holds for the thumb worker's task: a failed download leaves an empty
   * file and every later task for the id fails on it without downloading.
   */
  lemma ResolveByIdPoisoned(t: Tiers, id: Id, url: string, laterUrl: string, web: Option<Bitmap>)
    requires FileName(id) !in t.disk
    ensures var first := ResolveById(t, id, url, None);
      && !first.completed && first.fetched == Some(url) && first.tiers.disk == t.disk[FileName(id) := Empty]
      && var again := ResolveById(first.tiers, id, laterUrl, web);
         !again.completed && again.fetched == None && again.tiers == first.tiers
  {
  }

  /**
   * A successful task of the thumb worker leaves its result in memory (when it
   * fits the budget) and, after a download, the plain JPEG of it on disk.
   */
  lemma ResolveByIdStores(t: Tiers, id: Id, url: string, web: Option<Bitmap>)
    requires Valid(t.mem)
    ensures var r := ResolveById(t, id, url, web);
      && Valid(r.tiers.mem)
      && (r.completed <==> r.bitmap.Some?)
      && (r.completed && t.mem.maxSize >= 1 ==> Cached(r.tiers.mem, id) == r.bitmap)
      && (r.fetched.Some? ==> FileName(id) !in t.disk && r.tiers.disk == t.disk[FileName(id) := if web.Some? then Jpeg(web.value, 90) else Empty])
      && (r.fetched.None? ==> r.tiers.disk == t.disk)
  {
    var r := ResolveById(t, id, url, web);
    if r.completed {
      PutSpec(t.mem, id, r.bitmap.value, 1);
    }
  }
}
