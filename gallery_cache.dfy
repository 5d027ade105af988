/**
 * The photo-gallery loader that the D4PG home page, the STEAM page and the
 * Glitch Lab page each carry a copy of: a one-hour localStorage cache of
 * the image list, a proxy page whose `.gallery img` elements are scraped
 * for absolute URLs with their query strings cut off, and a fixed fallback
 * list when the cache misses and the scrape yields nothing.
 *
 * localStorage is the value `Store` holding the page's two entries, the
 * proxy response is a parameter, and `Date.now()` is the parameter `now`.
 */
module GalleryCache {
  import opened Wrappers
  import opened Strings

  /** `CACHE_DURATION`: one hour in milliseconds. */
  const CacheDuration: int := 60 * 60 * 1000

  /**
   * The page's two localStorage entries: the image list (stored as JSON,
   * kept here already decoded) and the timestamp text.
   */
  datatype Store = Store(images: Option<seq<string>>, timestamp: Option<string>)

  const Cleared := Store(None, None)

  /** The cached list read back, and localStorage afterwards. */
  datatype Lookup = Lookup(images: Option<seq<string>>, store: Store)

  /** Both entries are present and the timestamp text is non-empty (truthy). */
  predicate HasEntries(store: Store) {
    store.images.Some? && store.timestamp.Some? && store.timestamp.value != ""
  }

  /** `now - parseInt(ts) < CACHE_DURATION`; a NaN timestamp is never fresh. */
  predicate Fresh(ts: string, now: int) {
    ParseInt(ts).Some? && now - ParseInt(ts).value < CacheDuration
  }

  /** `setCachedImages(images)` at time `now`. */
  function SetCachedImages(store: Store, images: seq<string>, now: nat): (r: Store)
    ensures HasEntries(r) && r.images == Some(images)
  {
    Store(Some(images), Some(NatToString(now)))
  }

  /**
   * `getCachedImages()`: a hit leaves storage alone; a stale or unreadable
   * timestamp removes both entries; a missing entry changes nothing.
   */
  function GetCachedImages(store: Store, now: int): (r: Lookup)
    ensures r.images.Some? <==> HasEntries(store) && Fresh(store.timestamp.value, now)
    ensures r.images.Some? ==> r.images == store.images && r.store == store
    ensures HasEntries(store) && r.images.None? ==> r.store == Cleared
    ensures !HasEntries(store) ==> r.store == store
  {
    if !HasEntries(store) then Lookup(None, store)
    else if Fresh(store.timestamp.value, now) then Lookup(store.images, store)
    else Lookup(None, Cleared)
  }

  /** A list cached at `t` is read back unchanged for exactly one hour. */
  lemma CachedWithinHour(store: Store, images: seq<string>, t: nat, now: int)
    ensures GetCachedImages(SetCachedImages(store, images, t), now).images ==
            (if now - t < CacheDuration then Some(images) else None)
  {
    ParseIntOfNatToString(t);
  }

  /** Once a lookup misses, the entries stay gone: later lookups miss and change nothing. */
  lemma MissIsStable(store: Store, now: int, later: int)
    requires GetCachedImages(store, now).images.None?
    ensures GetCachedImages(GetCachedImages(store, now).store, later) ==
            Lookup(None, GetCachedImages(store, now).store)
  {
  }

  // ---------------------------------------------------- scraping

  /** One `.gallery img` element: its `data-src` and `src` attributes. */
  datatype Img = Img(dataSrc: Option<string>, src: Option<string>)

  /** `img.getAttribute('data-src') || img.getAttribute('src')` */
  function SourceOf(img: Img): Option<string> {
    if img.dataSrc.Some? && img.dataSrc.value != "" then img.dataSrc else img.src
  }

  /** The element is kept: its source is present and starts with 'http'. */
  predicate Kept(img: Img) {
    SourceOf(img).Some? && StartsWith(SourceOf(img).value, "http")
  }

  /** `src.split('?')[0]`: everything before the first '?'. */
  function CleanUrl(s: string): (r: string)
    ensures r <= s && '?' !in r
    ensures '?' !in s ==> r == s
  {
    var r := SplitOn(s, "?")[0];
    match IndexOf(s, "?")
    case None =>
      assert r == s;
      forall j | 0 <= j < |s| ensures s[j] != '?' {
        assert !OccursAt(s, "?", j);
        assert s[j..j + 1] == [s[j]];
      }
      r
    case Some(i) =>
      assert r == s[..i];
      forall j | 0 <= j < i ensures s[j] != '?' {
        assert !OccursAt(s, "?", j);
        assert s[j..j + 1] == [s[j]];
      }
      assert OccursAt(s, "?", i);
      assert s[i] == s[i..i + 1][0] == '?';
      r
  }

  /** Cutting the query off an 'http...' URL keeps the 'http' prefix. */
  lemma CleanUrlKeepsScheme(s: string)
    requires StartsWith(s, "http")
    ensures StartsWith(CleanUrl(s), "http")
  {
    var r := CleanUrl(s);
    if |r| < 4 {
      assert s[|r|] == "http"[|r|];
      match IndexOf(s, "?")
      case None =>
      case Some(i) =>
        assert OccursAt(s, "?", i);
        assert s[i..i + 1] == [s[i]];
        assert r == s[..i];
    }
  }

  /** The URLs `parseImagesFromHTML` collects, in document order. */
  function ImageUrls(imgs: seq<Img>): seq<string> {
    if imgs == [] then []
    else
      var last := imgs[|imgs| - 1];
      ImageUrls(imgs[..|imgs| - 1]) + (if Kept(last) then [CleanUrl(SourceOf(last).value)] else [])
  }

  /** `parseImagesFromHTML(html)`, with the parsed `.gallery img` elements given. */
  method ParseImagesFromHtml(imgs: seq<Img>) returns (urls: seq<string>)
    ensures urls == ImageUrls(imgs)
  {
    urls := [];
    var k := 0;
    while k < |imgs|
      invariant 0 <= k <= |imgs|
      invariant urls == ImageUrls(imgs[..k])
    {
      assert imgs[..k + 1][..k] == imgs[..k];
      var src := SourceOf(imgs[k]);
      if src.Some? && StartsWith(src.value, "http") {
        urls := urls + [CleanUrl(src.value)];
      }
      k := k + 1;
    }
    assert imgs[..|imgs|] == imgs;
  }

  /**
   * The scraped list is exactly the cleaned sources of the kept elements:
   * a URL is in it iff some element with an 'http' source cleans to it, and
   * every URL in it starts with 'http' and has no query string.
   */
  lemma ImageUrlsExactly(imgs: seq<Img>, u: string)
    ensures u in ImageUrls(imgs) <==>
            exists k :: 0 <= k < |imgs| && Kept(imgs[k]) && u == CleanUrl(SourceOf(imgs[k]).value)
    ensures u in ImageUrls(imgs) ==> StartsWith(u, "http") && '?' !in u
  {
    ImageUrlsMembers(imgs, u);
    if u in ImageUrls(imgs) {
      var k :| 0 <= k < |imgs| && Kept(imgs[k]) && u == CleanUrl(SourceOf(imgs[k]).value);
      CleanUrlKeepsScheme(SourceOf(imgs[k]).value);
    }
  }

  /** A URL is scraped iff some kept element cleans to it. */
  lemma {:induction false} ImageUrlsMembers(imgs: seq<Img>, u: string)
    ensures u in ImageUrls(imgs) <==>
            exists k :: 0 <= k < |imgs| && Kept(imgs[k]) && u == CleanUrl(SourceOf(imgs[k]).value)
  {
    if imgs != [] {
      var init := imgs[..|imgs| - 1];
      var last := imgs[|imgs| - 1];
      ImageUrlsMembers(init, u);
      if u in ImageUrls(init) {
        var k :| 0 <= k < |init| && Kept(init[k]) && u == CleanUrl(SourceOf(init[k]).value);
        assert imgs[k] == init[k];
      }
      if exists k :: 0 <= k < |imgs| && Kept(imgs[k]) && u == CleanUrl(SourceOf(imgs[k]).value) {
        var k :| 0 <= k < |imgs| && Kept(imgs[k]) && u == CleanUrl(SourceOf(imgs[k]).value);
        if k < |init| {
          assert init[k] == imgs[k];
        }
      }
    }
  }

  /** The scrape is empty exactly when no element has an 'http' source. */
  lemma {:induction false} ImageUrlsEmpty(imgs: seq<Img>)
    ensures ImageUrls(imgs) == [] <==> forall k :: 0 <= k < |imgs| ==> !Kept(imgs[k])
  {
    if imgs != [] {
      var init := imgs[..|imgs| - 1];
      ImageUrlsEmpty(init);
      if ImageUrls(imgs) == [] {
        forall k | 0 <= k < |imgs| ensures !Kept(imgs[k]) {
          if k < |init| { assert init[k] == imgs[k]; }
        }
      }
    }
  }

  // ---------------------------------------------------- fetching

  /** What the proxy request gave: a failure (network error or non-ok status) or the page's images. */
  datatype Response = Failed | Page(imgs: seq<Img>)

  /** The list the gallery shows, and localStorage afterwards. */
  datatype Loaded = Loaded(images: seq<string>, store: Store)

  /**
   * `fetchGalleryImages()`: a cache hit wins; otherwise a non-empty scrape
   * is cached and shown; otherwise the fallback list is shown.
   */
  function FetchGalleryImages(store: Store, now: nat, response: Response, fallback: seq<string>): (r: Loaded)
    ensures GetCachedImages(store, now).images.Some? ==>
              r == Loaded(GetCachedImages(store, now).images.value, store)
    ensures GetCachedImages(store, now).images.None? && response.Page? && ImageUrls(response.imgs) != [] ==>
              r.images == ImageUrls(response.imgs) && r.store == SetCachedImages(store, r.images, now)
    ensures GetCachedImages(store, now).images.None? && (response.Failed? || ImageUrls(response.imgs) == []) ==>
              r == Loaded(fallback, GetCachedImages(store, now).store)
  {
    var lookup := GetCachedImages(store, now);
    if lookup.images.Some? then Loaded(lookup.images.value, lookup.store)
    else if response.Page? && ImageUrls(response.imgs) != [] then
      Loaded(ImageUrls(response.imgs), SetCachedImages(lookup.store, ImageUrls(response.imgs), now))
    else Loaded(fallback, lookup.store)
  }

  /**
   * A successful scrape is served from the cache, without fetching, for
   * the next hour.
   */
  lemma FetchedThenCached(store: Store, now: nat, later: int, imgs: seq<Img>, fallback: seq<string>)
    requires GetCachedImages(store, now).images.None?
    requires ImageUrls(imgs) != []
    requires now <= later < now + CacheDuration
    ensures GetCachedImages(FetchGalleryImages(store, now, Page(imgs), fallback).store, later).images ==
            Some(ImageUrls(imgs))
  {
    CachedWithinHour(store, ImageUrls(imgs), now, later);
  }

  // ---------------------------------------------------- the drawer

  /** The gallery drawer, its image modal, and the load-once flag. */
  class GalleryDrawer {
    var drawerOpen: bool
    var imageModalOpen: bool
    var galleryLoaded: bool
    var loading: bool
    var images: seq<string>
    var store: Store

    constructor (store: Store)
      ensures !drawerOpen && !imageModalOpen && !galleryLoaded && !loading
      ensures images == [] && this.store == store
    {
      drawerOpen, imageModalOpen, galleryLoaded, loading := false, false, false, false;
      images := [];
      this.store := store;
    }

    /**
     * `openGallery()`: open the drawer and, the first time only, load the
     * images (cache, proxy scrape, or fallback list).
     */
    method OpenGallery(now: nat, response: Response, fallback: seq<string>)
      modifies this
      ensures drawerOpen && imageModalOpen == old(imageModalOpen) && galleryLoaded == old(galleryLoaded)
      ensures old(galleryLoaded) ==> images == old(images) && store == old(store) && loading == old(loading)
      ensures !old(galleryLoaded) ==>
                var r := FetchGalleryImages(old(store), now, response, fallback);
                images == old(images) + r.images && store == r.store && loading
    {
      drawerOpen := true;
      if !galleryLoaded {
        loading := true;
        var r := FetchGalleryImages(store, now, response, fallback);
        images := images + r.images;
        store := r.store;
      }
    }

    /** The 800 ms timer after a load: hide the spinner, mark the gallery loaded. */
    method LoadingDone()
      modifies this`loading, this`galleryLoaded
      ensures !loading && galleryLoaded
    {
      loading := false;
      galleryLoaded := true;
    }

    method CloseGallery()
      modifies this`drawerOpen
      ensures !drawerOpen
    {
      drawerOpen := false;
    }

    method OpenImageModal()
      modifies this`imageModalOpen
      ensures imageModalOpen
    {
      imageModalOpen := true;
    }

    method CloseImageModal()
      modifies this`imageModalOpen
      ensures !imageModalOpen
    {
      imageModalOpen := false;
    }

    /** Escape closes the image modal if it is open, otherwise the drawer. */
    method EscapePressed()
      modifies this`imageModalOpen, this`drawerOpen
      ensures old(imageModalOpen) ==> !imageModalOpen && drawerOpen == old(drawerOpen)
      ensures !old(imageModalOpen) ==> !imageModalOpen && !drawerOpen
    {
      if imageModalOpen {
        CloseImageModal();
      } else if drawerOpen {
        CloseGallery();
      }
    }
  }
}
