/**
 * notice-coalition/notice-home/js/data-fetcher.js: the feed selection, the
 * newsletter filter, and the resources list cached in `localStorage`.
 *
 * What `fetch` answers is a parameter; the clock is the parameter `now`
 * (epoch milliseconds); the `localStorage` entry is the field `cache` of
 * `ResourceStore`.
 */
module DataFetcher {
  import opened Wrappers
  import opened Strings
  import opened Selection

  // ----------------------------------------------------------------- feed

  /** One entry of the processed feed; a missing `feed_name` is `None`. */
  datatype FeedItem = FeedItem(feedName: Option<string>, title: string, link: string)

  /**
   * `fetchFeedData()`. The response is the feed's `items` array, `None`
   * when the request, the JSON or the `items` field fails; a null entry is
   * `None`. It keeps the entries at positions 0, 1, 2, 4, 6 and 8 that
   * exist and are not null.
   */
  function FetchFeedData(response: Option<seq<Option<FeedItem>>>): (r: seq<FeedItem>)
    ensures |r| <= 6
    ensures response.None? ==> r == []
  {
    match response
    case None => []
    case Some(items) =>
      MapThenPresent(items, HomeIndices);
      Present(Present(MapIndices(items, HomeIndices)))
  }

  /**
   * The feed shows at most six entries: those at the chosen positions that
   * exist and are not null, in position order; a failure shows none.
   */
  lemma FeedSelection(items: seq<Option<FeedItem>>)
    ensures FetchFeedData(Some(items)) == Present(PickExisting(items, HomeIndices))
  {
    MapThenPresent(items, HomeIndices);
  }

  /** With nine or more entries and no nulls, exactly the six chosen ones. */
  lemma FeedOfLongList(items: seq<Option<FeedItem>>)
    requires |items| >= 9 && forall i :: 0 <= i < |items| ==> items[i].Some?
    ensures FetchFeedData(Some(items)) ==
            [items[0].value, items[1].value, items[2].value, items[4].value, items[6].value, items[8].value]
  {
    FeedSelection(items);
    HomePick(items);
    var six := [items[0], items[1], items[2], items[4], items[6], items[8]];
    assert Present(six) == Present(six[..5]) + [items[8].value];
    assert six[..5][..4] == six[..4] && six[..4][..3] == six[..3] && six[..3][..2] == six[..2];
    assert Present(six[..5]) == Present(six[..4]) + [items[6].value];
    assert Present(six[..4]) == Present(six[..3]) + [items[4].value];
    assert Present(six[..3]) == Present(six[..2]) + [items[2].value];
    assert Present(six[..2]) == Present(six[..1]) + [items[1].value];
    assert Present(six[..1]) == Present(six[..0]) + [items[0].value];
  }

  const Substack: string := "Substack"

  /**
   * `items.filter(item => item.feed_name.includes('Substack'))`. A null
   * entry or one without `feed_name` throws, here `None`.
   */
  function SubstackFilter(items: seq<Option<FeedItem>>): (r: Option<seq<FeedItem>>)
    ensures r.None? <==> exists i :: 0 <= i < |items| && (items[i].None? || items[i].value.feedName.None?)
    ensures r.Some? ==> |r.value| <= |items|
    ensures r.Some? ==> forall j :: 0 <= j < |r.value| ==>
              Some(r.value[j]) in items && r.value[j].feedName.Some? && Includes(r.value[j].feedName.value, Substack)
  {
    if items == [] then Some([])
    else if items[0].None? || items[0].value.feedName.None? then None
    else
      var rest := SubstackFilter(items[1..]);
      if rest.None? then
        assert exists i :: 0 <= i < |items| && (items[i].None? || items[i].value.feedName.None?) by {
          var i :| 0 <= i < |items[1..]| && (items[1..][i].None? || items[1..][i].value.feedName.None?);
          assert items[i + 1] == items[1..][i];
        }
        None
      else
        var item := items[0].value;
        assert forall j :: 0 <= j < |rest.value| ==> Some(rest.value[j]) in items by {
          forall j | 0 <= j < |rest.value| ensures Some(rest.value[j]) in items {
            assert Some(rest.value[j]) in items[1..];
          }
        }
        Some((if Includes(item.feedName.value, Substack) then [item] else []) + rest.value)
  }

  /** Every well-formed entry whose source names Substack passes the filter. */
  lemma {:induction false} SubstackFilterKeeps(items: seq<Option<FeedItem>>, i: nat)
    requires SubstackFilter(items).Some? && i < |items|
    requires items[i].Some? && Includes(items[i].value.feedName.value, Substack)
    ensures items[i].value in SubstackFilter(items).value
  {
    if i > 0 {
      assert items[1..][i - 1] == items[i];
      SubstackFilterKeeps(items[1..], i - 1);
    }
  }

  /**
   * `fetchNewsletterData()`: the start of the Substack filter, three long
   * or as long as the filter, so every entry names Substack; a failed
   * request, a null entry or a missing `feed_name` anywhere gives [].
   */
  function FetchNewsletterData(response: Option<seq<Option<FeedItem>>>): (r: seq<FeedItem>)
    ensures |r| <= 3
    ensures response.Some? ==> forall j :: 0 <= j < |r| ==>
              Some(r[j]) in response.value && r[j].feedName.Some? && Includes(r[j].feedName.value, Substack)
    ensures response.Some? && SubstackFilter(response.value).Some? ==>
              var f := SubstackFilter(response.value).value;
              r <= f && |r| == (if |f| < 3 then |f| else 3)
    ensures response.None? || SubstackFilter(response.value).None? ==> r == []
  {
    if response.None? then []
    else
      match SubstackFilter(response.value)
      case None => []
      case Some(f) =>
        if |f| <= 3 then f
        else
          assert forall j :: 0 <= j < 3 ==> f[..3][j] == f[j];
          f[..3]
  }

  // ------------------------------------------------------------ resources

  /**
   * One entry of the resources list. `date` is the parsed time in epoch
   * milliseconds (`None` when it does not parse); an empty string stands
   * for a missing `videoUrl` or `tooltip`, as both are read with `||`.
   */
  datatype Resource = Resource(
    title: string, kind: string, date: Option<int>, image: string,
    downloadUrl: string, videoUrl: string, tooltip: string)

  /**
   * The JSON `response.json()` reads: a list of resources, or any other
   * JSON value (an object, a string, a number), kept as its text.
   */
  datatype Json = ResourceList(resources: seq<Resource>) | OtherJson(text: string)

  /** What `localStorage` keeps under `noticeResourcesCache`: the time and whatever JSON arrived. */
  datatype CacheEntry = CacheEntry(timestamp: int, resources: Json)

  /**
   * What the resources request yields: a rejected fetch, or a status and
   * the body's JSON (`None`: the body does not parse, so `json()` rejects).
   */
  datatype Response = NetworkError | Reply(ok: bool, body: Option<Json>)

  /** `CACHE_DURATION` as the file writes it: 60 * 60 * 10, the `* 1000` commented out. */
  const CacheDurationAsWritten: int := 60 * 60 * 10

  /** One hour in milliseconds, as the comment beside it says. */
  const CacheDuration: int := 60 * 60 * 1000

  /**
   * The JSON the request delivers, `None` where `fetchResourcesFromAPI`
   * throws: a rejected fetch, a status that is not ok, or a body that does
   * not parse. Any JSON that parses is delivered, list or not.
   */
  function Delivered(response: Response): (r: Option<Json>)
    ensures r.Some? <==> response.Reply? && response.ok && response.body.Some?
    ensures r.Some? ==> Some(r.value) == response.body
  {
    if response.Reply? && response.ok then response.body else None
  }

  /** `fetchResourcesFromAPI()`: what it returns (`None`: it throws) and the cache after. */
  function FetchFromApi(response: Response, now: int, cache: Option<CacheEntry>): (r: (Option<Json>, Option<CacheEntry>))
    ensures r.0 == Delivered(response)
    ensures r.0.Some? ==> r.1 == Some(CacheEntry(now, r.0.value))
    ensures r.0.None? ==> r.1 == cache
  {
    match Delivered(response)
    case Some(data) => (Some(data), Some(CacheEntry(now, data)))
    case None => (None, cache)
  }

  /**
   * An ok reply whose body parses but is not a list is returned and cached
   * like a list: from then on the cache serves that value.
   */
  lemma NonListBodyCached(text: string, now: int, cache: Option<CacheEntry>)
    ensures var (r, c) := FetchFromApi(Reply(true, Some(OtherJson(text))), now, cache);
            r == Some(OtherJson(text)) && c == Some(CacheEntry(now, OtherJson(text)))
  {
  }

  /** The cache is younger than `ttl`. */
  predicate Fresh(cache: Option<CacheEntry>, now: int, ttl: int) {
    cache.Some? && now - cache.value.timestamp < ttl
  }

  /**
   * `getResources(refresh)` with cache duration `ttl`: the list returned
   * (`None`: it throws) and the cache after.
   */
  function GetResourcesWith(ttl: int, refresh: bool, cache: Option<CacheEntry>, now: int, response: Response): (r: (Option<Json>, Option<CacheEntry>))
    ensures r.0.Some? ==> r.1.Some? && r.1.value.resources == r.0.value
    ensures r.0.None? ==> r.1 == cache
    ensures r.1 != cache ==> r.0.Some? && r.1 == Some(CacheEntry(now, r.0.value))
  {
    if !refresh && Fresh(cache, now, ttl) then (Some(cache.value.resources), cache)
    else FetchFromApi(response, now, cache)
  }

  /**
   * The decision: the cached list comes back untouched exactly when no
   * refresh is asked for and the cache is younger than `ttl`; in every
   * other case the request decides, and only a delivered list rewrites
   * the cache.
   */
  lemma GetResourcesCases(ttl: int, refresh: bool, cache: Option<CacheEntry>, now: int, response: Response)
    ensures var (r, c) := GetResourcesWith(ttl, refresh, cache, now, response);
            (!refresh && Fresh(cache, now, ttl) ==> r == Some(cache.value.resources) && c == cache) &&
            (refresh || !Fresh(cache, now, ttl) ==>
               r == Delivered(response) &&
               c == (if r.Some? then Some(CacheEntry(now, r.value)) else cache))
  {
  }

  /**
   * A delivered list is served from the cache, whatever the network then
   * does, for `ttl` milliseconds after it was fetched.
   */
  lemma FetchThenServe(ttl: int, response: Response, t: int, cache: Option<CacheEntry>, now: int, later: Response)
    requires Delivered(response).Some? && t <= now < t + ttl
    ensures var c := FetchFromApi(response, t, cache).1;
            GetResourcesWith(ttl, false, c, now, later) == (Delivered(response), c)
  {
  }

  /** A failed request throws and leaves the cache as it was. */
  lemma FailedFetchKeepsCache(ttl: int, refresh: bool, cache: Option<CacheEntry>, now: int, response: Response)
    requires Delivered(response).None?
    requires refresh || !Fresh(cache, now, ttl)
    ensures GetResourcesWith(ttl, refresh, cache, now, response) == (None, cache)
  {
  }

  /** After `clearResourcesCache()` the next `getResources()` goes to the network. */
  lemma ClearThenFetch(ttl: int, refresh: bool, now: int, response: Response)
    ensures GetResourcesWith(ttl, refresh, None, now, response).0 == Delivered(response)
  {
  }

  /** As written, a list fetched 36 seconds ago is already fetched again. */
  lemma CacheExpiresAfter36Seconds(resources: Json, t: int, response: Response)
    ensures GetResourcesWith(CacheDurationAsWritten, false, Some(CacheEntry(t, resources)), t + 36000, response) ==
            FetchFromApi(response, t + 36000, Some(CacheEntry(t, resources)))
  {
  }

  /** With one hour, a list fetched under an hour ago is served from the cache. */
  lemma CacheServesForAnHour(resources: Json, t: int, now: int, response: Response)
    requires t <= now < t + 3600000
    ensures GetResourcesWith(CacheDuration, false, Some(CacheEntry(t, resources)), now, response) ==
            (Some(resources), Some(CacheEntry(t, resources)))
  {
  }

  /** The `localStorage` entry the resources functions share. */
  class ResourceStore {
    var cache: Option<CacheEntry>

    constructor (cache: Option<CacheEntry>)
      ensures this.cache == cache
    {
      this.cache := cache;
    }

    /**
     * `fetchResourcesFromAPI()`: a rejected request, a non-ok status or a
     * body that does not parse throws before anything is written; any JSON
     * that parses is stored with the time and returned.
     */
    method FetchResourcesFromApi(response: Response, now: int) returns (r: Option<Json>)
      modifies this
      ensures (r, cache) == FetchFromApi(response, now, old(cache))
    {
      if response.NetworkError? || !response.ok {
        return None;
      }
      if response.body.None? {
        return None;
      }
      var data := response.body.value;
      cache := Some(CacheEntry(now, data));
      return Some(data);
    }

    /** `getResources` with the cache kept for `ttl` milliseconds. */
    method GetResourcesFor(ttl: int, refresh: bool, now: int, response: Response) returns (r: Option<Json>)
      modifies this
      ensures (r, cache) == GetResourcesWith(ttl, refresh, old(cache), now, response)
    {
      if refresh {
        r := FetchResourcesFromApi(response, now);
        return;
      }
      if cache.Some? {
        if now - cache.value.timestamp < ttl {
          return Some(cache.value.resources);
        }
      }
      r := FetchResourcesFromApi(response, now);
    }

    /** `getResources(refreshResources)` as written: the cache is kept for 36000 ms. */
    method GetResources(refresh: bool, now: int, response: Response) returns (r: Option<Json>)
      modifies this
      ensures (r, cache) == GetResourcesWith(CacheDurationAsWritten, refresh, old(cache), now, response)
    {
      r := GetResourcesFor(CacheDurationAsWritten, refresh, now, response);
    }

    /** `getResources(refreshResources)` with the one-hour cache its comment intends. */
    method GetResourcesHourly(refresh: bool, now: int, response: Response) returns (r: Option<Json>)
      modifies this
      ensures (r, cache) == GetResourcesWith(CacheDuration, refresh, old(cache), now, response)
    {
      r := GetResourcesFor(CacheDuration, refresh, now, response);
    }

    /** `clearResourcesCache()` */
    method ClearResourcesCache()
      modifies this
      ensures cache == None
    {
      cache := None;
    }
  }
}
