/**
 * notice-coalition/notice-home/js/ui-handler.js: the resources nav marker,
 * the Substack popup gated by the per-day counter, the debug panel, and
 * the resource cards of the home page.
 *
 * The page state those functions write (the nav link's class, the popup's
 * display, the body's scroll lock, the debug panel, the cards of the
 * resources grid) is the fields of `HomePage`; the cookie counter is the
 * `CookieJar` it holds.
 */
module UiHandler {
  import opened Wrappers
  import opened Selection
  import opened NoticeUtils
  import opened DataFetcher

  // ---------------------------------------------------------------- popup

  /** Popup shows per calendar day. */
  const DailyPopupLimit: nat := 3

  /**
   * `showPopup(popup, popupShown)`: the value returned (`None` is the bare
   * `return` of a popup already shown this session) and the cookie jar
   * after. The popup shows, and the counter goes up, when the day's count
   * is below three; a NaN count never shows it.
   */
  function PopupDecision(popupShown: bool, today: Date, jar: seq<Cookie>): (r: (Option<bool>, seq<Cookie>))
    ensures r.0.None? <==> popupShown
    ensures popupShown ==> r.1 == jar
    ensures !popupShown ==>
              var count := PopupCount(today, jar).0;
              r.0 == Some(count.Some? && count.value < DailyPopupLimit)
    ensures r.0 == Some(false) ==> r.1 == PopupCount(today, jar).1
  {
    if popupShown then (None, jar)
    else
      var (count, j) := PopupCount(today, jar);
      if count.Some? && count.value < DailyPopupLimit then (Some(true), IncrementedJar(today, j))
      else (Some(false), j)
  }

  /** How many of `n` fresh sessions on `today`, one after another, show the popup. */
  function ShowsToday(today: Date, jar: seq<Cookie>, n: nat): nat
    decreases n
  {
    if n == 0 then 0
    else
      var d := PopupDecision(false, today, jar);
      (if d.0 == Some(true) then 1 else 0) + ShowsToday(today, d.1, n - 1)
  }

  /**
   * One fresh session: it shows the popup exactly when the day's count is
   * below three, and then the count reads one higher; otherwise the count
   * reads as before.
   */
  lemma ShowStep(today: Date, jar: seq<Cookie>)
    requires WellFormed(jar)
    ensures WellFormed(PopupDecision(false, today, jar).1)
    ensures var count := PopupCount(today, jar).0;
            var shows := count.Some? && count.value < DailyPopupLimit;
            PopupDecision(false, today, jar).0 == Some(shows) &&
            PopupCount(today, PopupDecision(false, today, jar).1).0 ==
              if shows then Some(count.value + 1) else count
  {
    PopupCountSettles(today, jar);
    var count := PopupCount(today, jar).0;
    if count.Some? && count.value < DailyPopupLimit {
      ShowingStep(today, jar);
    } else {
      assert PopupDecision(false, today, jar) == (Some(false), PopupCount(today, jar).1);
    }
  }

  /** The showing case of `ShowStep`: the jar after is the incremented one. */
  lemma ShowingStep(today: Date, jar: seq<Cookie>)
    requires WellFormed(jar)
    requires PopupCount(today, jar).0.Some? && PopupCount(today, jar).0.value < DailyPopupLimit
    ensures PopupDecision(false, today, jar) == (Some(true), IncrementedJar(today, jar))
    ensures WellFormed(IncrementedJar(today, jar))
    ensures PopupCount(today, IncrementedJar(today, jar)).0 == Some(PopupCount(today, jar).0.value + 1)
  {
    PopupCountSettles(today, jar);
    var j := PopupCount(today, jar).1;
    IncrementAddsOne(today, j);
    assert IncrementedJar(today, j) == IncrementedJar(today, jar);
  }

  /**
   * From a day count `c`, the next `n` sessions show the popup
   * min(n, 3 - c) times; from a NaN count, never.
   */
  lemma ShowsFromCount(today: Date, jar: seq<Cookie>, n: nat)
    requires WellFormed(jar)
    ensures PopupCount(today, jar).0.None? ==> ShowsToday(today, jar, n) == 0
    ensures PopupCount(today, jar).0.Some? ==>
              var c := PopupCount(today, jar).0.value;
              ShowsToday(today, jar, n) == if c >= DailyPopupLimit then 0
                                           else if n < DailyPopupLimit - c then n
                                           else DailyPopupLimit - c
  {
    ShowsAsExpected(today, jar, n);
  }

  /** How many of `n` sessions show the popup from the day count `count`. */
  function ExpectedShows(count: Option<nat>, n: nat): nat {
    if count.None? || count.value >= DailyPopupLimit then 0
    else if n < DailyPopupLimit - count.value then n
    else DailyPopupLimit - count.value
  }

  lemma {:induction false} ShowsAsExpected(today: Date, jar: seq<Cookie>, n: nat)
    requires WellFormed(jar)
    ensures ShowsToday(today, jar, n) == ExpectedShows(PopupCount(today, jar).0, n)
    decreases n
  {
    if n > 0 {
      var j := PopupDecision(false, today, jar).1;
      DecisionWellFormed(today, jar);
      ShowsAsExpected(today, j, n - 1);
      SessionStep(today, jar, j, n);
    }
  }

  /** A session leaves a well-formed jar. */
  lemma DecisionWellFormed(today: Date, jar: seq<Cookie>)
    requires WellFormed(jar)
    ensures WellFormed(PopupDecision(false, today, jar).1)
  {
    ShowStep(today, jar);
  }

  /** The inductive step: one session, then the rest as expected from the count it leaves. */
  lemma SessionStep(today: Date, jar: seq<Cookie>, j: seq<Cookie>, n: nat)
    requires WellFormed(jar) && n > 0
    requires j == PopupDecision(false, today, jar).1
    requires ShowsToday(today, j, n - 1) == ExpectedShows(PopupCount(today, j).0, n - 1)
    ensures ShowsToday(today, jar, n) == ExpectedShows(PopupCount(today, jar).0, n)
  {
    var shown := PopupDecision(false, today, jar).0;
    assert ShowsToday(today, jar, n) == (if shown == Some(true) then 1 else 0) + ShowsToday(today, j, n - 1);
    ShowStep(today, jar);
    ExpectedStep(ShowsToday(today, jar, n), ShowsToday(today, j, n - 1),
                 PopupCount(today, jar).0, PopupCount(today, j).0, shown, n);
  }

  /**
   * The arithmetic of one session: a session that shows counts one and
   * raises the count, any other counts nothing and leaves it.
   */
  lemma ExpectedStep(total: nat, rest: nat, count: Option<nat>, next: Option<nat>, shown: Option<bool>, n: nat)
    requires n > 0
    requires shown == Some(count.Some? && count.value < DailyPopupLimit)
    requires total == (if shown == Some(true) then 1 else 0) + rest
    requires next == if shown == Some(true) then Some(count.value + 1) else count
    requires rest == ExpectedShows(next, n - 1)
    ensures total == ExpectedShows(count, n)
  {
  }

  /** However many sessions open on one day, the popup shows at most three times. */
  lemma AtMostThreeADay(today: Date, jar: seq<Cookie>, n: nat)
    requires WellFormed(jar)
    ensures ShowsToday(today, jar, n) <= DailyPopupLimit
  {
    ShowsFromCount(today, jar, n);
  }

  /** On the first visit of a day the first three sessions all show the popup. */
  lemma NewDayShowsThree(today: Date, jar: seq<Cookie>, n: nat)
    requires WellFormed(jar) && Lookup(jar, PopupDate) != TodayString(today)
    ensures ShowsToday(today, jar, n) == if n < DailyPopupLimit then n else DailyPopupLimit
  {
    PopupNamesGood();
    CookieLookup(jar, PopupDate);
    ShowsFromCount(today, jar, n);
  }

  // ------------------------------------------------------------ resources

  /** `hasNewResources`: `data.some(item => isRecent(item.date))`. */
  predicate AnyRecent(data: seq<Resource>, now: int) {
    exists i :: 0 <= i < |data| && IsRecent(data[i].date, now)
  }

  /** Where a card's image links: the video player or the download. */
  datatype Thumbnail = VideoThumb(videoUrl: string) | DownloadThumb(href: string)

  /** What a resource card shows. */
  datatype Card = Card(
    newBadge: bool, thumbnail: Thumbnail, image: string, tag: string,
    actionHref: string, tooltip: string, description: string)

  const VideoKind: string := "VIDEO"

  /** `item.videoUrl || item.downloadUrl` */
  function VideoLink(item: Resource): string {
    if item.videoUrl != "" then item.videoUrl else item.downloadUrl
  }

  /** The card `displayResources` renders for one resource at time `now`. */
  function CardFor(item: Resource, now: int): (c: Card)
    ensures c.newBadge <==> IsRecent(item.date, now)
    ensures c.thumbnail.VideoThumb? <==> item.kind == VideoKind
    ensures c.actionHref == item.downloadUrl && c.description == item.title
    ensures c.tooltip != ""
  {
    var isVideo := item.kind == VideoKind;
    Card(
      IsRecent(item.date, now),
      if isVideo then VideoThumb(VideoLink(item)) else DownloadThumb(item.downloadUrl),
      item.image,
      item.kind,
      item.downloadUrl,
      if item.tooltip != "" then item.tooltip else if isVideo then "Watch Video" else "Download",
      item.title)
  }

  /**
   * A video card plays the resource's `videoUrl` when it has one and its
   * download otherwise; any other card links to the download. The tooltip
   * is the resource's own, else the default for its kind.
   */
  lemma CardLinks(item: Resource, now: int)
    ensures var c := CardFor(item, now);
            (item.kind == VideoKind && item.videoUrl != "" ==> c.thumbnail == VideoThumb(item.videoUrl)) &&
            (item.kind == VideoKind && item.videoUrl == "" ==> c.thumbnail == VideoThumb(item.downloadUrl)) &&
            (item.kind != VideoKind ==> c.thumbnail == DownloadThumb(item.downloadUrl)) &&
            (item.tooltip != "" ==> c.tooltip == item.tooltip) &&
            (item.tooltip == "" ==> c.tooltip == if item.kind == VideoKind then "Watch Video" else "Download")
  {
  }

  /** A displayed resource is one of the list's. */
  lemma {:induction false} PickedFromList(items: seq<Resource>, idx: seq<nat>, k: nat)
    requires k < |PickExisting(items, idx)|
    ensures PickExisting(items, idx)[k] in items
  {
    var init := idx[..|idx| - 1];
    if k < |PickExisting(items, init)| {
      PickedFromList(items, init, k);
    }
  }

  /** What the home page shows and keeps. */
  class HomePage {
    /** The cookie counter the popup reads and writes. */
    const jar: CookieJar
    /** `.nav-links a[href="#resources"]` exists. */
    const hasNavLink: bool
    /** `.resources-grid` exists. */
    const hasGrid: bool
    /** The nav link carries 'has-new-content'. */
    var navHasNewContent: bool
    /** The popup is displayed and the body's scrolling is turned off. */
    var popupVisible: bool
    var scrollLocked: bool
    /** `#debugPanel` exists; its sections are shown while it is expanded. */
    var debugPanel: bool
    var debugExpanded: bool
    /** The cards of the resources grid, or the error card. */
    var cards: seq<Card>
    var loadError: bool

    ghost predicate Valid()
      reads this, jar
    {
      jar.Valid()
    }

    constructor (jar: CookieJar, hasNavLink: bool, hasGrid: bool)
      requires jar.Valid()
      ensures this.jar == jar && this.hasNavLink == hasNavLink && this.hasGrid == hasGrid
      ensures !navHasNewContent && !popupVisible && !scrollLocked && !debugPanel
      ensures cards == [] && !loadError
      ensures Valid()
    {
      this.jar := jar;
      this.hasNavLink := hasNavLink;
      this.hasGrid := hasGrid;
      navHasNewContent := false;
      popupVisible := false;
      scrollLocked := false;
      debugPanel := false;
      debugExpanded := false;
      cards := [];
      loadError := false;
    }

    /** `updateResourcesNavLink(hasNewResources)`: no link, no change. */
    method UpdateResourcesNavLink(hasNewResources: bool)
      modifies this`navHasNewContent
      ensures navHasNewContent == if hasNavLink then hasNewResources else old(navHasNewContent)
    {
      if hasNavLink {
        if hasNewResources {
          navHasNewContent := true;
        } else {
          navHasNewContent := false;
        }
      }
    }

    /** `showPopup(popup, popupShown)` on `today`. */
    method ShowPopup(popupShown: bool, today: Date) returns (r: Option<bool>)
      requires Valid()
      modifies this`popupVisible, this`scrollLocked, jar
      ensures Valid()
      ensures (r, jar.cookies) == PopupDecision(popupShown, today, old(jar.cookies))
      ensures popupVisible == (old(popupVisible) || r == Some(true))
      ensures scrollLocked == (old(scrollLocked) || r == Some(true))
    {
      if popupShown {
        return None;
      }
      var count := jar.GetPopupCount(today);
      if count.Some? && count.value < DailyPopupLimit {
        popupVisible := true;
        scrollLocked := true;
        jar.IncrementPopupCount(today);
        return Some(true);
      }
      return Some(false);
    }

    /**
     * `createDebugPanel(debugMode)`: a panel, expanded, only in debug mode
     * and only when there is none yet; `created` is false where the source
     * returns null.
     */
    method CreateDebugPanel(debugMode: bool) returns (created: bool)
      modifies this`debugPanel, this`debugExpanded
      ensures created <==> debugMode && !old(debugPanel)
      ensures debugPanel == (old(debugPanel) || created)
      ensures debugExpanded == if created then true else old(debugExpanded)
    {
      if debugMode && !debugPanel {
        debugPanel := true;
        debugExpanded := true;
        return true;
      }
      return false;
    }

    /** The panel's toggle button: hide or show the sections, flipping `expanded`. */
    method ToggleDebugPanel()
      requires debugPanel
      modifies this`debugExpanded
      ensures debugExpanded == !old(debugExpanded)
    {
      debugExpanded := !debugExpanded;
    }

    /**
     * `displayResources(data, debugMode)` at time `now`; `None` is data
     * that is not a list, which makes the function show the error card.
     * Otherwise the nav marker follows whether any resource is recent and
     * the grid holds one card per resource at positions 0, 1, 2, 4, 6, 8.
     */
    method DisplayResources(data: Option<seq<Resource>>, debugMode: bool, now: int)
      modifies this`debugPanel, this`debugExpanded, this`navHasNewContent, this`cards, this`loadError
      ensures !hasGrid ==> debugPanel == old(debugPanel) && debugExpanded == old(debugExpanded) &&
                           navHasNewContent == old(navHasNewContent) && cards == old(cards) && loadError == old(loadError)
      ensures hasGrid ==> debugPanel == (old(debugPanel) || debugMode)
      ensures hasGrid ==> debugExpanded == (if debugMode && !old(debugPanel) then true else old(debugExpanded))
      ensures hasGrid && data.None? ==> loadError && cards == [] && navHasNewContent == old(navHasNewContent)
      ensures hasGrid && data.Some? ==>
                !loadError &&
                navHasNewContent == (if hasNavLink then AnyRecent(data.value, now) else old(navHasNewContent)) &&
                |cards| == |PickExisting(data.value, HomeIndices)| &&
                forall k :: 0 <= k < |cards| ==> cards[k] == CardFor(PickExisting(data.value, HomeIndices)[k], now)
    {
      if !hasGrid {
        return;
      }
      if debugMode {
        var _ := CreateDebugPanel(debugMode);
      }
      if data.None? {
        cards := [];
        loadError := true;
        return;
      }
      var items := data.value;
      UpdateResourcesNavLink(AnyRecent(items, now));
      var resourceItems := FilterByIndex(items, HomeIndices);
      HomeIndicesIncreasing();
      FilterByIndexPicks(items, HomeIndices);
      var grid: seq<Card> := [];
      for k := 0 to |resourceItems|
        invariant |grid| == k
        invariant forall j :: 0 <= j < k ==> grid[j] == CardFor(resourceItems[j], now)
      {
        grid := grid + [CardFor(resourceItems[k], now)];
      }
      cards := grid;
      loadError := false;
    }
  }

  /**
   * A NEW badge in the grid means the nav link is marked too: every card
   * comes from the list the marker looks at.
   */
  lemma BadgeMarksNav(data: seq<Resource>, now: int, k: nat)
    requires k < |PickExisting(data, HomeIndices)|
    requires CardFor(PickExisting(data, HomeIndices)[k], now).newBadge
    ensures AnyRecent(data, now)
  {
    PickedFromList(data, HomeIndices, k);
    var item := PickExisting(data, HomeIndices)[k];
    var i :| 0 <= i < |data| && data[i] == item;
  }

  /** With nine or more resources the grid shows those at 0, 1, 2, 4, 6 and 8. */
  lemma GridOfLongList(data: seq<Resource>)
    requires |data| >= 9
    ensures PickExisting(data, HomeIndices) == [data[0], data[1], data[2], data[4], data[6], data[8]]
    ensures FilterByIndex(data, HomeIndices) == PickExisting(data, HomeIndices)
  {
    HomePick(data);
    HomeIndicesIncreasing();
    FilterByIndexPicks(data, HomeIndices);
  }
}
