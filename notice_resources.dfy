/**
 * notice-coalition/notice-resources/js/main.js: the resources page. The
 * list comes from a request (a parameter here); filter buttons whose type
 * no resource has are greyed out, a click on an enabled button makes it
 * the only active one and filters the grid by type.
 */
module NoticeResources {
  import opened Wrappers

  /**
   * One entry of the resources list; an empty string stands for a missing
   * (falsy) `type`, `tooltip` or `buttonLink`.
   */
  datatype Item = Item(
    title: string, kind: string, image: string, downloadUrl: string,
    videoUrl: string, tooltip: string, buttonLink: string, buttonName: string)

  const All: string := "ALL"
  const VideoKind: string := "VIDEO"

  // ---------------------------------------------------------------- types

  /** Some item has type `t`. */
  predicate HasType(items: seq<Item>, t: string) {
    exists i :: 0 <= i < |items| && items[i].kind == t
  }

  /**
   * The `availableTypes` dictionary: every truthy `type` of the data
   * marked true, and nothing else.
   */
  method AvailableTypes(items: seq<Item>) returns (available: map<string, bool>)
    ensures forall t :: t in available <==> t != "" && HasType(items, t)
    ensures forall t :: t in available ==> available[t]
  {
    available := map[];
    for i := 0 to |items|
      invariant forall t :: t in available <==> t != "" && HasType(items[..i], t)
      invariant forall t :: t in available ==> available[t]
    {
      forall t ensures HasType(items[..i + 1], t) <==> HasType(items[..i], t) || items[i].kind == t {
        if HasType(items[..i + 1], t) {
          var k :| 0 <= k < i + 1 && items[..i + 1][k].kind == t;
          if k < i {
            assert items[..i][k] == items[k];
          }
        }
        if HasType(items[..i], t) {
          var k :| 0 <= k < i && items[..i][k].kind == t;
          assert items[..i + 1][k] == items[k];
        }
        if items[i].kind == t {
          assert items[..i + 1][i] == items[i];
        }
      }
      if items[i].kind != "" {
        available := available[items[i].kind := true];
      }
    }
    assert items[..|items|] == items;
  }

  /** A button other than ALL is greyed out when no item has its type. */
  predicate Greyed(filter: string, available: map<string, bool>) {
    filter != All && !(filter in available && available[filter])
  }

  // --------------------------------------------------------------- filter

  /** `populateResourcesGrid`'s selection: ALL keeps everything, any other filter `type === filter`. */
  function TypeFilter(items: seq<Item>, filter: string): (r: seq<Item>)
    ensures |r| <= |items|
    ensures filter != All ==> forall x :: x in r <==> x in items && x.kind == filter
  {
    if filter == All then items
    else if items == [] then []
    else
      var rest := TypeFilter(items[1..], filter);
      assert forall x :: x in items <==> x == items[0] || x in items[1..];
      (if items[0].kind == filter then [items[0]] else []) + rest
  }

  /** The type filter distributes over concatenation, so it keeps the list's order. */
  lemma {:induction false} TypeFilterAppend(a: seq<Item>, b: seq<Item>, filter: string)
    ensures TypeFilter(a + b, filter) == TypeFilter(a, filter) + TypeFilter(b, filter)
  {
    if filter != All {
      if a == [] {
        assert a + b == b;
      } else {
        assert (a + b)[1..] == a[1..] + b;
        TypeFilterAppend(a[1..], b, filter);
      }
    }
  }

  /**
   * For a button other than ALL, it is greyed out exactly when its filter
   * would show nothing; the ALL button is never greyed out.
   */
  lemma GreyedIffEmpty(items: seq<Item>, available: map<string, bool>, filter: string)
    requires forall t :: t in available <==> t != "" && HasType(items, t)
    requires forall t :: t in available ==> available[t]
    requires filter != ""
    ensures Greyed(filter, available) <==> filter != All && TypeFilter(items, filter) == []
  {
    if filter != All && !Greyed(filter, available) {
      var i :| 0 <= i < |items| && items[i].kind == filter;
      assert items[i] in TypeFilter(items, filter);
    }
    if filter != All && TypeFilter(items, filter) != [] {
      var x := TypeFilter(items, filter)[0];
      assert x in TypeFilter(items, filter);
      var i :| 0 <= i < |items| && items[i] == x;
      assert HasType(items, filter);
    }
  }

  // ----------------------------------------------------------------- card

  /** The extra link under a card's description. */
  datatype CardLink = CardLink(href: string, text: string)

  /** Where a card's image links: the video player or the download. */
  datatype Thumbnail = VideoThumb(videoUrl: string) | DownloadThumb(href: string)

  datatype Card = Card(thumbnail: Thumbnail, image: string, tag: string, actionHref: string,
                       tooltip: string, description: string, link: Option<CardLink>)

  /**
   * The card for one item: a button link when the item has one, else a
   * "Watch Video" link to the download for a video, else no link.
   */
  function CardFor(item: Item): (c: Card)
    ensures c.link.Some? <==> item.buttonLink != "" || item.kind == VideoKind
    ensures item.buttonLink != "" ==> c.link == Some(CardLink(item.buttonLink, item.buttonName))
    ensures item.buttonLink == "" && item.kind == VideoKind ==> c.link == Some(CardLink(item.downloadUrl, "Watch Video"))
    ensures c.thumbnail.VideoThumb? <==> item.kind == VideoKind
    ensures c.tooltip != "" && c.actionHref == item.downloadUrl
  {
    var isVideo := item.kind == VideoKind;
    Card(
      if isVideo then VideoThumb(item.videoUrl) else DownloadThumb(item.downloadUrl),
      item.image,
      item.kind,
      item.downloadUrl,
      if item.tooltip != "" then item.tooltip else if isVideo then "Watch" else "Download",
      item.title,
      if item.buttonLink != "" then Some(CardLink(item.buttonLink, item.buttonName))
      else if isVideo then Some(CardLink(item.downloadUrl, "Watch Video"))
      else None)
  }

  // ----------------------------------------------------------------- page

  /** The resources page: its filter buttons and its grid. */
  class ResourcesPage {
    /** The buttons' `data-filter` values, in document order. */
    const filters: seq<string>
    /** `.resources-grid` exists. */
    const hasGrid: bool
    /** The list arrived; the click handlers exist only from then on. */
    var loaded: bool
    var items: seq<Item>
    var available: map<string, bool>
    var disabled: seq<bool>
    var active: seq<bool>
    var currentFilter: string
    var cards: seq<Card>
    var loadError: bool

    ghost predicate Valid()
      reads this
    {
      |disabled| == |filters| && |active| == |filters| &&
      (loaded ==> forall i :: 0 <= i < |filters| ==> (disabled[i] <==> Greyed(filters[i], available)))
    }

    /** The page before the request answers; `active` is the markup's initial marking. */
    constructor (filters: seq<string>, hasGrid: bool, active: seq<bool>)
      requires |active| == |filters|
      ensures this.filters == filters && this.hasGrid == hasGrid && this.active == active
      ensures !loaded && !loadError && cards == [] && currentFilter == All
      ensures Valid() && forall i :: 0 <= i < |filters| ==> !disabled[i]
    {
      this.filters := filters;
      this.hasGrid := hasGrid;
      this.active := active;
      loaded := false;
      items := [];
      available := map[];
      disabled := seq(|filters|, _ => false);
      currentFilter := All;
      cards := [];
      loadError := false;
    }

    /** `populateResourcesGrid(resourceItems, filter)`: one card per shown item. */
    method PopulateResourcesGrid(filter: string)
      modifies this`cards
      ensures hasGrid ==> |cards| == |TypeFilter(items, filter)| &&
                          forall k :: 0 <= k < |cards| ==> cards[k] == CardFor(TypeFilter(items, filter)[k])
      ensures !hasGrid ==> cards == old(cards)
    {
      if !hasGrid {
        return;
      }
      var shown := TypeFilter(items, filter);
      var grid: seq<Card> := [];
      for k := 0 to |shown|
        invariant |grid| == k
        invariant forall j :: 0 <= j < k ==> grid[j] == CardFor(shown[j])
      {
        grid := grid + [CardFor(shown[k])];
      }
      cards := grid;
    }

    /**
     * The request's answer: `None` is a failed request (the grid shows the
     * error card); a list marks the types, greys out the buttons without
     * items and shows every item.
     */
    method Load(response: Option<seq<Item>>)
      requires Valid() && !loaded
      modifies this
      ensures Valid() && active == old(active)
      ensures response.None? ==> !loaded && cards == (if hasGrid then [] else old(cards)) && loadError == (hasGrid || old(loadError))
      ensures response.Some? ==> loaded && items == response.value && currentFilter == All
      ensures response.Some? ==> forall i :: 0 <= i < |filters| ==>
                (disabled[i] <==> filters[i] != All && (filters[i] == "" || !HasType(items, filters[i])))
      ensures response.Some? && hasGrid ==> cards == CardsOf(items)
    {
      if response.None? {
        if hasGrid {
          cards := [];
          loadError := true;
        }
        return;
      }
      items := response.value;
      available := AvailableTypes(items);
      var d := disabled;
      for i := 0 to |filters|
        invariant |d| == |filters|
        invariant forall j :: 0 <= j < i ==> (d[j] <==> Greyed(filters[j], available))
      {
        if filters[i] != All && !(filters[i] in available && available[filters[i]]) {
          d := d[i := true];
        } else {
          d := d[i := false];
        }
      }
      disabled := d;
      currentFilter := All;
      loaded := true;
      PopulateResourcesGrid(currentFilter);
    }

    /**
     * A click on button `b`: nothing before the list arrives or when the
     * button is greyed out; otherwise `b` becomes the only active button,
     * its filter the current one, and the grid shows that filter.
     */
    method ClickFilter(b: nat)
      requires Valid() && b < |filters|
      modifies this`active, this`currentFilter, this`cards
      ensures Valid()
      ensures !loaded || disabled[b] ==> active == old(active) && currentFilter == old(currentFilter) && cards == old(cards)
      ensures loaded && !disabled[b] ==>
                |active| == |filters| && (forall i :: 0 <= i < |filters| ==> (active[i] <==> i == b)) &&
                currentFilter == filters[b] &&
                (hasGrid ==> |cards| == |TypeFilter(items, filters[b])| &&
                             forall k :: 0 <= k < |cards| ==> cards[k] == CardFor(TypeFilter(items, filters[b])[k]))
    {
      if !loaded || disabled[b] {
        return;
      }
      var a := active;
      for i := 0 to |a|
        invariant |a| == |filters|
        invariant forall j :: 0 <= j < i ==> !a[j]
      {
        a := a[i := false];
      }
      active := a[b := true];
      currentFilter := filters[b];
      PopulateResourcesGrid(currentFilter);
    }
  }

  /** The cards of a whole list, in order. */
  function CardsOf(items: seq<Item>): (r: seq<Card>)
    ensures |r| == |items|
    ensures forall k :: 0 <= k < |items| ==> r[k] == CardFor(items[k])
  {
    if items == [] then [] else [CardFor(items[0])] + CardsOf(items[1..])
  }
}
