/**
 * main/book-club/js/main.js: the book club's chapter navigation.
 * `turnToPage(c)` makes the first tab carrying `data-chapter=c` the only
 * active tab and the first `data-page=c` the only page shown, marked as
 * the current page; clicks on tabs marked 'disabled' do nothing.
 */
module BookClub {
  import opened Wrappers
  import opened Strings

  /** The class state of the tabs and pages, in document order. */
  datatype Shelf = Shelf(tabActive: seq<bool>, pageHidden: seq<bool>, pageCurrent: seq<bool>)

  /**
   * The state after `turnToPage(c)`, with whether it ran to its end.
   * `tabChapters[i]` is tab i's `data-chapter` (`None`: no attribute),
   * `pageIds[i]` page i's `data-page`. A missing tab throws right after
   * every tab lost 'active'; a missing page throws after every page was
   * hidden.
   */
  function TurnedTo(tabChapters: seq<Option<string>>, pageIds: seq<Option<string>>, s: Shelf, c: string): (Shelf, bool)
  {
    var tab := FirstIndex(tabChapters, Some(c));
    var page := FirstIndex(pageIds, Some(c));
    var tabs := seq(|tabChapters|, i => tab == Some(i));
    if tab.None? then (s.(tabActive := tabs), false)
    else
      (Shelf(tabs, seq(|pageIds|, i => page != Some(i)), seq(|pageIds|, i => page == Some(i))),
       page.Some?)
  }

  /**
   * After a completed `turnToPage(c)` exactly one tab is active, the first
   * with chapter `c`, and exactly one page is shown, the first with page
   * `c`, which alone is the current page.
   */
  lemma TurnedToSelects(tabChapters: seq<Option<string>>, pageIds: seq<Option<string>>, s: Shelf, c: string)
    requires TurnedTo(tabChapters, pageIds, s, c).1
    ensures var r := TurnedTo(tabChapters, pageIds, s, c).0;
            exists t, p :: 0 <= t < |tabChapters| && tabChapters[t] == Some(c) &&
                           0 <= p < |pageIds| && pageIds[p] == Some(c) &&
                           (forall i :: 0 <= i < |r.tabActive| ==> (r.tabActive[i] <==> i == t)) &&
                           (forall i :: 0 <= i < |r.pageHidden| ==> (r.pageHidden[i] <==> i != p)) &&
                           (forall i :: 0 <= i < |r.pageCurrent| ==> (r.pageCurrent[i] <==> i == p))
  {
    var t := FirstIndex(tabChapters, Some(c)).value;
    var p := FirstIndex(pageIds, Some(c)).value;
    var r := TurnedTo(tabChapters, pageIds, s, c).0;
    assert forall i :: 0 <= i < |r.tabActive| ==> (r.tabActive[i] <==> i == t);
    assert forall i :: 0 <= i < |r.pageHidden| ==> (r.pageHidden[i] <==> i != p);
    assert forall i :: 0 <= i < |r.pageCurrent| ==> (r.pageCurrent[i] <==> i == p);
  }

  /** `turnToPage(c)` fails exactly when no tab or no page carries `c`. */
  lemma TurnedToFails(tabChapters: seq<Option<string>>, pageIds: seq<Option<string>>, s: Shelf, c: string)
    ensures !TurnedTo(tabChapters, pageIds, s, c).1 <==> Some(c) !in tabChapters || Some(c) !in pageIds
    ensures Some(c) !in tabChapters ==>
              TurnedTo(tabChapters, pageIds, s, c).0.pageHidden == s.pageHidden &&
              TurnedTo(tabChapters, pageIds, s, c).0.pageCurrent == s.pageCurrent
  {
  }

  /** Turning to the same chapter twice leaves the state of turning to it once. */
  lemma TurnedToIdempotent(tabChapters: seq<Option<string>>, pageIds: seq<Option<string>>, s: Shelf, c: string)
    ensures var once := TurnedTo(tabChapters, pageIds, s, c);
            TurnedTo(tabChapters, pageIds, once.0, c) == once
  {
  }

  /** The chapter tabs and pages. */
  class BookClubPage {
    const tabChapters: seq<Option<string>>
    /** Tabs carrying the 'disabled' class. */
    const tabDisabled: seq<bool>
    const pageIds: seq<Option<string>>
    var tabActive: seq<bool>
    var pageHidden: seq<bool>
    var pageCurrent: seq<bool>

    ghost predicate Valid()
      reads this
    {
      |tabDisabled| == |tabChapters| && |tabActive| == |tabChapters| &&
      |pageHidden| == |pageIds| && |pageCurrent| == |pageIds|
    }

    /** The page as loaded, with the markup's initial classes. */
    constructor (tabChapters: seq<Option<string>>, tabDisabled: seq<bool>, pageIds: seq<Option<string>>,
                 tabActive: seq<bool>, pageHidden: seq<bool>, pageCurrent: seq<bool>)
      requires |tabDisabled| == |tabChapters| && |tabActive| == |tabChapters|
      requires |pageHidden| == |pageIds| && |pageCurrent| == |pageIds|
      ensures Valid()
      ensures this.tabChapters == tabChapters && this.tabDisabled == tabDisabled && this.pageIds == pageIds
      ensures this.tabActive == tabActive && this.pageHidden == pageHidden && this.pageCurrent == pageCurrent
    {
      this.tabChapters := tabChapters;
      this.tabDisabled := tabDisabled;
      this.pageIds := pageIds;
      this.tabActive := tabActive;
      this.pageHidden := pageHidden;
      this.pageCurrent := pageCurrent;
    }

    /** `turnToPage(c)`; `ok` is false where the source throws. */
    method TurnToPage(c: string) returns (ok: bool)
      requires Valid()
      modifies this`tabActive, this`pageHidden, this`pageCurrent
      ensures Valid()
      ensures (Shelf(tabActive, pageHidden, pageCurrent), ok) ==
              TurnedTo(tabChapters, pageIds, old(Shelf(tabActive, pageHidden, pageCurrent)), c)
    {
      var tabs := tabActive;
      for i := 0 to |tabs|
        invariant |tabs| == |tabChapters|
        invariant forall j :: 0 <= j < i ==> !tabs[j]
      {
        tabs := tabs[i := false];
      }
      var tab := FirstIndex(tabChapters, Some(c));
      if tab.None? {
        assert tabs == seq(|tabChapters|, i => tab == Some(i));
        tabActive := tabs;
        return false;
      }
      tabActive := tabs[tab.value := true];
      assert tabActive == seq(|tabChapters|, i => tab == Some(i));

      var hidden, current := pageHidden, pageCurrent;
      for i := 0 to |hidden|
        invariant |hidden| == |current| == |pageIds|
        invariant forall j :: 0 <= j < i ==> hidden[j] && !current[j]
      {
        hidden := hidden[i := true];
        current := current[i := false];
      }
      var page := FirstIndex(pageIds, Some(c));
      if page.Some? {
        hidden := hidden[page.value := false];
        current := current[page.value := true];
      }
      assert hidden == seq(|pageIds|, i => page != Some(i));
      assert current == seq(|pageIds|, i => page == Some(i));
      pageHidden, pageCurrent := hidden, current;
      ok := page.Some?;
    }

    /**
     * A click on tab `t`, which carries a chapter: nothing when the tab is
     * disabled, otherwise `turnToPage` with its chapter.
     */
    method ClickTab(t: nat) returns (ok: bool)
      requires Valid() && t < |tabChapters| && tabChapters[t].Some?
      modifies this`tabActive, this`pageHidden, this`pageCurrent
      ensures Valid()
      ensures tabDisabled[t] ==>
                tabActive == old(tabActive) && pageHidden == old(pageHidden) && pageCurrent == old(pageCurrent) && ok
      ensures !tabDisabled[t] ==>
                (Shelf(tabActive, pageHidden, pageCurrent), ok) ==
                TurnedTo(tabChapters, pageIds, old(Shelf(tabActive, pageHidden, pageCurrent)), tabChapters[t].value)
    {
      if tabDisabled[t] {
        return true;
      }
      ok := TurnToPage(tabChapters[t].value);
    }
  }
}
