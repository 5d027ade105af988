/**
 * main/intern-home/js/main.js: the internship home page. Scrolling shows
 * the back-to-top button past 300 pixels and highlights the navigation
 * link of the section being read; program tabs and FAQ items are switched
 * by clicks. Scroll offsets and section positions are parameters.
 */
module InternHome {
  import opened Wrappers
  import opened Strings

  const BackToTopThreshold: int := 300
  const NavOffset: int := 100

  /** A `section[id]`: its id and `offsetTop`. */
  datatype Section = Section(id: string, top: int)

  /** The scroll position has reached the section, less the 100-pixel allowance. */
  predicate Reached(s: Section, scrollY: int) {
    scrollY >= s.top - NavOffset
  }

  /** The last section in document order that the scroll position has reached. */
  function LastReached(sections: seq<Section>, scrollY: int): (r: Option<nat>)
    ensures r.Some? ==> r.value < |sections| && Reached(sections[r.value], scrollY)
    ensures r.Some? ==> forall j :: r.value < j < |sections| ==> !Reached(sections[j], scrollY)
    ensures r.None? ==> forall j :: 0 <= j < |sections| ==> !Reached(sections[j], scrollY)
  {
    if sections == [] then None
    else if Reached(sections[|sections| - 1], scrollY) then Some(|sections| - 1)
    else LastReached(sections[..|sections| - 1], scrollY)
  }

  /** The scroll handler's `current`: that section's id, or '' when none is reached. */
  function CurrentSection(sections: seq<Section>, scrollY: int): string {
    match LastReached(sections, scrollY)
    case None => ""
    case Some(k) => sections[k].id
  }

  /** `href.slice(1)` */
  function HrefTarget(href: string): string {
    if href == "" then "" else href[1..]
  }

  /**
   * Scrolling further down never moves the highlight back to an earlier
   * section, whatever the section positions.
   */
  lemma ScrollDownMovesForward(sections: seq<Section>, y1: int, y2: int)
    requires y1 <= y2 && LastReached(sections, y1).Some?
    ensures LastReached(sections, y2).Some?
    ensures LastReached(sections, y1).value <= LastReached(sections, y2).value
  {
    var k := LastReached(sections, y1).value;
    assert Reached(sections[k], y2);
  }

  /**
   * When no section is reached, `current` is '' and a link is highlighted
   * only if its href has at most one character.
   */
  lemma NothingReachedHighlightsNothing(sections: seq<Section>, scrollY: int, href: string)
    requires forall j :: 0 <= j < |sections| ==> !Reached(sections[j], scrollY)
    requires |href| >= 2
    ensures HrefTarget(href) != CurrentSection(sections, scrollY)
  {
  }

  /** `document.querySelector(href)` for an id selector, among the program contents. */
  function ContentFor(contentIds: seq<string>, href: string): (r: Option<nat>)
    ensures r.Some? ==> r.value < |contentIds| && href == "#" + contentIds[r.value]
    ensures r.Some? ==> forall j :: 0 <= j < r.value ==> href != "#" + contentIds[j]
    ensures r.None? ==> forall i :: 0 <= i < |contentIds| ==> href != "#" + contentIds[i]
  {
    if href != "" && href[0] == '#' then
      var r := FirstIndex(contentIds, href[1..]);
      assert forall i :: 0 <= i < |contentIds| && href == "#" + contentIds[i] ==> contentIds[i] == href[1..];
      r
    else None
  }

  /** At most one entry is true. */
  predicate AtMostOne(active: seq<bool>) {
    forall i, j :: 0 <= i < |active| && 0 <= j < |active| && active[i] && active[j] ==> i == j
  }

  /** The FAQ after a click on question `q`: every item closed, then `q` opened if it was closed. */
  function FaqClicked(active: seq<bool>, q: nat): (r: seq<bool>)
    requires q < |active|
    ensures |r| == |active| && AtMostOne(r)
    ensures r[q] <==> !active[q]
    ensures forall i :: 0 <= i < |r| && i != q ==> !r[i]
  {
    seq(|active|, i => i == q && !active[q])
  }

  /** Two clicks on a closed question open and close it again: all items end closed. */
  lemma FaqTwiceClosesAll(active: seq<bool>, q: nat)
    requires q < |active| && !active[q]
    ensures FaqClicked(FaqClicked(active, q), q) == seq(|active|, _ => false)
  {
  }

  /** A click on another question moves the one open item there. */
  lemma FaqOtherMovesOpen(active: seq<bool>, p: nat, q: nat)
    requires p < |active| && q < |active| && p != q
    ensures FaqClicked(FaqClicked(active, p), q) == seq(|active|, i => i == q)
  {
  }

  /** The page's navigation links, tabs, contents, FAQ items and back-to-top button. */
  class InternPage {
    const sections: seq<Section>
    const navHrefs: seq<string>
    const tabHrefs: seq<string>
    const contentIds: seq<string>
    var navActive: seq<bool>
    var tabActive: seq<bool>
    var contentActive: seq<bool>
    var faqActive: seq<bool>
    var backToTopVisible: bool

    ghost predicate Valid()
      reads this
    {
      |navActive| == |navHrefs| && |tabActive| == |tabHrefs| && |contentActive| == |contentIds|
    }

    /** The page as loaded; `faqActive` is the markup's initial marking. */
    constructor (sections: seq<Section>, navHrefs: seq<string>, tabHrefs: seq<string>,
                 contentIds: seq<string>, faqActive: seq<bool>)
      ensures Valid()
      ensures this.sections == sections && this.navHrefs == navHrefs
      ensures this.tabHrefs == tabHrefs && this.contentIds == contentIds && this.faqActive == faqActive
      ensures !backToTopVisible
    {
      this.sections := sections;
      this.navHrefs := navHrefs;
      this.tabHrefs := tabHrefs;
      this.contentIds := contentIds;
      this.faqActive := faqActive;
      navActive := seq(|navHrefs|, _ => false);
      tabActive := seq(|tabHrefs|, _ => false);
      contentActive := seq(|contentIds|, _ => false);
      backToTopVisible := false;
    }

    /**
     * A scroll to `scrollY`, running both scroll listeners: the back-to-top
     * button shows past 300 pixels, and exactly the links naming the
     * current section are active.
     */
    method Scroll(scrollY: int)
      requires Valid()
      modifies this`backToTopVisible, this`navActive
      ensures Valid()
      ensures backToTopVisible <==> scrollY > BackToTopThreshold
      ensures forall i :: 0 <= i < |navActive| ==>
                (navActive[i] <==> HrefTarget(navHrefs[i]) == CurrentSection(sections, scrollY))
    {
      backToTopVisible := scrollY > BackToTopThreshold;

      var current := "";
      for i := 0 to |sections|
        invariant current == CurrentSection(sections[..i], scrollY)
      {
        assert sections[..i + 1][..i] == sections[..i];
        if scrollY >= sections[i].top - NavOffset {
          current := sections[i].id;
        }
      }
      assert sections[..|sections|] == sections;

      var links := navActive;
      for i := 0 to |links|
        invariant |links| == |navHrefs|
        invariant forall j :: 0 <= j < i ==> (links[j] <==> HrefTarget(navHrefs[j]) == current)
      {
        links := links[i := HrefTarget(navHrefs[i]) == current];
      }
      navActive := links;
    }

    /**
     * A click on tab `t`: it becomes the only active tab, and the first
     * program content its href names the only active content. `found` is
     * false when the href names none, where the source fails with a
     * TypeError after clearing the contents.
     */
    method ClickTab(t: nat) returns (found: bool)
      requires Valid() && t < |tabHrefs|
      modifies this`tabActive, this`contentActive
      ensures Valid()
      ensures forall i :: 0 <= i < |tabActive| ==> (tabActive[i] <==> i == t)
      ensures found <==> ContentFor(contentIds, tabHrefs[t]).Some?
      ensures forall i :: 0 <= i < |contentActive| ==>
                (contentActive[i] <==> ContentFor(contentIds, tabHrefs[t]) == Some(i))
    {
      var tabs := tabActive;
      for i := 0 to |tabs|
        invariant |tabs| == |tabHrefs|
        invariant forall j :: 0 <= j < i ==> !tabs[j]
      {
        tabs := tabs[i := false];
      }
      var contents := contentActive;
      for i := 0 to |contents|
        invariant |contents| == |contentIds|
        invariant forall j :: 0 <= j < i ==> !contents[j]
      {
        contents := contents[i := false];
      }
      tabActive := tabs[t := true];
      var target := ContentFor(contentIds, tabHrefs[t]);
      found := target.Some?;
      if found {
        contents := contents[target.value := true];
      }
      contentActive := contents;
    }

    /**
     * A click on question `q`: every item closes, and `q` opens unless it
     * was the open one, so at most one item is ever open.
     */
    method ClickFaq(q: nat)
      requires q < |faqActive|
      modifies this`faqActive
      ensures faqActive == FaqClicked(old(faqActive), q)
      ensures AtMostOne(faqActive)
    {
      var isActive := faqActive[q];
      var items := faqActive;
      for i := 0 to |items|
        invariant |items| == |faqActive|
        invariant forall j :: 0 <= j < i ==> !items[j]
        invariant forall j :: i <= j < |items| ==> items[j] == faqActive[j]
      {
        items := items[i := false];
      }
      if !isActive {
        items := items[q := true];
      }
      faqActive := items;
    }
  }
}
