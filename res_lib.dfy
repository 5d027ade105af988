/**
 * main/res-lib/js/main.js: the resource library. Rows of a table are shown
 * or hidden by topic or by a title search, a nav bar switches between the
 * resource list and the materials view, and a material opens a popup
 * listing the references of its topic.
 */
module ResLib {
  import opened Wrappers
  import opened Strings

  /** A `.resource-row`: its `data-topic` and the text of its first cell. */
  datatype Row = Row(topic: string, title: string)

  /** A `.reference-row`: its `data-topic`, its link and the source cell. */
  datatype Reference = Reference(topic: string, href: string, title: string, source: string)

  const AllTopic: string := "all"
  const ResourceListId: string := "resource-list"
  const MaterialsId: string := "materials"

  // ---------------------------------------------------------------- title

  /** `topic.charAt(0).toUpperCase() + topic.slice(1)` */
  function Capitalize(topic: string): (r: string)
    ensures |r| == |topic|
    ensures topic != "" ==> r[0] == UpperChar(topic[0])
    ensures forall i :: 0 < i < |r| ==> r[i] == topic[i]
  {
    if topic == "" then "" else [UpperChar(topic[0])] + topic[1..]
  }

  const ResourcesSuffix: string := " Resources"

  /** The heading `filterItems(topic)` writes. */
  function ResourcesTitle(topic: string): (r: string)
    ensures topic != AllTopic ==> |r| == |topic| + |ResourcesSuffix| && r[|topic|..] == ResourcesSuffix
    ensures topic != AllTopic ==> r[..|topic|] == Capitalize(topic)
  {
    if topic == AllTopic then "All Resources" else Capitalize(topic) + ResourcesSuffix
  }

  /** Capitalising changes only the first letter, and only its case. */
  lemma CapitalizeKeepsLetters(topic: string)
    ensures |Capitalize(topic)| == |topic| && Lower(Capitalize(topic)) == Lower(topic)
  {
    var c := Capitalize(topic);
    forall i | 0 <= i < |topic| ensures Lower(c)[i] == Lower(topic)[i] {
      if i == 0 {
        assert c[0] == UpperChar(topic[0]);
      } else {
        assert c[i] == topic[i];
      }
    }
  }

  /**
   * A topic's heading is the topic, first letter capitalised and the rest
   * untouched, followed by " Resources"; it reads as the topic when case
   * is ignored.
   */
  lemma TitleNamesTopic(topic: string)
    requires topic != AllTopic
    ensures var t := ResourcesTitle(topic);
            |t| == |topic| + |ResourcesSuffix| && t[|topic|..] == ResourcesSuffix &&
            Lower(t[..|topic|]) == Lower(topic) &&
            (topic != "" ==> t[0] == UpperChar(topic[0]) && t[1..|topic|] == topic[1..])
  {
    var t := ResourcesTitle(topic);
    CapitalizeKeepsLetters(topic);
    assert t[..|topic|] == Capitalize(topic);
  }

  // ----------------------------------------------------------- references

  /** The references of the rows whose topic is `topic`, in table order. */
  function ReferencesFor(refs: seq<Reference>, topic: string): (r: seq<Reference>)
    ensures |r| <= |refs|
    ensures forall x :: x in r <==> x in refs && x.topic == topic
  {
    if refs == [] then []
    else
      var rest := ReferencesFor(refs[1..], topic);
      assert forall x :: x in refs <==> x == refs[0] || x in refs[1..];
      (if refs[0].topic == topic then [refs[0]] else []) + rest
  }

  /** The selection distributes over concatenation, so it keeps the table's order. */
  lemma {:induction false} ReferencesAppend(a: seq<Reference>, b: seq<Reference>, topic: string)
    ensures ReferencesFor(a + b, topic) == ReferencesFor(a, topic) + ReferencesFor(b, topic)
  {
    if a == [] {
      assert a + b == b;
    } else {
      assert (a + b)[1..] == a[1..] + b;
      ReferencesAppend(a[1..], b, topic);
    }
  }

  /** The popup's references section is hidden exactly when no reference row has the topic. */
  lemma NoReferencesIffNoRow(refs: seq<Reference>, topic: string)
    ensures ReferencesFor(refs, topic) == [] <==> forall i :: 0 <= i < |refs| ==> refs[i].topic != topic
  {
    if ReferencesFor(refs, topic) != [] {
      assert ReferencesFor(refs, topic)[0] in ReferencesFor(refs, topic);
    }
    if exists i :: 0 <= i < |refs| && refs[i].topic == topic {
      var i :| 0 <= i < |refs| && refs[i].topic == topic;
      assert refs[i] in ReferencesFor(refs, topic);
    }
  }

  // ----------------------------------------------------------------- page

  class LibraryPage {
    const rows: seq<Row>
    /** The `.menu-item`s' `data-topic`s and the `.nav-item`s' ids, in document order. */
    const menuTopics: seq<string>
    const navIds: seq<string>
    const references: seq<Reference>
    /** Which rows are displayed. */
    var visible: seq<bool>
    var title: string
    var menuSelected: seq<bool>
    var boxSelected: seq<bool>
    var navSelected: seq<bool>
    /** The 'hidden' classes of the four sections. */
    var resourcesHidden: bool
    var searchHidden: bool
    var topicsHidden: bool
    var materialsHidden: bool
    /** The popup: open or not, the references in its table, its references section hidden. */
    var popupOpen: bool
    var popupReferences: seq<Reference>
    var referencesHidden: bool

    ghost predicate Valid()
      reads this
    {
      |visible| == |rows| && |menuSelected| == |menuTopics| && |navSelected| == |navIds|
    }

    /** The page as its markup leaves it: every row shown, nothing selected. */
    constructor (rows: seq<Row>, menuTopics: seq<string>, boxes: nat, navIds: seq<string>, references: seq<Reference>)
      ensures this.rows == rows && this.menuTopics == menuTopics && this.navIds == navIds
      ensures this.references == references && |boxSelected| == boxes
      ensures Valid() && !popupOpen
    {
      this.rows := rows;
      this.menuTopics := menuTopics;
      this.navIds := navIds;
      this.references := references;
      visible := seq(|rows|, _ => true);
      title := "";
      menuSelected := seq(|menuTopics|, _ => false);
      boxSelected := seq(boxes, _ => false);
      navSelected := seq(|navIds|, _ => false);
      resourcesHidden, searchHidden, topicsHidden, materialsHidden := false, false, false, false;
      popupOpen := false;
      popupReferences := [];
      referencesHidden := false;
    }

    /**
     * `filterItems(topic)`: a row shows when its topic is `topic` or the
     * topic is 'all'; the heading names the topic; only the first menu item
     * of that topic stays selected (none for 'all'; with no such item the
     * source throws after clearing the menu, which leaves the same state).
     */
    method FilterItems(topic: string)
      requires Valid()
      modifies this`visible, this`title, this`menuSelected
      ensures Valid()
      ensures forall i :: 0 <= i < |rows| ==> (visible[i] <==> rows[i].topic == topic || topic == AllTopic)
      ensures title == ResourcesTitle(topic)
      ensures forall i :: 0 <= i < |menuTopics| ==>
                (menuSelected[i] <==> topic != AllTopic && FirstIndex(menuTopics, topic) == Some(i))
    {
      var v: seq<bool> := [];
      for i := 0 to |rows|
        invariant |v| == i
        invariant forall j :: 0 <= j < i ==> (v[j] <==> rows[j].topic == topic || topic == AllTopic)
      {
        v := v + [rows[i].topic == topic || topic == AllTopic];
      }
      visible := v;
      title := ResourcesTitle(topic);
      var m := menuSelected;
      for i := 0 to |m|
        invariant |m| == |menuTopics|
        invariant forall j :: 0 <= j < i ==> !m[j]
      {
        m := m[i := false];
      }
      if topic != AllTopic {
        var k := FirstIndex(menuTopics, topic);
        if k.Some? {
          m := m[k.value := true];
        }
      }
      menuSelected := m;
    }

    /** `searchResources()`: a row shows exactly when its title contains the term, ignoring case and topic. */
    method SearchResources(term: string)
      requires Valid()
      modifies this`visible
      ensures Valid()
      ensures forall i :: 0 <= i < |rows| ==> (visible[i] <==> Includes(Lower(rows[i].title), Lower(term)))
    {
      var searchTerm := Lower(term);
      var v: seq<bool> := [];
      for i := 0 to |rows|
        invariant |v| == i
        invariant forall j :: 0 <= j < i ==> (v[j] <==> Includes(Lower(rows[j].title), searchTerm))
      {
        v := v + [Includes(Lower(rows[i].title), searchTerm)];
      }
      visible := v;
    }

    /** `showAllResources()`: every row shown, the general heading, no topic box selected. */
    method ShowAllResources()
      requires Valid()
      modifies this`visible, this`title, this`boxSelected
      ensures Valid() && |boxSelected| == |old(boxSelected)|
      ensures forall i :: 0 <= i < |rows| ==> visible[i]
      ensures title == ResourcesTitle(AllTopic)
      ensures forall i :: 0 <= i < |boxSelected| ==> !boxSelected[i]
    {
      var v: seq<bool> := [];
      for i := 0 to |rows|
        invariant |v| == i && forall j :: 0 <= j < i ==> v[j]
      {
        v := v + [true];
      }
      visible := v;
      title := "All Resources";
      var b := boxSelected;
      for i := 0 to |b|
        invariant |b| == |old(boxSelected)|
        invariant forall j :: 0 <= j < i ==> !b[j]
      {
        b := b[i := false];
      }
      boxSelected := b;
    }

    /**
     * A click on nav item `k`: it alone is selected; 'resource-list' shows
     * the resources, search and topics and hides the materials,
     * 'materials' the reverse, any other id leaves the sections alone.
     */
    method NavClick(k: nat)
      requires Valid() && k < |navIds|
      modifies this`navSelected, this`resourcesHidden, this`searchHidden, this`topicsHidden, this`materialsHidden
      ensures Valid()
      ensures forall i :: 0 <= i < |navIds| ==> (navSelected[i] <==> i == k)
      ensures navIds[k] == ResourceListId ==>
                !resourcesHidden && !searchHidden && !topicsHidden && materialsHidden
      ensures navIds[k] == MaterialsId ==>
                resourcesHidden && searchHidden && topicsHidden && !materialsHidden
      ensures navIds[k] != ResourceListId && navIds[k] != MaterialsId ==>
                resourcesHidden == old(resourcesHidden) && searchHidden == old(searchHidden) &&
                topicsHidden == old(topicsHidden) && materialsHidden == old(materialsHidden)
    {
      var s := navSelected;
      for i := 0 to |s|
        invariant |s| == |navIds|
        invariant forall j :: 0 <= j < i ==> !s[j]
      {
        s := s[i := false];
      }
      navSelected := s[k := true];
      if navIds[k] == ResourceListId {
        resourcesHidden, searchHidden, topicsHidden, materialsHidden := false, false, false, true;
      } else if navIds[k] == MaterialsId {
        materialsHidden, searchHidden, resourcesHidden, topicsHidden := false, true, true, true;
      }
    }

    /** The load-time `getElementById('resource-list').click()`. */
    method SelectDefaultView()
      requires Valid()
      modifies this`navSelected, this`resourcesHidden, this`searchHidden, this`topicsHidden, this`materialsHidden
      ensures Valid()
      ensures ResourceListId in navIds ==>
                !resourcesHidden && !searchHidden && !topicsHidden && materialsHidden &&
                forall i :: 0 <= i < |navIds| ==> (navSelected[i] <==> navIds[i] == ResourceListId && FirstIndex(navIds, ResourceListId) == Some(i))
    {
      var k := FirstIndex(navIds, ResourceListId);
      if k.Some? {
        NavClick(k.value);
      }
    }

    /**
     * A click on a material of topic `topic`: the popup opens; its table
     * is refilled and shown when some reference has the topic, and only
     * hidden (keeping its old rows) when none has.
     */
    method MaterialClick(topic: string)
      modifies this`popupOpen, this`popupReferences, this`referencesHidden
      ensures popupOpen
      ensures referencesHidden <==> ReferencesFor(references, topic) == []
      ensures popupReferences == if ReferencesFor(references, topic) == [] then old(popupReferences)
                                 else ReferencesFor(references, topic)
    {
      var refs := ReferencesFor(references, topic);
      if |refs| > 0 {
        popupReferences := refs;
        referencesHidden := false;
      } else {
        referencesHidden := true;
      }
      popupOpen := true;
    }

    /** `closePopup()` */
    method ClosePopup()
      modifies this`popupOpen
      ensures !popupOpen
    {
      popupOpen := false;
    }
  }

  /** The empty search shows every row. */
  lemma EmptySearchShowsAll(r: Row)
    ensures Includes(Lower(r.title), Lower(""))
  {
    IncludesEmpty(Lower(r.title));
  }
}
