/**
 * The desktop D4PG schedule page (d4pg/d4pg-schedule/js/main.js), beyond
 * the grouping in `ScheduleCore` and the carousel in `Carousel`: 12-hour
 * time labels, the fuzzy lookup of a speaker's bio, the flattening of an
 * event's speakers, moderators and panelists into one list, the sidebar
 * filter lists and the visibility they imply, and the "happening now" and
 * "up next" picks.
 *
 * The DOM is replaced by its data: an event block is the attributes the
 * script reads from it, and the script's writes (display, classes, text)
 * are the results of the methods. The wall clock is the parameter `now`.
 */
module ScheduleDesktop {
  import opened Wrappers
  import opened Strings

  // ------------------------------------------------------- 12-hour labels

  /**
   * `/^(\d{1,2}):(\d{2})$/`: the one- or two-digit hour and the two minute
   * digits, or `None` when the text does not have that shape.
   */
  function MatchClock(t: string): (r: Option<(string, string)>)
    ensures r.Some? ==> t == r.value.0 + ":" + r.value.1
    ensures r.Some? ==> 1 <= |r.value.0| <= 2 && AllDigits(r.value.0)
    ensures r.Some? ==> |r.value.1| == 2 && AllDigits(r.value.1)
  {
    if |t| == 4 && IsDigit(t[0]) && t[1] == ':' && IsDigit(t[2]) && IsDigit(t[3]) then
      assert t == t[..1] + ":" + t[2..];
      Some((t[..1], t[2..]))
    else if |t| == 5 && IsDigit(t[0]) && IsDigit(t[1]) && t[2] == ':' && IsDigit(t[3]) && IsDigit(t[4]) then
      assert t == t[..2] + ":" + t[3..];
      Some((t[..2], t[3..]))
    else None
  }

  /** Every "H:MM" and "HH:MM" text is matched, and split where the colon is. */
  lemma MatchClockComplete(h: string, m: string)
    requires 1 <= |h| <= 2 && AllDigits(h)
    requires |m| == 2 && AllDigits(m)
    ensures MatchClock(h + ":" + m) == Some((h, m))
  {
    var t := h + ":" + m;
    if |h| == 1 {
      assert t[..1] == h && t[2..] == m;
    } else {
      assert t[..2] == h && t[3..] == m;
    }
  }

  /** The hour as shown on a 12-hour clock. */
  function Hour12(h: nat): (r: nat)
    ensures r > 0 && r % 12 == h % 12
    ensures h <= 24 ==> r <= 12
  {
    if h == 0 then 12 else if h > 12 then h - 12 else h
  }

  /** `hours >= 12 ? 'PM' : 'AM'` */
  function Meridiem(h: nat): string {
    if h >= 12 then "PM" else "AM"
  }

  /** Reading a 12-hour clock back: the reference for `Hour12` and `Meridiem`. */
  function To24(h12: nat, meridiem: string): nat {
    if meridiem == "AM" then (if h12 == 12 then 0 else h12)
    else (if h12 == 12 then 12 else h12 + 12)
  }

  /**
   * `formatTimeTo12Hour(time24)`: an empty text, and any text that is not
   * "H:MM" or "HH:MM", comes back unchanged.
   */
  function FormatTimeTo12Hour(t: string): (r: string)
    ensures t == "" || MatchClock(t).None? ==> r == t
  {
    if t == "" then t
    else match MatchClock(t)
      case None => t
      case Some((hs, ms)) =>
        var h := DigitsValue(hs);
        NatToString(Hour12(h)) + (":" + ms + " " + Meridiem(h))
  }

  /**
   * A matched time is shown as its 12-hour hour, the minute digits exactly
   * as given and the meridiem; for the hours of a day the label reads back
   * to the hour it came from, and its hour lies in 1..12.
   */
  lemma FormatTimeTo12HourClock(hs: string, ms: string)
    requires 1 <= |hs| <= 2 && AllDigits(hs)
    requires |ms| == 2 && AllDigits(ms)
    ensures var r := FormatTimeTo12Hour(hs + ":" + ms);
            var h := DigitsValue(hs);
            && r == NatToString(Hour12(h)) + (":" + ms + " " + Meridiem(h))
            && ParseInt(r) == Some(Hour12(h))
  {
    var t := hs + ":" + ms;
    MatchClockComplete(hs, ms);
    var h := DigitsValue(hs);
    var tail := ":" + ms + " " + Meridiem(h);
    assert t != "" && MatchClock(t) == Some((hs, ms));
    assert FormatTimeTo12Hour(t) == NatToString(Hour12(h)) + tail;
    assert tail[0] == ':';
    ParseIntPrefix(Hour12(h), tail);
  }

  /**
   * For the hours of a day the 12-hour hour lies in 1..12, and reading it
   * back with its meridiem gives the hour it came from: 0 is 12 AM, 12 is
   * 12 PM, 13..23 are 1..11 PM.
   */
  lemma Hour12RoundTrip(h: nat)
    requires h < 24
    ensures 1 <= Hour12(h) <= 12
    ensures To24(Hour12(h), Meridiem(h)) == h
  {
    assert "PM" != "AM" by { assert "PM"[0] != "AM"[0]; }
  }

  // ------------------------------------------------------- speaker lookup

  /** An entry of the speaker-bios file. */
  datatype Bio = Bio(name: string, photo: string, title: string)

  /** What `findSpeakerInfo` hands back. */
  datatype SpeakerInfo = SpeakerInfo(photo: string, title: string, name: string)

  /** The honorifics that never count as a significant word. */
  const Honorifics: seq<string> := ["dr.", "dr", "prof.", "prof", "ms.", "ms", "mr.", "mr", "phd", "ph.d."]

  /** `word.length > 2 && !honorifics.includes(word)` */
  predicate Significant(w: string) {
    |w| > 2 && w !in Honorifics
  }

  /** `nameWords.filter(...)` */
  function SignificantWords(words: seq<string>): (r: seq<string>)
    ensures forall w :: w in r <==> w in words && Significant(w)
  {
    if words == [] then []
    else (if Significant(words[0]) then [words[0]] else []) + SignificantWords(words[1..])
  }

  /** `bioWords.some(bioWord => bioWord.includes(word) || word.includes(bioWord))` */
  predicate WordFound(word: string, bioWords: seq<string>) {
    exists j :: 0 <= j < |bioWords| && (Includes(bioWords[j], word) || Includes(word, bioWords[j]))
  }

  /**
   * The `find` callback for a cleaned (trimmed, lower-cased) name: an exact
   * match of the lower-cased bio name, or every significant word of the
   * name found among the bio name's words.
   */
  predicate NameMatches(cleanName: string, bio: Bio) {
    var bioName := Lower(bio.name);
    bioName == cleanName ||
    forall w :: w in SignificantWords(SplitWhite(cleanName)) ==> WordFound(w, SplitWhite(bioName))
  }

  /** The first bio, from `k` on, that the name matches. */
  function FirstMatch(bios: seq<Bio>, cleanName: string, k: nat): (r: Option<nat>)
    ensures r.Some? ==> k <= r.value < |bios| && NameMatches(cleanName, bios[r.value])
    ensures r.Some? ==> forall j :: k <= j < r.value ==> !NameMatches(cleanName, bios[j])
    ensures r.None? ==> forall j :: k <= j < |bios| ==> !NameMatches(cleanName, bios[j])
    decreases |bios| - k
  {
    if k >= |bios| then None
    else if NameMatches(cleanName, bios[k]) then Some(k)
    else FirstMatch(bios, cleanName, k + 1)
  }

  /**
   * `findSpeakerInfo(speakerName)`: no bios file (or no speaker list in it)
   * gives `None`; otherwise the photo, title and name of the first bio the
   * name matches, or `None` when none does.
   */
  function FindSpeakerInfo(bios: Option<seq<Bio>>, speakerName: string): (r: Option<SpeakerInfo>)
    ensures bios.None? ==> r.None?
    ensures bios.Some? ==>
              (r.None? <==> forall j :: 0 <= j < |bios.value| ==> !NameMatches(Lower(Trim(speakerName)), bios.value[j]))
    ensures r.Some? ==>
              exists k :: (0 <= k < |bios.value| &&
                NameMatches(Lower(Trim(speakerName)), bios.value[k]) &&
                (forall j :: 0 <= j < k ==> !NameMatches(Lower(Trim(speakerName)), bios.value[j])) &&
                r.value == SpeakerInfo(bios.value[k].photo, bios.value[k].title, bios.value[k].name))
  {
    if bios.None? then None
    else match FirstMatch(bios.value, Lower(Trim(speakerName)), 0)
      case None => None
      case Some(k) =>
        var b := bios.value[k];
        Some(SpeakerInfo(b.photo, b.title, b.name))
  }

  /** A bio whose lower-cased name is the cleaned name is found, or an earlier match is. */
  lemma ExactNameFound(bios: seq<Bio>, speakerName: string, k: nat)
    requires k < |bios| && Lower(bios[k].name) == Lower(Trim(speakerName))
    ensures FindSpeakerInfo(Some(bios), speakerName).Some?
  {
    assert NameMatches(Lower(Trim(speakerName)), bios[k]);
  }

  /**
   * A name made only of short words and honorifics has no significant word,
   * so it matches the first bio of a non-empty list.
   */
  lemma NoSignificantWordMatchesFirst(bios: seq<Bio>, speakerName: string)
    requires |bios| > 0
    requires SignificantWords(SplitWhite(Lower(Trim(speakerName)))) == []
    ensures FindSpeakerInfo(Some(bios), speakerName) ==
            Some(SpeakerInfo(bios[0].photo, bios[0].title, bios[0].name))
  {
    assert NameMatches(Lower(Trim(speakerName)), bios[0]);
  }

  /** "Dr. Li" cleans to words "dr." and "li", neither of which is significant. */
  lemma HonorificOnlyExample(bios: seq<Bio>)
    requires |bios| > 0
    ensures FindSpeakerInfo(Some(bios), "Dr. Li") == Some(SpeakerInfo(bios[0].photo, bios[0].title, bios[0].name))
  {
    CleanDrLi();
    SplitDrLi();
    assert SignificantWords(["dr.", "li"]) == [];
    NoSignificantWordMatchesFirst(bios, "Dr. Li");
  }

  lemma CleanDrLi()
    ensures Lower(Trim("Dr. Li")) == "dr. li"
  {
    assert TrimStart("Dr. Li") == "Dr. Li";
    assert TrimEnd("Dr. Li") == "Dr. Li";
  }

  lemma SplitDrLi()
    ensures SplitWhite("dr. li") == ["dr.", "li"]
  {
    var clean := "dr. li";
    assert IsWhite(clean[3]) && !IsWhite(clean[0]) && !IsWhite(clean[1]) && !IsWhite(clean[2]);
    assert FirstWhite(clean, 0) == Some(3);
    assert SkipWhite(clean, 3) == 4;
    assert clean[..3] == "dr." && clean[4..] == "li";
    assert FirstWhite("li", 0) == None;
  }

  /**
   * A bio name split with an empty word (a name with leading or trailing
   * whitespace, or an empty name) contains every word, so every speaker
   * name matches it.
   */
  lemma EmptyBioWordMatchesAll(cleanName: string, bio: Bio)
    requires "" in SplitWhite(Lower(bio.name))
    ensures NameMatches(cleanName, bio)
  {
    var words := SplitWhite(Lower(bio.name));
    var j :| 0 <= j < |words| && words[j] == "";
    forall w | w in SignificantWords(SplitWhite(cleanName))
      ensures WordFound(w, words)
    {
      IncludesEmpty(w);
      assert Includes(w, words[j]);
    }
  }

  // ------------------------------------------------------- event people

  /** A person record of the schedule data; an empty field stands for a missing (falsy) one. */
  datatype Person = Person(name: string, title: string, role: string)

  /** An entry of `peopleArray`. */
  datatype Entry = Entry(name: string, role: string)

  /**
   * `event.people`: absent, an array of ready entries, or an object with
   * optional `speakers`, `moderator` and `panelists`.
   */
  datatype People =
    | NoPeople
    | PeopleList(entries: seq<Entry>)
    | PeopleRecord(speakers: Option<seq<Person>>, moderator: Option<Person>, panelists: Option<seq<Person>>)

  /** The parts of a schedule event that `addEventPeople` reads. */
  datatype EventPeople = EventPeople(
    eventType: string,
    people: People,
    speakers: Option<seq<Person>>,
    moderator: Option<Person>,
    panelists: Option<seq<Person>>)

  /** `p.title || p.role || fallback` */
  function RoleOr(p: Person, fallback: string): (r: string)
    ensures fallback != "" ==> r != ""
  {
    if p.title != "" then p.title else if p.role != "" then p.role else fallback
  }

  /** One entry per person, with the role defaulted. */
  function Entries(ps: seq<Person>, fallback: string): (r: seq<Entry>)
    ensures |r| == |ps|
    ensures forall i :: 0 <= i < |ps| ==> r[i] == Entry(ps[i].name, RoleOr(ps[i], fallback))
  {
    seq(|ps|, i requires 0 <= i < |ps| => Entry(ps[i].name, RoleOr(ps[i], fallback)))
  }

  function EntriesOf(ps: Option<seq<Person>>, fallback: string): seq<Entry> {
    if ps.Some? then Entries(ps.value, fallback) else []
  }

  function EntryOf(p: Option<Person>, fallback: string): seq<Entry> {
    if p.Some? then [Entry(p.value.name, RoleOr(p.value, fallback))] else []
  }

  /** What `event.people` contributes. */
  function PeopleField(people: People): seq<Entry> {
    match people
    case NoPeople => []
    case PeopleList(entries) => entries
    case PeopleRecord(speakers, moderator, panelists) =>
      (if speakers.Some? then Entries(speakers.value, "Speaker") else EntryOf(moderator, "Moderator")) +
      EntriesOf(panelists, "Panelist")
  }

  /**
   * The flattened list: the `people` field first, then the event's own
   * speakers, moderator and panelists, in that order.
   */
  function PeopleOf(e: EventPeople): (r: seq<Entry>)
    ensures e.speakers.Some? ==> forall p :: p in e.speakers.value ==> Entry(p.name, RoleOr(p, "Speaker")) in r
    ensures e.moderator.Some? ==> Entry(e.moderator.value.name, RoleOr(e.moderator.value, "Moderator")) in r
    ensures e.panelists.Some? ==> forall p :: p in e.panelists.value ==> Entry(p.name, RoleOr(p, "Panelist")) in r
  {
    PeopleField(e.people) + EntriesOf(e.speakers, "Speaker") +
    EntryOf(e.moderator, "Moderator") + EntriesOf(e.panelists, "Panelist")
  }

  /** The `forEach(... push ...)` loops. */
  method PushAll(acc: seq<Entry>, ps: seq<Person>, fallback: string) returns (r: seq<Entry>)
    ensures r == acc + Entries(ps, fallback)
  {
    r := acc;
    var k := 0;
    while k < |ps|
      invariant 0 <= k <= |ps|
      invariant r == acc + Entries(ps[..k], fallback)
    {
      r := r + [Entry(ps[k].name, RoleOr(ps[k], fallback))];
      k := k + 1;
    }
    assert ps[..k] == ps;
  }

  /** One row of the plain layout: the name, and the role line when the role is truthy. */
  datatype Row = Row(name: string, role: Option<string>)

  /** The people section `addEventPeople` appends, if any. */
  datatype Section =
    | NoSection
    | PanelSection(moderator: Entry, heading: string, panelists: seq<Entry>)
    | ListSection(rows: seq<Row>)

  /**
   * The section for a flattened list: nothing for no people; for a panel
   * with several people the first is shown as moderator and the rest under
   * "Panelists (n)"; otherwise one row per person.
   */
  function RenderPeople(eventType: string, people: seq<Entry>): (r: Section)
    ensures r.NoSection? <==> people == []
    ensures r.PanelSection? <==> eventType == "panel" && |people| > 1
    ensures r.PanelSection? ==>
              [r.moderator] + r.panelists == people &&
              r.heading == "Panelists (" + NatToString(|people| - 1) + ")"
    ensures r.ListSection? ==> |r.rows| == |people|
    ensures r.ListSection? ==>
              forall i :: 0 <= i < |people| ==>
                (r.rows[i].name == people[i].name &&
                 (r.rows[i].role.Some? <==> people[i].role != "") &&
                 (r.rows[i].role.Some? ==> r.rows[i].role.value == people[i].role))
  {
    if people == [] then NoSection
    else if eventType == "panel" && |people| > 1 then
      assert [people[0]] + people[1..] == people;
      PanelSection(people[0], "Panelists (" + NatToString(|people[1..]|) + ")", people[1..])
    else
      ListSection(seq(|people|, i requires 0 <= i < |people| =>
        Row(people[i].name, if people[i].role != "" then Some(people[i].role) else None)))
  }

  /** The part of `addEventPeople` that reads `event.people`. */
  method PeopleFieldEntries(people: People) returns (r: seq<Entry>)
    ensures r == PeopleField(people)
  {
    r := [];
    match people {
      case NoPeople =>
      case PeopleList(entries) =>
        r := entries;
      case PeopleRecord(speakers, moderator, panelists) =>
        if speakers.Some? {
          r := Entries(speakers.value, "Speaker");
        } else if moderator.Some? {
          r := r + [Entry(moderator.value.name, RoleOr(moderator.value, "Moderator"))];
        }
        if panelists.Some? {
          r := PushAll(r, panelists.value, "Panelist");
        }
    }
  }

  /** `addEventPeople(eventElement, event)`: the flattened list and the section it renders. */
  method AddEventPeople(e: EventPeople) returns (peopleArray: seq<Entry>, section: Section)
    ensures peopleArray == PeopleOf(e)
    ensures section == RenderPeople(e.eventType, peopleArray)
  {
    peopleArray := PeopleFieldEntries(e.people);
    if e.speakers.Some? {
      peopleArray := PushAll(peopleArray, e.speakers.value, "Speaker");
    }
    assert peopleArray == PeopleField(e.people) + EntriesOf(e.speakers, "Speaker");
    if e.moderator.Some? {
      peopleArray := peopleArray + [Entry(e.moderator.value.name, RoleOr(e.moderator.value, "Moderator"))];
    }
    assert peopleArray == PeopleField(e.people) + EntriesOf(e.speakers, "Speaker") + EntryOf(e.moderator, "Moderator");
    if e.panelists.Some? {
      peopleArray := PushAll(peopleArray, e.panelists.value, "Panelist");
    }
    section := RenderPeople(e.eventType, peopleArray);
  }

  /**
   * Every person taken from a record gets a role: their title, else their
   * role, else the default of the field they were listed under; only the
   * ready entries of a `people` array keep whatever role they carry.
   */
  lemma RolesFilledIn(e: EventPeople)
    requires !e.people.PeopleList?
    ensures forall i :: 0 <= i < |PeopleOf(e)| ==> PeopleOf(e)[i].role != ""
  {
  }

  /**
   * The list holds one entry per person of every source, so a `people`
   * object with speakers hides its moderator, and a `people` array is kept
   * as it is.
   */
  lemma PeopleCount(e: EventPeople)
    ensures |PeopleOf(e)| ==
            |PeopleField(e.people)| + |EntriesOf(e.speakers, "Speaker")| +
            |EntryOf(e.moderator, "Moderator")| + |EntriesOf(e.panelists, "Panelist")|
    ensures e.people.PeopleRecord? && e.people.speakers.Some? ==>
              |PeopleField(e.people)| == |e.people.speakers.value| + |EntriesOf(e.people.panelists, "Panelist")|
    ensures e.people.PeopleList? ==> PeopleOf(e)[..|e.people.entries|] == e.people.entries
  {
  }

  // ------------------------------------------------------- sidebar filters

  /** The list is duplicate-free. */
  predicate Distinct(xs: seq<string>) {
    forall i, j :: 0 <= i < j < |xs| ==> xs[i] != xs[j]
  }

  /** `['all']`, or a non-empty duplicate-free list without 'all'. */
  predicate WellFormed(active: seq<string>) {
    active == ["all"] || (|active| > 0 && "all" !in active && Distinct(active))
  }

  /** `list.filter(f => f !== x)` */
  function Without(xs: seq<string>, x: string): (r: seq<string>)
    ensures forall y :: y in r <==> y in xs && y != x
    ensures |r| <= |xs|
    ensures Distinct(xs) ==> Distinct(r)
  {
    if xs == [] then []
    else
      var rest := Without(xs[1..], x);
      if xs[0] == x then rest
      else
        assert xs[0] !in xs[1..] || !Distinct(xs);
        [xs[0]] + rest
  }

  /**
   * The new active list after the change event of box `filter`, whose new
   * checked state is `isChecked`. `othersChecked` says whether any box other
   * than "All" is checked at that moment, `hasAll` whether an "All" box
   * exists.
   */
  function NextActive(active: seq<string>, filter: string, isChecked: bool,
                      othersChecked: bool, hasAll: bool): (r: seq<string>)
    ensures filter != "all" && isChecked ==> filter in r && "all" !in r
    ensures filter != "all" && !isChecked ==> filter !in r
    ensures filter != "all" ==> forall x :: x != "all" && x != filter ==> (x in r <==> x in active)
  {
    if filter == "all" then
      if isChecked || !othersChecked then ["all"] else active
    else if isChecked then
      var kept := Without(active, "all");
      if filter in kept then kept else kept + [filter]
    else
      var kept := Without(active, filter);
      if kept == [] && hasAll then ["all"] else kept
  }

  /**
   * Every change keeps the list `['all']` or a non-empty duplicate-free list
   * without 'all', except the removal of the last specific filter when no
   * "All" box exists, which leaves it empty.
   */
  lemma NextActiveWellFormed(active: seq<string>, filter: string, isChecked: bool,
                             othersChecked: bool, hasAll: bool)
    requires WellFormed(active)
    requires filter == "all" || isChecked || hasAll
    ensures WellFormed(NextActive(active, filter, isChecked, othersChecked, hasAll))
  {
    if filter != "all" && isChecked {
      var kept := Without(active, "all");
      assert Distinct(active) || active == ["all"];
      if filter !in kept {
        assert Distinct(kept + [filter]) by {
          assert Distinct(kept) by {
            if active == ["all"] { assert kept == []; }
          }
        }
      }
    } else if filter != "all" {
      if active != ["all"] {
        assert Distinct(Without(active, filter));
      }
    }
  }

  /**
   * Unchecking the last specific filter reverts to `['all']`; unchecking
   * "All" while specific boxes are checked leaves the list as it was;
   * checking "All" always gives `['all']`.
   */
  lemma NextActiveCases(active: seq<string>, filter: string, othersChecked: bool)
    ensures filter != "all" && active == [filter] ==>
              NextActive(active, filter, false, othersChecked, true) == ["all"]
    ensures othersChecked ==> NextActive(active, "all", false, othersChecked, true) == active
    ensures NextActive(active, "all", true, othersChecked, true) == ["all"]
  {
    if filter != "all" && active == [filter] {
      assert Without(active, filter) == [];
    }
  }

  /**
   * One filter dimension of `setupFilters` (event types, or locations,
   * which repeat the same handler): the active list, the set of checked
   * boxes, and the boxes present.
   */
  class SidebarFilter {
    /** The `data-filter` values of the boxes on the page ("all" for the "All" box). */
    const boxes: set<string>
    /** `activeTypeFilters` */
    var active: seq<string>
    /** The values of the checked boxes. */
    var checked: set<string>

    /** An "All" box exists (`#sidebar-all`). */
    predicate HasAll()
    {
      "all" in boxes
    }

    /**
     * The list and the boxes agree: the specific filters in the list are the
     * checked specific boxes, 'all' is in the list iff its box is checked
     * (when it exists), and with an "All" box the list is well formed.
     */
    ghost predicate Valid()
      reads this
    {
      && checked <= boxes
      && Distinct(active)
      && ("all" in active ==> active == ["all"])
      && (forall x :: x != "all" ==> (x in active <==> x in checked))
      && (HasAll() ==> ("all" in active <==> "all" in checked))
      && (HasAll() ==> WellFormed(active))
    }

    /** Page load: "All" checked and the list `['all']`. */
    constructor (boxes: set<string>)
      ensures Valid()
      ensures this.boxes == boxes && active == ["all"]
    {
      this.boxes := boxes;
      active := ["all"];
      checked := if "all" in boxes then {"all"} else {};
    }

    /**
     * The change handler of box `filter`, after the browser has set its
     * checked state to `isChecked`.
     */
    method Change(filter: string, isChecked: bool)
      requires Valid() && filter in boxes
      modifies this`active, this`checked
      ensures Valid()
      ensures active == NextActive(old(active), filter, isChecked,
                                   exists x :: x in old(checked) && x != "all" && x != filter, HasAll())
    {
      ghost var othersChecked := exists x :: x in old(checked) && x != "all" && x != filter;
      if filter == "all" {
        checked := if isChecked then checked + {filter} else checked - {filter};
        if isChecked {
          checked := {"all"};
          active := ["all"];
        } else {
          var anyChecked := checked != {};
          if anyChecked {
            var x :| x in checked;
            assert x != "all" && x != filter;
          }
          if !anyChecked {
            assert !othersChecked by {
              assert forall x :: x in old(checked) && x != "all" ==> x in checked;
            }
            checked := checked + {"all"};
            active := ["all"];
          }
        }
      } else {
        if isChecked {
          checked := checked + {filter};
          if HasAll() {
            checked := checked - {"all"};
          }
          active := Without(active, "all");
          if filter !in active {
            active := active + [filter];
          }
        } else {
          checked := checked - {filter};
          active := Without(active, filter);
          if |active| == 0 {
            if HasAll() {
              checked := checked + {"all"};
              active := ["all"];
            }
          }
        }
      }
    }
  }

  // ------------------------------------------------------- visibility

  /** A workshop card inside a concurrent block: its `data-type` and `data-location`, when set. */
  datatype Card = Card(cardType: Option<string>, cardLocation: Option<string>)

  /**
   * An `.event-block`: its `data-type` and `data-location` attributes (the
   * comma-joined values of a concurrent block; "" when missing) and, for a
   * concurrent block, its workshop cards.
   */
  datatype Block = Block(types: string, locations: string, concurrent: bool, cards: seq<Card>)

  /** `attr ? attr.split(',') : []` */
  function AttrList(attr: string): seq<string> {
    if attr == "" then [] else SplitOn(attr, ",")
  }

  /** `active.includes('all') || values.some(v => active.includes(v))` */
  predicate AnyActive(active: seq<string>, attr: string) {
    "all" in active || exists v :: v in AttrList(attr) && v in active
  }

  /** `active.includes('all') || active.includes(value)` */
  predicate CardValueActive(active: seq<string>, v: Option<string>) {
    "all" in active || (v.Some? && v.value in active)
  }

  predicate CardShown(types: seq<string>, locations: seq<string>, c: Card) {
    CardValueActive(types, c.cardType) && CardValueActive(locations, c.cardLocation)
  }

  /**
   * A block is shown when its types and its locations both meet the
   * filters, and a concurrent block also when any of its cards is shown.
   */
  predicate BlockShown(types: seq<string>, locations: seq<string>, b: Block) {
    (b.concurrent && exists j :: 0 <= j < |b.cards| && CardShown(types, locations, b.cards[j])) ||
    (AnyActive(types, b.types) && AnyActive(locations, b.locations))
  }

  /** The loop over a concurrent block's workshop cards. */
  method ShowCards(types: seq<string>, locations: seq<string>, cards: seq<Card>)
    returns (shown: seq<bool>, any: bool)
    ensures |shown| == |cards|
    ensures forall j :: 0 <= j < |cards| ==> shown[j] == CardShown(types, locations, cards[j])
    ensures any <==> exists j :: 0 <= j < |cards| && CardShown(types, locations, cards[j])
  {
    shown := [];
    any := false;
    var j := 0;
    while j < |cards|
      invariant 0 <= j <= |cards| && |shown| == j
      invariant forall i :: 0 <= i < j ==> shown[i] == CardShown(types, locations, cards[i])
      invariant any <==> exists i :: 0 <= i < j && CardShown(types, locations, cards[i])
    {
      var cardTypeMatches := "all" in types || (cards[j].cardType.Some? && cards[j].cardType.value in types);
      var cardLocationMatches := "all" in locations || (cards[j].cardLocation.Some? && cards[j].cardLocation.value in locations);
      shown := shown + [cardTypeMatches && cardLocationMatches];
      if cardTypeMatches && cardLocationMatches {
        any := true;
      }
      j := j + 1;
    }
  }

  /**
   * The display of a block's workshop cards: for a concurrent block one
   * entry per card, that card's filter verdict; other blocks' cards are
   * left alone (`[]`).
   */
  predicate CardsAgree(types: seq<string>, locations: seq<string>, b: Block, shown: seq<bool>) {
    if b.concurrent then
      |shown| == |b.cards| &&
      forall j :: 0 <= j < |b.cards| ==> shown[j] == CardShown(types, locations, b.cards[j])
    else shown == []
  }

  /** The cards' display `CardsAgree` describes. */
  function CardDisplay(types: seq<string>, locations: seq<string>, b: Block): (r: seq<bool>)
    ensures CardsAgree(types, locations, b, r)
  {
    if b.concurrent then seq(|b.cards|, j requires 0 <= j < |b.cards| => CardShown(types, locations, b.cards[j]))
    else []
  }

  /** A prefix one longer is the prefix with the next element appended. */
  lemma PrefixStep<T>(s: seq<T>, k: nat)
    requires k < |s|
    ensures s[..k + 1] == s[..k] + [s[k]]
  {
  }

  /** One block's turn in `updateEventVisibility()`: whether it shows, and its cards' display. */
  method ShowBlock(types: seq<string>, locations: seq<string>, b: Block) returns (visible: bool, cards: seq<bool>)
    ensures visible == BlockShown(types, locations, b)
    ensures cards == CardDisplay(types, locations, b)
  {
    var typeMatches := AnyActive(types, b.types);
    var locationMatches := AnyActive(locations, b.locations);
    if b.concurrent {
      var hasVisibleWorkshops;
      cards, hasVisibleWorkshops := ShowCards(types, locations, b.cards);
      visible := hasVisibleWorkshops || (typeMatches && locationMatches);
    } else {
      visible := typeMatches && locationMatches;
      cards := [];
    }
  }

  /**
   * `updateEventVisibility()`: which blocks and which workshop cards are
   * displayed, and whether the "No events found matching your filters"
   * message is added (an active day timeline exists and no block is shown).
   */
  method UpdateEventVisibility(types: seq<string>, locations: seq<string>, blocks: seq<Block>, hasTimeline: bool)
    returns (shown: seq<bool>, cardsShown: seq<seq<bool>>, message: bool)
    ensures |shown| == |blocks| && |cardsShown| == |blocks|
    ensures forall i :: 0 <= i < |blocks| ==> shown[i] == BlockShown(types, locations, blocks[i])
    ensures forall i :: 0 <= i < |blocks| ==> CardsAgree(types, locations, blocks[i], cardsShown[i])
    ensures message <==> hasTimeline && forall i :: 0 <= i < |blocks| ==> !shown[i]
  {
    ghost var verdicts := seq(|blocks|, i requires 0 <= i < |blocks| => BlockShown(types, locations, blocks[i]));
    ghost var displays := seq(|blocks|, i requires 0 <= i < |blocks| => CardDisplay(types, locations, blocks[i]));
    shown, cardsShown := [], [];
    var visibleCount := 0;
    var k := 0;
    while k < |blocks|
      invariant 0 <= k <= |blocks|
      invariant shown == verdicts[..k] && cardsShown == displays[..k]
      invariant visibleCount == 0 <==> true !in shown
    {
      var visible, cards := ShowBlock(types, locations, blocks[k]);
      assert true in shown + [visible] <==> true in shown || visible;
      PrefixStep(verdicts, k);
      PrefixStep(displays, k);
      cardsShown := cardsShown + [cards];
      shown := shown + [visible];
      if visible {
        visibleCount := visibleCount + 1;
      }
      k := k + 1;
    }
    assert shown == verdicts && cardsShown == displays;
    message := visibleCount == 0 && hasTimeline;
  }

  /**
   * With both lists at `['all']` every block is shown, so the message
   * appears only for an empty timeline; a concurrent block stays shown while
   * any one of its cards passes, whatever its combined attributes say.
   */
  lemma AllShowsEverything(b: Block)
    ensures BlockShown(["all"], ["all"], b)
    ensures forall types, locations, j ::
              b.concurrent && 0 <= j < |b.cards| && CardShown(types, locations, b.cards[j]) ==>
              BlockShown(types, locations, b)
  {
  }

  /** A block whose attribute lists one active value meets that filter. */
  lemma ListedValueActive(active: seq<string>, attr: string, k: nat)
    requires k < |AttrList(attr)| && AttrList(attr)[k] in active
    ensures AnyActive(active, attr)
  {
    assert AttrList(attr)[k] in AttrList(attr);
  }

  // ------------------------------------------------------- now and next

  /**
   * `time.split(':').map(num => parseInt(num))` as destructured into hours
   * and minutes; `None` is NaN (a missing piece, or one that does not start
   * with a digit).
   */
  datatype Clock = Clock(hours: Option<nat>, minutes: Option<nat>)

  function ClockParts(t: string): Clock {
    var pieces := SplitOn(t, ":");
    Clock(ParseInt(pieces[0]), if |pieces| > 1 then ParseInt(pieces[1]) else None)
  }

  /** "H:MM" and "HH:MM" texts read as their hour and minute values. */
  lemma ClockPartsOfDigits(hs: string, ms: string)
    requires hs != "" && AllDigits(hs) && ms != "" && AllDigits(ms)
    ensures ClockParts(hs + ":" + ms) == Clock(Some(DigitsValue(hs)), Some(DigitsValue(ms)))
  {
    assert ':' !in hs && ':' !in ms by {
      assert forall i :: 0 <= i < |hs| ==> hs[i] != ':';
      assert forall i :: 0 <= i < |ms| ==> ms[i] != ':';
    }
    SplitOnce(hs, ':', ms);
    ParseIntOfDigits(hs);
    ParseIntOfDigits(ms);
  }

  /**
   * An `.event-block` as `updateCurrentEvents` reads it: its `data-start`
   * and `data-end` as read by `ClockParts`, and its title text.
   */
  datatype Slot = Slot(start: Clock, end: Clock, title: string)

  /** The start in minutes, moved 12 hours on when its hour is before 6; `None` is NaN. */
  function ShiftedStart(start: Clock): Option<int> {
    if start.hours.Some? && start.minutes.Some? then
      var h := start.hours.value;
      Some(h * 60 + start.minutes.value + (if h < 6 then 720 else 0))
    else None
  }

  /**
   * The end in minutes, moved 12 hours on when its hour is before 6 or it
   * falls before the (shifted) start; `None` is NaN.
   */
  function ShiftedEnd(start: Clock, end: Clock): Option<int> {
    if end.hours.Some? && end.minutes.Some? then
      var h := end.hours.value;
      var e := h * 60 + end.minutes.value;
      var s := ShiftedStart(start);
      Some(if h < 6 || (s.Some? && e < s.value) then e + 720 else e)
    else None
  }

  /** A slot's shifted start and end; `None` is NaN. */
  datatype Window = Window(start: Option<int>, end: Option<int>)

  function WindowOf(slot: Slot): Window {
    Window(ShiftedStart(slot.start), ShiftedEnd(slot.start, slot.end))
  }

  /** The windows of all slots, in order. */
  function Windows(slots: seq<Slot>): (r: seq<Window>)
    ensures |r| == |slots|
    ensures forall i :: 0 <= i < |slots| ==> r[i] == WindowOf(slots[i])
  {
    seq(|slots|, i requires 0 <= i < |slots| => WindowOf(slots[i]))
  }

  /** `now >= start && now < end`, false whenever a side is NaN. */
  predicate InWindow(w: Window, now: int) {
    w.start.Some? && w.end.Some? && w.start.value <= now < w.end.value
  }

  /** The last current window, whose title the first pass leaves in place. */
  function LastCurrent(ws: seq<Window>, now: int): (r: Option<nat>)
    ensures r.Some? ==> r.value < |ws| && InWindow(ws[r.value], now)
    ensures r.Some? ==> forall j :: r.value < j < |ws| ==> !InWindow(ws[j], now)
    ensures r.None? <==> forall j :: 0 <= j < |ws| ==> !InWindow(ws[j], now)
  {
    if ws == [] then None
    else if InWindow(ws[|ws| - 1], now) then Some(|ws| - 1)
    else
      assert forall j :: 0 <= j < |ws| - 1 ==> ws[..|ws| - 1][j] == ws[j];
      LastCurrent(ws[..|ws| - 1], now)
  }

  /** A window that starts after `now`. */
  predicate Later(w: Window, now: int) {
    w.start.Some? && w.start.value > now
  }

  /**
   * The window the second pass settles on: the earliest later start, and
   * of several with that start, the first.
   */
  function FirstUpcoming(ws: seq<Window>, now: int): (r: Option<nat>)
    ensures r.Some? ==> r.value < |ws| && Later(ws[r.value], now)
    ensures r.Some? ==> forall j :: 0 <= j < |ws| && Later(ws[j], now) ==>
              ws[r.value].start.value <= ws[j].start.value
    ensures r.Some? ==> forall j :: 0 <= j < r.value && Later(ws[j], now) ==>
              ws[r.value].start.value < ws[j].start.value
    ensures r.None? <==> forall j :: 0 <= j < |ws| ==> !Later(ws[j], now)
  {
    if ws == [] then None
    else
      var init := ws[..|ws| - 1];
      var last := ws[|ws| - 1];
      var p := FirstUpcoming(init, now);
      assert forall j :: 0 <= j < |init| ==> ws[j] == init[j];
      if Later(last, now) && (p.None? || last.start.value < init[p.value].start.value)
      then Some(|ws| - 1)
      else p
  }

  /** A title, or the default text when no slot qualifies. */
  function TitleOr(slots: seq<Slot>, pick: Option<nat>, default: string): string
    requires pick.Some? ==> pick.value < |slots|
  {
    if pick.Some? then slots[pick.value].title else default
  }

  /** One more window: it is the last current one if it is current, else the last current one stays. */
  lemma LastCurrentStep(ws: seq<Window>, k: nat, now: int)
    requires k < |ws|
    ensures LastCurrent(ws[..k + 1], now) == if InWindow(ws[k], now) then Some(k) else LastCurrent(ws[..k], now)
  {
    assert ws[..k + 1][..k] == ws[..k];
  }

  /** The first pass of `updateCurrentEvents`: mark the current slots, keep the last one's title. */
  method MarkCurrent(slots: seq<Slot>, now: int) returns (current: seq<bool>, currentEventTitle: string)
    ensures |current| == |slots|
    ensures forall i :: 0 <= i < |slots| ==> current[i] == InWindow(Windows(slots)[i], now)
    ensures currentEventTitle == TitleOr(slots, LastCurrent(Windows(slots), now), "No events currently happening")
  {
    ghost var all := Windows(slots);
    current := [];
    currentEventTitle := "No events currently happening";
    var k := 0;
    while k < |slots|
      invariant 0 <= k <= |slots| && |current| == k
      invariant forall i :: 0 <= i < k ==> current[i] == InWindow(all[i], now)
      invariant currentEventTitle == TitleOr(slots, LastCurrent(all[..k], now), "No events currently happening")
    {
      var startTimeInMinutes := ShiftedStart(slots[k].start);
      var endTimeInMinutes := ShiftedEnd(slots[k].start, slots[k].end);
      var isCurrent := startTimeInMinutes.Some? && endTimeInMinutes.Some? &&
                       startTimeInMinutes.value <= now < endTimeInMinutes.value;
      assert isCurrent == InWindow(all[k], now) by { assert all[k] == WindowOf(slots[k]); }
      LastCurrentStep(all, k, now);
      current := current + [isCurrent];
      if isCurrent {
        currentEventTitle := slots[k].title;
      }
      k := k + 1;
    }
    assert all[..k] == all;
  }

  /** The second pass: the title of the earliest start after `now`, first among equals. */
  method PickUpcoming(slots: seq<Slot>, now: int) returns (upcomingEventTitle: string)
    ensures upcomingEventTitle == TitleOr(slots, FirstUpcoming(Windows(slots), now), "No upcoming events")
  {
    ghost var ws := Windows(slots);
    upcomingEventTitle := "No upcoming events";
    var nextEventStart: Option<int> := None;
    var k := 0;
    while k < |slots|
      invariant 0 <= k <= |slots|
      invariant nextEventStart.None? <==> FirstUpcoming(ws[..k], now).None?
      invariant nextEventStart.Some? ==> nextEventStart == ws[FirstUpcoming(ws[..k], now).value].start
      invariant upcomingEventTitle == TitleOr(slots, FirstUpcoming(ws[..k], now), "No upcoming events")
    {
      assert ws[..k + 1][..k] == ws[..k];
      var startTimeInMinutes := ShiftedStart(slots[k].start);
      assert startTimeInMinutes == ws[k].start;
      if startTimeInMinutes.Some? && startTimeInMinutes.value > now &&
         (nextEventStart.None? || startTimeInMinutes.value < nextEventStart.value) {
        nextEventStart := startTimeInMinutes;
        upcomingEventTitle := slots[k].title;
      }
      k := k + 1;
    }
    assert ws[..|slots|] == ws;
  }

  /**
   * `updateCurrentEvents()` at `now` minutes past midnight: every current
   * slot is marked, the "happening now" text is the last current slot's
   * title, and the "up next" text the title of the earliest later start.
   */
  method UpdateCurrentEvents(slots: seq<Slot>, now: int)
    returns (current: seq<bool>, currentEventTitle: string, upcomingEventTitle: string)
    ensures |current| == |slots|
    ensures forall i :: 0 <= i < |slots| ==> current[i] == InWindow(Windows(slots)[i], now)
    ensures currentEventTitle == TitleOr(slots, LastCurrent(Windows(slots), now), "No events currently happening")
    ensures upcomingEventTitle == TitleOr(slots, FirstUpcoming(Windows(slots), now), "No upcoming events")
  {
    current, currentEventTitle := MarkCurrent(slots, now);
    upcomingEventTitle := PickUpcoming(slots, now);
  }

  /**
   * For daytime times in order (both hours 6 or later, end not before
   * start) the window is the plain one: current iff start <= now < end in
   * minutes past midnight.
   */
  lemma DaytimeWindow(slot: Slot, sh: nat, sm: nat, eh: nat, em: nat, now: int)
    requires slot.start == Clock(Some(sh), Some(sm)) && slot.end == Clock(Some(eh), Some(em))
    requires sh >= 6 && eh >= 6 && eh * 60 + em >= sh * 60 + sm
    ensures InWindow(WindowOf(slot), now) <==> sh * 60 + sm <= now < eh * 60 + em
  {
  }

  /**
   * Early hours are read as afternoon: a slot from 1:00 to 2:30 is current
   * from minute 780 (1 PM) up to, not including, minute 870.
   */
  lemma EarlyHoursAreAfternoon(slot: Slot, sh: nat, sm: nat, eh: nat, em: nat, now: int)
    requires slot.start == Clock(Some(sh), Some(sm)) && slot.end == Clock(Some(eh), Some(em))
    requires sh < 6 && eh < 6
    ensures InWindow(WindowOf(slot), now) <==> sh * 60 + sm + 720 <= now < eh * 60 + em + 720
  {
  }

  /** A slot whose start or end is NaN is never current. */
  lemma UnreadableNeverCurrent(slot: Slot, now: int)
    requires slot.start.hours.None? || slot.end.minutes.None?
    ensures !InWindow(WindowOf(slot), now)
  {
  }
}
