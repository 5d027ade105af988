/**
 * The mobile D4PG schedule page (d4pg/d4pg-schedule-mobile/js/main.js):
 * minutes from "H:MM", its own 12-hour label, location display names, the
 * rendering of a day's blocks into cards and workshop carousels, the pill
 * filters, the "now" and "next" picks over the loaded days, the
 * conference countdown and the carousel's swipe rule.
 *
 * The clock, the conference-day test and the loaded schedule are
 * parameters; the carousel itself is `Carousel.SlideCarousel`.
 */
module ScheduleMobile {
  import opened Wrappers
  import opened Strings
  import opened ScheduleCore
  import Carousel
  import ScheduleDesktop

  // ------------------------------------------------------- times

  /**
   * `Number(s)` on the strings a time splits into: an empty (or blank)
   * string is 0, a string of digits is its value, anything else is NaN
   * (`None`).
   */
  function NumberOf(s: string): (r: Option<nat>)
    ensures IsBlank(s) ==> r == Some(0)
  {
    var t := Trim(s);
    if t == "" then Some(0)
    else if AllDigits(t) then Some(DigitsValue(t))
    else None
  }

  /** `timeToMinutes(timeStr)`: hours·60 + minutes, NaN when either part is. */
  function TimeToMinutes(t: string): (r: Option<int>)
    ensures r.Some? ==> r.value >= 0
    ensures ':' !in t ==> r.None?
  {
    if ':' in t then MinutesOf(SplitOn(t, ":"))
    else
      IndexOfCharAbsent(t, ':');
      MinutesOf(SplitOn(t, ":"))
  }

  /** `hours * 60 + minutes` over the pieces of `split(':').map(Number)`. */
  function MinutesOf(pieces: seq<string>): Option<int>
    requires |pieces| >= 1
  {
    var hours := NumberOf(pieces[0]);
    var minutes := if |pieces| > 1 then NumberOf(pieces[1]) else None;
    if hours.Some? && minutes.Some? then Some(hours.value * 60 + minutes.value) else None
  }

  /** A trimmed run of digits is its own number. */
  lemma NumberOfDigits(d: string)
    requires d != "" && AllDigits(d)
    ensures NumberOf(d) == Some(DigitsValue(d))
  {
    assert TrimStart(d) == d;
    assert TrimEnd(d) == d;
  }

  /** A string of digits holds no colon. */
  lemma DigitsHaveNoColon(d: string)
    requires AllDigits(d)
    ensures ':' !in d
  {
    assert forall i :: 0 <= i < |d| ==> d[i] != ':';
  }

  /** `timeToMinutes("H:MM") = 60·H + M`. */
  lemma TimeToMinutesOfDigits(hs: string, ms: string)
    requires hs != "" && AllDigits(hs) && ms != "" && AllDigits(ms)
    ensures TimeToMinutes(hs + ":" + ms) == Some(DigitsValue(hs) * 60 + DigitsValue(ms))
  {
    DigitsHaveNoColon(hs);
    DigitsHaveNoColon(ms);
    SplitOnce(hs, ':', ms);
    MinutesOfDigits(hs, ms);
  }

  lemma MinutesOfDigits(hs: string, ms: string)
    requires hs != "" && AllDigits(hs) && ms != "" && AllDigits(ms)
    ensures MinutesOf([hs, ms]) == Some(DigitsValue(hs) * 60 + DigitsValue(ms))
  {
    NumberOfDigits(hs);
    NumberOfDigits(ms);
  }

  /**
   * `formatTime(timeStr)`: the hour through `parseInt` (NaN printed as
   * "NaN" and read as AM), the minute piece copied as it is, "undefined"
   * when there is none.
   */
  function FormatTime(t: string): (r: string)
    ensures |r| >= 3 && (r[|r| - 3..] == " AM" || r[|r| - 3..] == " PM")
  {
    var pieces := SplitOn(t, ":");
    var minutes := if |pieces| > 1 then pieces[1] else "undefined";
    match ParseInt(pieces[0])
    case None =>
      EndsWithMeridiem("NaN:" + minutes, "AM");
      "NaN:" + minutes + " AM"
    case Some(h) =>
      var hour := NatToString(ScheduleDesktop.Hour12(h));
      EndsWithMeridiem(hour + ":" + minutes, ScheduleDesktop.Meridiem(h));
      assert hour + (":" + minutes + " " + ScheduleDesktop.Meridiem(h)) ==
             hour + ":" + minutes + " " + ScheduleDesktop.Meridiem(h);
      hour + (":" + minutes + " " + ScheduleDesktop.Meridiem(h))
  }

  lemma EndsWithMeridiem(head: string, m: string)
    requires |m| == 2
    ensures var r := head + " " + m; |r| >= 3 && r[|r| - 3..] == " " + m
  {
    var r := head + " " + m;
    assert r[|r| - 3..] == [r[|r| - 3], r[|r| - 2], r[|r| - 1]];
  }

  /**
   * On well-formed "H:MM" and "HH:MM" times the mobile label is the desktop
   * label: hour 0 is 12 AM, 12 is 12 PM, 13..23 are 1..11 PM, minutes as
   * given.
   */
  lemma FormatTimeAgrees(hs: string, ms: string)
    requires 1 <= |hs| <= 2 && AllDigits(hs)
    requires |ms| == 2 && AllDigits(ms)
    ensures FormatTime(hs + ":" + ms) == ScheduleDesktop.FormatTimeTo12Hour(hs + ":" + ms)
  {
    FormatTimeOfClock(hs, ms);
    ScheduleDesktop.FormatTimeTo12HourClock(hs, ms);
  }

  /** An "H:MM" time is labelled from its hour digits, with its minute piece as given. */
  lemma FormatTimeOfClock(hs: string, ms: string)
    requires hs != "" && AllDigits(hs) && AllDigits(ms)
    ensures var h := DigitsValue(hs);
            FormatTime(hs + ":" + ms) == NatToString(ScheduleDesktop.Hour12(h)) + (":" + ms + " " + ScheduleDesktop.Meridiem(h))
  {
    DigitsHaveNoColon(hs);
    DigitsHaveNoColon(ms);
    SplitOnce(hs, ':', ms);
    ParseIntOfDigits(hs);
  }

  /**
   * Where the two labels part: a text without a colon is returned unchanged
   * by the desktop page and printed as "NaN:undefined AM" here.
   */
  lemma FormatTimeWithoutColon()
    ensures FormatTime("TBD") == "NaN:undefined AM"
    ensures ScheduleDesktop.FormatTimeTo12Hour("TBD") == "TBD"
  {
    IndexOfCharAbsent("TBD", ':');
    assert LeadingDigits("TBD") == "";
  }

  // ------------------------------------------------------- locations

  /** `locationMap` */
  const LocationNames: map<string, string> := map[
    "main-auditorium" := "Main Auditorium",
    "dining-hall" := "Dining Hall",
    "workshop-a" := "Workshop Room A",
    "workshop-b" := "Workshop Room B",
    "main-hall" := "Main Hall",
    "campus-garden" := "Campus Garden",
    "great-hall" := "Great Hall",
    "various-rooms" := "Various Rooms"
  ]

  /** `locationMap[key] || key`: every mapped name is non-empty, so a known key always maps. */
  function GetLocationDisplayName(key: string): (r: string)
    ensures key in LocationNames ==> r == LocationNames[key]
    ensures key !in LocationNames ==> r == key
  {
    if key in LocationNames && LocationNames[key] != "" then LocationNames[key] else key
  }

  /** The eight keys and only those are renamed, and no two keys share a name. */
  lemma LocationNamesDistinct(a: string, b: string)
    requires a in LocationNames && b in LocationNames && a != b
    ensures GetLocationDisplayName(a) != GetLocationDisplayName(b)
  {
  }

  // ------------------------------------------------------- rendering a day

  predicate IsWorkshop(e: Event) {
    e.eventType == "workshop"
  }

  /** `events.filter(event => event.type === 'workshop')` */
  function Workshops(es: seq<Event>): (r: seq<Event>)
    ensures forall e :: e in r <==> e in es && IsWorkshop(e)
  {
    if es == [] then []
    else (if IsWorkshop(es[0]) then [es[0]] else []) + Workshops(es[1..])
  }

  /** `events.filter(event => event.type !== 'workshop')` */
  function NonWorkshops(es: seq<Event>): (r: seq<Event>)
    ensures forall e :: e in r <==> e in es && !IsWorkshop(e)
  {
    if es == [] then []
    else (if IsWorkshop(es[0]) then [] else [es[0]]) + NonWorkshops(es[1..])
  }

  /** The two filters split a block's events between them. */
  lemma {:induction false} WorkshopSplit(es: seq<Event>)
    ensures |Workshops(es)| + |NonWorkshops(es)| == |es|
  {
    if es != [] {
      WorkshopSplit(es[1..]);
    }
  }

  /** `workshops.map(w => w.location).join(',')` */
  function Locations(ws: seq<Event>): (r: seq<string>)
    ensures |r| == |ws| && forall i :: 0 <= i < |ws| ==> r[i] == ws[i].location
  {
    seq(|ws|, i requires 0 <= i < |ws| => ws[i].location)
  }

  /** What `renderDayEvents` appends to the day's container. */
  datatype Item =
    | NoEventsMessage
    | WorkshopCarousel(workshops: seq<Event>, dataLocation: string)
    | EventCard(event: Event)

  /** The items of one block. */
  function BlockItems(b: TimeBlock): seq<Item> {
    var ws := Workshops(b.events);
    if |ws| > 1 then
      [WorkshopCarousel(ws, Join(Locations(ws), ","))] + Cards(NonWorkshops(b.events))
    else Cards(b.events)
  }

  function Cards(es: seq<Event>): (r: seq<Item>)
    ensures |r| == |es| && forall i :: 0 <= i < |es| ==> r[i] == EventCard(es[i])
  {
    seq(|es|, i requires 0 <= i < |es| => EventCard(es[i]))
  }

  function ItemsOf(blocks: seq<TimeBlock>): seq<Item> {
    if blocks == [] then [] else ItemsOf(blocks[..|blocks| - 1]) + BlockItems(blocks[|blocks| - 1])
  }

  /**
   * `createConcurrentWorkshopsCarousel(timeBlock)`: `None` unless the block
   * holds at least two workshops.
   */
  function CreateConcurrentWorkshopsCarousel(b: TimeBlock): (r: Option<Item>)
    ensures r.Some? <==> |Workshops(b.events)| > 1
    ensures r.Some? ==> r.value.WorkshopCarousel? && r.value.workshops == Workshops(b.events)
  {
    var ws := Workshops(b.events);
    if |ws| <= 1 then None else Some(WorkshopCarousel(ws, Join(Locations(ws), ",")))
  }

  /** `renderDayEvents(dayKey, events)`; a missing list is `None`. */
  method RenderDayEvents(events: Option<seq<Event>>) returns (items: seq<Item>)
    ensures events.None? || events.value == [] ==> items == [NoEventsMessage]
    ensures events.Some? && events.value != [] ==> items == ItemsOf(Grouped(events.value))
  {
    if events.None? || |events.value| == 0 {
      return [NoEventsMessage];
    }
    var timeBlocks := GroupEventsByTime(events.value);
    items := [];
    var k := 0;
    while k < |timeBlocks|
      invariant 0 <= k <= |timeBlocks|
      invariant items == ItemsOf(timeBlocks[..k])
    {
      assert timeBlocks[..k + 1][..k] == timeBlocks[..k];
      var b := timeBlocks[k];
      assert ItemsOf(timeBlocks[..k + 1]) == ItemsOf(timeBlocks[..k]) + BlockItems(b);
      ghost var before := items;
      var workshops := Workshops(b.events);
      if |workshops| > 1 {
        var carousel := CreateConcurrentWorkshopsCarousel(b);
        if carousel.Some? {
          items := items + [carousel.value];
        }
        items := items + Cards(NonWorkshops(b.events));
      } else {
        items := items + Cards(b.events);
      }
      assert items == before + BlockItems(b);
      k := k + 1;
    }
    assert timeBlocks[..k] == timeBlocks;
  }

  /** How many events the items show: one per card, one per carousel slide. */
  function Shown(items: seq<Item>): nat {
    if items == [] then 0
    else
      Shown(items[..|items| - 1]) +
      match items[|items| - 1]
      case NoEventsMessage => 0
      case WorkshopCarousel(ws, _) => |ws|
      case EventCard(_) => 1
  }

  lemma {:induction false} ShownAppend(a: seq<Item>, b: seq<Item>)
    ensures Shown(a + b) == Shown(a) + Shown(b)
    decreases |b|
  {
    if b != [] {
      assert (a + b)[..|a + b| - 1] == a + b[..|b| - 1];
      ShownAppend(a, b[..|b| - 1]);
    } else {
      assert a + b == a;
    }
  }

  lemma {:induction false} ShownCards(es: seq<Event>)
    ensures Shown(Cards(es)) == |es|
  {
    if es != [] {
      var init := es[..|es| - 1];
      assert Cards(es) == Cards(init) + [EventCard(es[|es| - 1])];
      ShownAppend(Cards(init), [EventCard(es[|es| - 1])]);
      assert Shown([EventCard(es[|es| - 1])]) == 1 by {
        assert [EventCard(es[|es| - 1])][..0] == [];
      }
      ShownCards(init);
    }
  }

  lemma BlockShowsAll(b: TimeBlock)
    ensures Shown(BlockItems(b)) == |b.events|
  {
    var ws := Workshops(b.events);
    if |ws| > 1 {
      var c := WorkshopCarousel(ws, Join(Locations(ws), ","));
      ShownAppend([c], Cards(NonWorkshops(b.events)));
      assert Shown([c]) == |ws| by {
        assert [c][..0] == [];
      }
      ShownCards(NonWorkshops(b.events));
      WorkshopSplit(b.events);
    } else {
      ShownCards(b.events);
    }
  }

  lemma {:induction false} ItemsShowAll(blocks: seq<TimeBlock>)
    ensures Shown(ItemsOf(blocks)) == TotalEvents(blocks)
  {
    if blocks != [] {
      var init := blocks[..|blocks| - 1];
      var last := blocks[|blocks| - 1];
      assert init + [last] == blocks;
      assert ItemsOf(blocks) == ItemsOf(init) + BlockItems(last);
      ItemsShowAll(init);
      ShownAppend(ItemsOf(init), BlockItems(last));
      BlockShowsAll(last);
      TotalEventsAppend(init, last);
    }
  }

  /**
   * A non-empty day shows every one of its events exactly as often as it
   * occurs in the list: as a card, or as a slide of its block's carousel.
   */
  lemma RenderShowsEveryEvent(events: seq<Event>)
    ensures Shown(ItemsOf(Grouped(events))) == |events|
  {
    ItemsShowAll(Grouped(events));
    GroupedKeepsCount(events);
  }

  // ------------------------------------------------------- pill filters

  /** No type pill is active, or the active one reads "all". */
  predicate NoTypeFilter(activeType: Option<string>) {
    activeType.None? || activeType.value == "" || activeType.value == "all"
  }

  /** No location pill is active, or the active one reads "All". */
  predicate NoLocationFilter(activeLocation: Option<string>) {
    activeLocation.None? || activeLocation.value == "" || activeLocation.value == "All"
  }

  /** A card shown by the pills: its type is the (lower-cased) type pill and its location's name the location pill. */
  predicate CardPasses(activeType: Option<string>, activeLocation: Option<string>, e: Event) {
    (NoTypeFilter(activeType) || e.eventType == activeType.value) &&
    (NoLocationFilter(activeLocation) || GetLocationDisplayName(e.location) == activeLocation.value)
  }

  /**
   * A workshop carousel as the filter sees it: its `data-location` and, per
   * slide, the location key the lookup by event id found ("" when none).
   */
  datatype Container = Container(dataLocation: string, slideLocations: seq<string>)

  /** Some location of the container's `data-location` list has the pill's name. */
  predicate ContainerLocationMatches(loc: string, c: Container) {
    exists l :: l in SplitOn(c.dataLocation, ",") && GetLocationDisplayName(l) == loc
  }

  /** The container passes the pills before its slides are looked at. */
  predicate ContainerPasses(activeType: Option<string>, activeLocation: Option<string>, c: Container) {
    (NoTypeFilter(activeType) || activeType.value == "workshop") &&
    (NoLocationFilter(activeLocation) || ContainerLocationMatches(activeLocation.value, c))
  }

  predicate SlidePasses(loc: string, slideLocation: string) {
    (if slideLocation == "" then "" else GetLocationDisplayName(slideLocation)) == loc
  }

  /** The slides' loop; it runs only for a shown container under a location filter. */
  method FilterSlides(loc: string, slideLocations: seq<string>) returns (shown: seq<bool>, visibleWorkshops: nat)
    ensures |shown| == |slideLocations|
    ensures forall j :: 0 <= j < |slideLocations| ==> shown[j] == SlidePasses(loc, slideLocations[j])
    ensures visibleWorkshops == 0 <==> forall j :: 0 <= j < |slideLocations| ==> !SlidePasses(loc, slideLocations[j])
  {
    shown := [];
    visibleWorkshops := 0;
    var j := 0;
    while j < |slideLocations|
      invariant 0 <= j <= |slideLocations| && |shown| == j
      invariant forall i :: 0 <= i < j ==> shown[i] == SlidePasses(loc, slideLocations[i])
      invariant visibleWorkshops == 0 <==> forall i :: 0 <= i < j ==> !SlidePasses(loc, slideLocations[i])
    {
      var workshopLocation := if slideLocations[j] == "" then "" else GetLocationDisplayName(slideLocations[j]);
      if workshopLocation == loc {
        shown := shown + [true];
        visibleWorkshops := visibleWorkshops + 1;
      } else {
        shown := shown + [false];
      }
      j := j + 1;
    }
  }

  /** A container's final state: shown, and which slides are shown (`None` when the slides are left alone). */
  datatype ContainerView = ContainerView(shown: bool, slides: Option<seq<bool>>)

  /** The container is shown iff it passes and, under a location filter, at least one slide does. */
  predicate ContainerShown(activeType: Option<string>, activeLocation: Option<string>, c: Container) {
    ContainerPasses(activeType, activeLocation, c) &&
    (NoLocationFilter(activeLocation) ||
     exists j :: 0 <= j < |c.slideLocations| && SlidePasses(activeLocation.value, c.slideLocations[j]))
  }

  /** The cards' loop of `filterEvents()`. */
  method FilterCards(activeType: Option<string>, activeLocation: Option<string>, cards: seq<Event>)
    returns (cardShown: seq<bool>)
    ensures |cardShown| == |cards|
    ensures forall i :: 0 <= i < |cards| ==> cardShown[i] == CardPasses(activeType, activeLocation, cards[i])
  {
    cardShown := [];
    var k := 0;
    while k < |cards|
      invariant 0 <= k <= |cards| && |cardShown| == k
      invariant forall i :: 0 <= i < k ==> cardShown[i] == CardPasses(activeType, activeLocation, cards[i])
    {
      var show := true;
      if !NoTypeFilter(activeType) && cards[k].eventType != activeType.value {
        show := false;
      }
      if !NoLocationFilter(activeLocation) && GetLocationDisplayName(cards[k].location) != activeLocation.value {
        show := false;
      }
      cardShown := cardShown + [show];
      k := k + 1;
    }
  }

  /** `filterEvents()` over the cards and the workshop containers on the page. */
  method FilterEvents(activeType: Option<string>, activeLocation: Option<string>,
                      cards: seq<Event>, containers: seq<Container>)
    returns (cardShown: seq<bool>, views: seq<ContainerView>)
    ensures |cardShown| == |cards| && |views| == |containers|
    ensures forall i :: 0 <= i < |cards| ==> cardShown[i] == CardPasses(activeType, activeLocation, cards[i])
    ensures forall i :: 0 <= i < |containers| ==>
              views[i].shown == ContainerShown(activeType, activeLocation, containers[i])
    ensures forall i :: 0 <= i < |containers| ==>
              (views[i].slides.Some? <==>
                 ContainerPasses(activeType, activeLocation, containers[i]) && !NoLocationFilter(activeLocation))
  {
    cardShown := FilterCards(activeType, activeLocation, cards);
    views := [];
    var k := 0;
    while k < |containers|
      invariant 0 <= k <= |containers| && |views| == k
      invariant forall i :: 0 <= i < k ==> views[i].shown == ContainerShown(activeType, activeLocation, containers[i])
      invariant forall i :: 0 <= i < k ==>
                  (views[i].slides.Some? <==>
                     ContainerPasses(activeType, activeLocation, containers[i]) && !NoLocationFilter(activeLocation))
    {
      var c := containers[k];
      var show := ContainerPasses(activeType, activeLocation, c);
      var slides: Option<seq<bool>> := None;
      if show && !NoLocationFilter(activeLocation) {
        var shownSlides, visibleWorkshops := FilterSlides(activeLocation.value, c.slideLocations);
        slides := Some(shownSlides);
        if visibleWorkshops == 0 {
          show := false;
        }
      }
      assert show == ContainerShown(activeType, activeLocation, c);
      assert slides.Some? <==> ContainerPasses(activeType, activeLocation, c) && !NoLocationFilter(activeLocation);
      views := views + [ContainerView(show, slides)];
      k := k + 1;
    }
  }

  /** Without an active pill every card and every container is shown. */
  lemma NoFilterShowsAll(e: Event, c: Container)
    ensures CardPasses(None, None, e) && CardPasses(Some("all"), Some("All"), e)
    ensures ContainerShown(None, None, c) && ContainerShown(Some("all"), Some("All"), c)
  {
  }

  /** A type pill other than "all" and "workshop" hides every workshop container. */
  lemma OtherTypeHidesWorkshops(t: string, loc: Option<string>, c: Container)
    requires t != "" && t != "all" && t != "workshop"
    ensures !ContainerShown(Some(t), loc, c)
  {
  }

  // ------------------------------------------------------- now and next

  /** An event's start and end in minutes (`None` for NaN). */
  datatype Span = Span(start: Option<int>, end: Option<int>)

  function SpanOf(e: Event): Span {
    Span(TimeToMinutes(e.startTime), TimeToMinutes(e.endTime))
  }

  function Spans(es: seq<Event>): (r: seq<Span>)
    ensures |r| == |es|
  {
    if es == [] then [] else Spans(es[..|es| - 1]) + [SpanOf(es[|es| - 1])]
  }

  /** The spans line up with the events. */
  lemma {:induction false} SpansAt(es: seq<Event>, i: nat)
    requires i < |es|
    ensures Spans(es)[i] == SpanOf(es[i])
  {
    if i < |es| - 1 {
      SpansAt(es[..|es| - 1], i);
    }
  }

  /** `start <= now < end`; NaN on either side never holds. */
  predicate Happening(s: Span, now: int) {
    s.start.Some? && s.end.Some? && s.start.value <= now < s.end.value
  }

  /** The first span from `k` on happening at `now`. */
  function FirstHappening(ss: seq<Span>, now: int, k: nat): (r: Option<nat>)
    ensures r.Some? ==> k <= r.value < |ss| && Happening(ss[r.value], now)
    ensures r.Some? ==> forall j :: k <= j < r.value ==> !Happening(ss[j], now)
    ensures r.None? ==> forall j :: k <= j < |ss| ==> !Happening(ss[j], now)
    decreases |ss| - k
  {
    if k >= |ss| then None else if Happening(ss[k], now) then Some(k) else FirstHappening(ss, now, k + 1)
  }

  lemma FirstHappeningSkips(ss: seq<Span>, now: int, k: nat)
    requires k < |ss| && !Happening(ss[k], now)
    ensures FirstHappening(ss, now, k) == FirstHappening(ss, now, k + 1)
  {
  }

  /** The loaded schedule: `scheduleData.days` (`None` when absent), keyed "day1".."day3". */
  type Days = Option<map<string, seq<Event>>>

  /** The events of `day` when the conference is on and that day is loaded. */
  function DayEvents(during: bool, day: Option<string>, days: Days): Option<seq<Event>> {
    if during && day.Some? && days.Some? && day.value in days.value then Some(days.value[day.value]) else None
  }

  /** The id of the event to mark: the first in list order happening now. */
  function CurrentId(es: seq<Event>, now: int): (r: Option<string>)
    ensures r.Some? ==> exists i :: 0 <= i < |es| && es[i].id == r.value && Happening(Spans(es)[i], now)
    ensures r.None? ==> forall i :: 0 <= i < |es| ==> !Happening(Spans(es)[i], now)
  {
    match FirstHappening(Spans(es), now, 0)
    case None => None
    case Some(i) => Some(es[i].id)
  }

  /**
   * `updateCurrentEvent()`: the id of the card to mark. Nothing outside the
   * conference or on an unloaded day; otherwise the first event in list
   * order that is happening now.
   */
  method UpdateCurrentEvent(during: bool, day: Option<string>, days: Days, now: int) returns (marked: Option<string>)
    ensures DayEvents(during, day, days).None? ==> marked.None?
    ensures DayEvents(during, day, days).Some? ==> marked == CurrentId(DayEvents(during, day, days).value, now)
  {
    marked := None;
    if !during {
      return;
    }
    if day.None? || days.None? || day.value !in days.value {
      return;
    }
    var dayEvents := days.value[day.value];
    ghost var spans := Spans(dayEvents);
    var currentEvent: Option<Event> := None;
    var k := 0;
    while k < |dayEvents|
      invariant 0 <= k <= |dayEvents|
      invariant currentEvent.None?
      invariant FirstHappening(spans, now, 0) == FirstHappening(spans, now, k)
    {
      var startMinutes := TimeToMinutes(dayEvents[k].startTime);
      var endMinutes := TimeToMinutes(dayEvents[k].endTime);
      SpansAt(dayEvents, k);
      if startMinutes.Some? && endMinutes.Some? && startMinutes.value <= now < endMinutes.value {
        currentEvent := Some(dayEvents[k]);
        break;
      }
      FirstHappeningSkips(spans, now, k);
      k := k + 1;
    }
    if currentEvent.Some? {
      marked := Some(currentEvent.value.id);
    }
  }

  /** A span starting after `now`. */
  predicate StartsAfter(s: Span, now: int) {
    s.start.Some? && s.start.value > now
  }

  function FirstStartingAfter(ss: seq<Span>, now: int, k: nat): (r: Option<nat>)
    ensures r.Some? ==> k <= r.value < |ss| && StartsAfter(ss[r.value], now)
    ensures r.Some? ==> forall j :: k <= j < r.value ==> !StartsAfter(ss[j], now)
    ensures r.None? ==> forall j :: k <= j < |ss| ==> !StartsAfter(ss[j], now)
    decreases |ss| - k
  {
    if k >= |ss| then None else if StartsAfter(ss[k], now) then Some(k) else FirstStartingAfter(ss, now, k + 1)
  }

  /** The day after a conference day; there is none after "day3". */
  function NextDay(day: string): Option<string> {
    if day == "day1" then Some("day2") else if day == "day2" then Some("day3") else None
  }

  /**
   * The next event: the first of `today`, in list order, that starts after
   * `now`; failing that the first event of the next day, if that day is
   * loaded and not empty.
   */
  function Upcoming(today: seq<Event>, day: string, days: map<string, seq<Event>>, now: int): (r: Option<Event>)
    ensures r.Some? ==> r.value in today ||
                        (NextDay(day).Some? && NextDay(day).value in days && days[NextDay(day).value] != [] &&
                         r.value == days[NextDay(day).value][0])
  {
    match FirstStartingAfter(Spans(today), now, 0)
    case Some(i) =>
      assert today[i] in today;
      Some(today[i])
    case None =>
      var next := NextDay(day);
      if next.Some? && next.value in days && days[next.value] != [] then Some(days[next.value][0]) else None
  }

  /** `getUpcomingEvent()`: nothing outside the conference or on an unloaded day, else `Upcoming`. */
  method GetUpcomingEvent(during: bool, day: Option<string>, days: Days, now: int) returns (r: Option<Event>)
    ensures DayEvents(during, day, days).None? ==> r.None?
    ensures DayEvents(during, day, days).Some? ==>
              r == Upcoming(DayEvents(during, day, days).value, day.value, days.value, now)
  {
    if !during {
      return None;
    }
    if day.None? || days.None? || day.value !in days.value {
      return None;
    }
    var dayEvents := days.value[day.value];
    assert DayEvents(during, day, days) == Some(dayEvents);
    ghost var spans := Spans(dayEvents);
    var k := 0;
    while k < |dayEvents|
      invariant 0 <= k <= |dayEvents|
      invariant FirstStartingAfter(spans, now, 0) == FirstStartingAfter(spans, now, k)
    {
      var startMinutes := TimeToMinutes(dayEvents[k].startTime);
      SpansAt(dayEvents, k);
      if startMinutes.Some? && startMinutes.value > now {
        assert FirstStartingAfter(spans, now, 0) == Some(k);
        return Some(dayEvents[k]);
      }
      assert FirstStartingAfter(spans, now, k) == FirstStartingAfter(spans, now, k + 1);
      k := k + 1;
    }
    assert FirstStartingAfter(spans, now, 0).None?;
    ghost var expected := Upcoming(dayEvents, day.value, days.value, now);
    var nextDay := NextDay(day.value);
    if nextDay.Some? && nextDay.value in days.value {
      var nextDayEvents := days.value[nextDay.value];
      r := if |nextDayEvents| > 0 then Some(nextDayEvents[0]) else None;
      assert r == expected;
      return;
    }
    assert expected.None?;
    return None;
  }

  /**
   * The next event is never one already under way: a pick from today starts
   * strictly after `now` and no earlier event of today's list does; on the
   * last day, once nothing starts later, there is none.
   */
  lemma UpcomingStartsLater(today: seq<Event>, day: string, days: map<string, seq<Event>>, now: int)
    ensures FirstStartingAfter(Spans(today), now, 0).Some? ==>
              var i := FirstStartingAfter(Spans(today), now, 0).value;
              Upcoming(today, day, days, now) == Some(today[i]) &&
              TimeToMinutes(today[i].startTime).Some? && TimeToMinutes(today[i].startTime).value > now &&
              forall j :: 0 <= j < i ==> TimeToMinutes(today[j].startTime).None? || TimeToMinutes(today[j].startTime).value <= now
    ensures day == "day3" && FirstStartingAfter(Spans(today), now, 0).None? ==> Upcoming(today, day, days, now).None?
  {
    var first := FirstStartingAfter(Spans(today), now, 0);
    if first.Some? {
      SpansAt(today, first.value);
      forall j | 0 <= j < first.value
        ensures TimeToMinutes(today[j].startTime).None? || TimeToMinutes(today[j].startTime).value <= now
      {
        SpansAt(today, j);
      }
    }
  }

  // ------------------------------------------------------- countdown

  /** Milliseconds in a day, an hour and a minute. */
  const MsPerDay: int := 86400000
  const MsPerHour: int := 3600000
  const MsPerMinute: int := 60000

  /** The four counters of `updateCountdown`. */
  datatype Remaining = Remaining(days: nat, hours: nat, minutes: nat, seconds: nat)

  /**
   * `updateCountdown()` for `diff` milliseconds to the opening: `None` shows
   * "live" (diff ≤ 0); otherwise the floors of the divisions.
   */
  function Countdown(diff: int): (r: Option<Remaining>)
    ensures r.None? <==> diff <= 0
  {
    if diff <= 0 then None
    else Some(Remaining(diff / MsPerDay, (diff % MsPerDay) / MsPerHour,
                        (diff % MsPerHour) / MsPerMinute, (diff % MsPerMinute) / 1000))
  }

  /**
   * The counters are a mixed-radix reading of `diff`: hours below 24,
   * minutes and seconds below 60, and together they account for `diff`
   * to within the dropped milliseconds.
   */
  lemma CountdownDecomposes(diff: int)
    requires diff > 0
    ensures var r := Countdown(diff).value;
            && r.hours < 24 && r.minutes < 60 && r.seconds < 60
            && r.days * MsPerDay + r.hours * MsPerHour + r.minutes * MsPerMinute + r.seconds * 1000 <= diff
            && diff < r.days * MsPerDay + r.hours * MsPerHour + r.minutes * MsPerMinute + r.seconds * 1000 + 1000
  {
    var d, h := diff / 86400000, diff % 86400000;
    var qh, m := diff / 3600000, diff % 3600000;
    var qm, s := diff / 60000, diff % 60000;
    assert h == 3600000 * (qh - 24 * d) + m;
    assert h / 3600000 == qh - 24 * d;
    assert m == 60000 * (qm - 60 * qh) + s;
    assert m / 60000 == qm - 60 * qh;
  }

  /** `n.toString().padStart(2, '0')` */
  function Pad2(n: nat): (r: string)
    ensures |r| >= 2
    ensures n >= 10 ==> r == NatToString(n)
  {
    var s := NatToString(n);
    if |s| >= 2 then s else "0" + s
  }

  /** Counters below 100 read back from their two-digit text. */
  lemma Pad2ReadsBack(n: nat)
    requires n < 100
    ensures |Pad2(n)| == 2 && ParseInt(Pad2(n)) == Some(n)
  {
    ParseIntOfNatToString(n);
    if n < 10 {
      var s := NatToString(n);
      assert s == [DigitChar(n)];
      assert Pad2(n) == ['0', DigitChar(n)];
      ParseIntOfDigits(Pad2(n));
      assert DigitsValue(Pad2(n)) == 10 * DigitsValue(['0']) + n;
    } else {
      assert NatToString(n) == NatToString(n / 10) + [DigitChar(n % 10)];
    }
  }

  // ------------------------------------------------------- swipes

  /**
   * The swipe rule of `touchend`: a gesture moves the slide only when it is
   * more horizontal than vertical and longer than 30% of the carousel's
   * width; rightwards goes back, leftwards forward, never past either end.
   */
  function SwipeTarget(current: int, n: int, dx: int, dy: nat, width: nat): (r: int)
    ensures r == current || r == current - 1 || r == current + 1
    ensures r == current - 1 <==> Carousel.Abs(dx) > dy && 10 * Carousel.Abs(dx) > 3 * width && dx > 0 && current > 0
    ensures r == current + 1 <==> Carousel.Abs(dx) > dy && 10 * Carousel.Abs(dx) > 3 * width && dx < 0 && current < n - 1
    ensures 0 <= current < n ==> 0 <= r < n
  {
    if Carousel.Abs(dx) > dy && 10 * Carousel.Abs(dx) > 3 * width then
      if dx > 0 && current > 0 then current - 1
      else if dx < 0 && current < n - 1 then current + 1
      else current
    else current
  }

  /** The carousel closure's touch coordinates (`touchStartX` ... `isSwiping`). */
  class SwipeTracker {
    var touchStartX: int
    var touchStartY: int
    var touchEndX: int
    var touchEndY: int
    var isSwiping: bool

    constructor ()
      ensures touchStartX == 0 && touchStartY == 0 && touchEndX == 0 && touchEndY == 0 && !isSwiping
    {
      touchStartX, touchStartY, touchEndX, touchEndY := 0, 0, 0, 0;
      isSwiping := false;
    }

    /**
     * `touchstart` as written: records the start, leaves the end where the
     * last gesture (or the initial 0, 0) put it, and pauses auto-advance.
     */
    method TouchStart(c: Carousel.SlideCarousel, x: int, y: int)
      requires c.Valid()
      modifies this, c`isPaused, c`autoAdvancing
      ensures c.Valid() && c.isPaused && !c.autoAdvancing
      ensures touchStartX == x && touchStartY == y && isSwiping
      ensures touchEndX == old(touchEndX) && touchEndY == old(touchEndY)
    {
      touchStartX := x;
      touchStartY := y;
      isSwiping := true;
      c.Pause();
    }

    /**
     * `touchstart` as evidently intended: the end starts at the start, so a
     * gesture without any `touchmove` has no extent.
     */
    method TouchStartReset(c: Carousel.SlideCarousel, x: int, y: int)
      requires c.Valid()
      modifies this, c`isPaused, c`autoAdvancing
      ensures c.Valid() && c.isPaused && !c.autoAdvancing
      ensures touchStartX == x && touchStartY == y && isSwiping
      ensures touchEndX == x && touchEndY == y
    {
      touchStartX, touchEndX := x, x;
      touchStartY, touchEndY := y, y;
      isSwiping := true;
      c.Pause();
    }

    /** `touchmove`: while swiping, the end follows the finger. */
    method TouchMove(x: int, y: int)
      modifies this`touchEndX, this`touchEndY
      ensures isSwiping ==> touchEndX == x && touchEndY == y
      ensures !isSwiping ==> touchEndX == old(touchEndX) && touchEndY == old(touchEndY)
    {
      if !isSwiping {
        return;
      }
      touchEndX := x;
      touchEndY := y;
    }

    /** `touchend` on a carousel `width` pixels wide. */
    method TouchEnd(c: Carousel.SlideCarousel, width: nat)
      requires c.Valid()
      modifies this`isSwiping, c`currentSlide, c`prevDisabled, c`nextDisabled, c`indicators, c`counter
      ensures c.Valid() && !isSwiping
      ensures old(isSwiping) ==>
                c.currentSlide == SwipeTarget(old(c.currentSlide), c.totalSlides, touchEndX - touchStartX,
                                              Carousel.Abs(touchEndY - touchStartY), width)
      ensures !old(isSwiping) ==> c.currentSlide == old(c.currentSlide)
    {
      if !isSwiping {
        return;
      }
      isSwiping := false;
      var deltaX := touchEndX - touchStartX;
      var deltaY := Carousel.Abs(touchEndY - touchStartY);
      if Carousel.Abs(deltaX) > deltaY && 10 * Carousel.Abs(deltaX) > 3 * width {
        if deltaX > 0 && c.currentSlide > 0 {
          c.GoToSlide(c.currentSlide - 1);
        } else if deltaX < 0 && c.currentSlide < c.totalSlides - 1 {
          c.GoToSlide(c.currentSlide + 1);
        } else {
          c.UpdateCarousel();
        }
      } else {
        c.UpdateCarousel();
      }
    }
  }

  /**
   * As written, a plain tap on a fresh three-slide carousel 350 pixels wide,
   * at (300, 100) with no `touchmove` in between, measures the gesture from
   * the stale end (0, 0) and turns to the second slide.
   */
  method TapTurnsSlide() returns (slide: int)
    ensures slide == 1
  {
    var c := new Carousel.SlideCarousel(3);
    var t := new SwipeTracker();
    t.TouchStart(c, 300, 100);
    t.TouchEnd(c, 350);
    slide := c.currentSlide;
  }

  /** With the end reset at `touchstart`, a tap never turns the carousel. */
  method TapKeepsSlide(c: Carousel.SlideCarousel, x: int, y: int, width: nat) returns (t: SwipeTracker)
    requires c.Valid()
    modifies c
    ensures fresh(t)
    ensures c.Valid() && c.currentSlide == old(c.currentSlide)
  {
    t := new SwipeTracker();
    t.TouchStartReset(c, x, y);
    t.TouchEnd(c, width);
  }
}
