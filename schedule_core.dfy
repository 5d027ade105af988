/**
 * The schedule entries both D4PG schedule pages work on, and the grouping
 * of a day's events into time blocks that each page performs with its own
 * copy of `groupEventsByTime` (d4pg/d4pg-schedule/js/main.js and
 * d4pg/d4pg-schedule-mobile/js/main.js).
 *
 * Events that share both their start and their end time form one block
 * (concurrent workshops); blocks keep the order in which their times first
 * occur, and events keep their input order inside a block.
 */
module ScheduleCore {
  import opened Wrappers

  /** The fields of a schedule entry the pages' logic reads. */
  datatype Event = Event(id: string, title: string, startTime: string, endTime: string,
                         eventType: string, location: string)

  /** `{ startTime, endTime, events }` */
  datatype TimeBlock = TimeBlock(startTime: string, endTime: string, events: seq<Event>)

  /** The block's times are the event's times. */
  predicate SameTimes(b: TimeBlock, e: Event) {
    b.startTime == e.startTime && b.endTime == e.endTime
  }

  /** `timeBlocks.find(...)`, as an index. */
  function FindBlock(blocks: seq<TimeBlock>, e: Event): (r: Option<nat>)
    ensures r.Some? ==> r.value < |blocks| && SameTimes(blocks[r.value], e)
    ensures r.Some? ==> forall j :: 0 <= j < r.value ==> !SameTimes(blocks[j], e)
    ensures r.None? ==> forall j :: 0 <= j < |blocks| ==> !SameTimes(blocks[j], e)
  {
    if blocks == [] then None
    else if SameTimes(blocks[0], e) then Some(0)
    else match FindBlock(blocks[1..], e)
      case None => None
      case Some(i) => Some(i + 1)
  }

  /** One step of the `forEach`: join the first block with the same times, or open a new one. */
  function AddEvent(blocks: seq<TimeBlock>, e: Event): seq<TimeBlock> {
    match FindBlock(blocks, e)
    case Some(i) => blocks[i := blocks[i].(events := blocks[i].events + [e])]
    case None => blocks + [TimeBlock(e.startTime, e.endTime, [e])]
  }

  /** The blocks after processing `events` in order: at least one, and no more than there are events. */
  function Grouped(events: seq<Event>): (r: seq<TimeBlock>)
    ensures |r| <= |events|
    ensures events != [] ==> r != []
  {
    if events == [] then []
    else AddEvent(Grouped(events[..|events| - 1]), events[|events| - 1])
  }

  /** `groupEventsByTime(events)` */
  method GroupEventsByTime(events: seq<Event>) returns (timeBlocks: seq<TimeBlock>)
    ensures timeBlocks == Grouped(events)
  {
    timeBlocks := [];
    var k := 0;
    while k < |events|
      invariant 0 <= k <= |events|
      invariant timeBlocks == Grouped(events[..k])
    {
      assert events[..k + 1][..k] == events[..k];
      var event := events[k];
      var existing := FindBlock(timeBlocks, event);
      if existing.Some? {
        var i := existing.value;
        timeBlocks := timeBlocks[i := timeBlocks[i].(events := timeBlocks[i].events + [event])];
      } else {
        timeBlocks := timeBlocks + [TimeBlock(event.startTime, event.endTime, [event])];
      }
      k := k + 1;
    }
    assert events[..|events|] == events;
  }

  // ------------------------------------------------------- specification

  /** The events with the given times, in input order. */
  function EventsAt(events: seq<Event>, start: string, end: string): seq<Event> {
    if events == [] then []
    else
      var last := events[|events| - 1];
      EventsAt(events[..|events| - 1], start, end) +
      (if last.startTime == start && last.endTime == end then [last] else [])
  }

  /** No two blocks have the same start and end time. */
  predicate DistinctTimes(blocks: seq<TimeBlock>) {
    forall i, j :: 0 <= i < j < |blocks| ==>
      !(blocks[i].startTime == blocks[j].startTime && blocks[i].endTime == blocks[j].endTime)
  }

  /**
   * `blocks` partition `events` by their times: the blocks' times are
   * distinct, each block holds exactly the events with its times in input
   * order (so never none), and every event has a block.
   */
  ghost predicate Partition(blocks: seq<TimeBlock>, events: seq<Event>) {
    && DistinctTimes(blocks)
    && (forall i :: 0 <= i < |blocks| ==>
          blocks[i].events == EventsAt(events, blocks[i].startTime, blocks[i].endTime) && blocks[i].events != [])
    && (forall k :: 0 <= k < |events| ==> exists i :: 0 <= i < |blocks| && SameTimes(blocks[i], events[k]))
  }

  lemma EventsAtSnoc(init: seq<Event>, e: Event, start: string, end: string)
    ensures EventsAt(init + [e], start, end) ==
            EventsAt(init, start, end) + (if e.startTime == start && e.endTime == end then [e] else [])
  {
    assert (init + [e])[..|init|] == init;
  }

  /** An event whose times have a block joins that block. */
  lemma StepJoin(blocks: seq<TimeBlock>, init: seq<Event>, e: Event, b: nat)
    requires Partition(blocks, init) && FindBlock(blocks, e) == Some(b)
    ensures Partition(AddEvent(blocks, e), init + [e])
  {
    var g' := AddEvent(blocks, e);
    var events := init + [e];
    forall i | 0 <= i < |g'|
      ensures g'[i].events == EventsAt(events, g'[i].startTime, g'[i].endTime) && g'[i].events != []
    {
      EventsAtSnoc(init, e, g'[i].startTime, g'[i].endTime);
      if i != b {
        assert !SameTimes(blocks[i], e);
      }
    }
    forall k | 0 <= k < |events|
      ensures exists i :: 0 <= i < |g'| && SameTimes(g'[i], events[k])
    {
      if k < |init| {
        assert events[k] == init[k];
        var i :| 0 <= i < |blocks| && SameTimes(blocks[i], init[k]);
        assert SameTimes(g'[i], events[k]);
      } else {
        assert SameTimes(g'[b], events[k]);
      }
    }
  }

  /** An event with new times opens a block at the end. */
  lemma StepOpen(blocks: seq<TimeBlock>, init: seq<Event>, e: Event)
    requires Partition(blocks, init) && FindBlock(blocks, e).None?
    ensures Partition(AddEvent(blocks, e), init + [e])
  {
    var g' := AddEvent(blocks, e);
    var events := init + [e];
    forall k | 0 <= k < |init| ensures !(init[k].startTime == e.startTime && init[k].endTime == e.endTime) {
      var i :| 0 <= i < |blocks| && SameTimes(blocks[i], init[k]);
      assert !SameTimes(blocks[i], e);
    }
    NoneAt(init, e.startTime, e.endTime);
    forall i | 0 <= i < |g'|
      ensures g'[i].events == EventsAt(events, g'[i].startTime, g'[i].endTime) && g'[i].events != []
    {
      EventsAtSnoc(init, e, g'[i].startTime, g'[i].endTime);
      if i < |blocks| {
        assert g'[i] == blocks[i];
        assert !SameTimes(blocks[i], e);
      }
    }
    forall k | 0 <= k < |events|
      ensures exists i :: 0 <= i < |g'| && SameTimes(g'[i], events[k])
    {
      if k < |init| {
        assert events[k] == init[k];
        var i :| 0 <= i < |blocks| && SameTimes(blocks[i], init[k]);
        assert SameTimes(g'[i], events[k]);
      } else {
        assert SameTimes(g'[|blocks|], events[k]);
      }
    }
  }

  /** `groupEventsByTime` partitions the events by their times. */
  lemma {:induction false} GroupedPartitions(events: seq<Event>)
    ensures Partition(Grouped(events), events)
  {
    if events != [] {
      var init := events[..|events| - 1];
      var e := events[|events| - 1];
      assert events == init + [e];
      GroupedPartitions(init);
      match FindBlock(Grouped(init), e)
      case Some(b) => StepJoin(Grouped(init), init, e, b);
      case None => StepOpen(Grouped(init), init, e);
    }
  }

  /** No event has the given times, so none are collected. */
  lemma {:induction false} NoneAt(events: seq<Event>, start: string, end: string)
    requires forall k :: 0 <= k < |events| ==> !(events[k].startTime == start && events[k].endTime == end)
    ensures EventsAt(events, start, end) == []
  {
    if events != [] {
      NoneAt(events[..|events| - 1], start, end);
    }
  }

  /** The number of events held by the blocks. */
  function TotalEvents(blocks: seq<TimeBlock>): nat {
    if blocks == [] then 0 else |blocks[0].events| + TotalEvents(blocks[1..])
  }

  lemma {:induction false} TotalEventsAppend(blocks: seq<TimeBlock>, b: TimeBlock)
    ensures TotalEvents(blocks + [b]) == TotalEvents(blocks) + |b.events|
  {
    if blocks != [] {
      assert (blocks + [b])[1..] == blocks[1..] + [b];
      TotalEventsAppend(blocks[1..], b);
    }
  }

  lemma {:induction false} TotalEventsUpdate(blocks: seq<TimeBlock>, i: nat, b: TimeBlock)
    requires i < |blocks|
    ensures TotalEvents(blocks[i := b]) == TotalEvents(blocks) - |blocks[i].events| + |b.events|
  {
    if i > 0 {
      assert blocks[i := b][1..] == blocks[1..][i - 1 := b];
      TotalEventsUpdate(blocks[1..], i - 1, b);
    }
  }

  /** Grouping neither loses nor duplicates events. */
  lemma {:induction false} GroupedKeepsCount(events: seq<Event>)
    ensures TotalEvents(Grouped(events)) == |events|
  {
    if events != [] {
      var init := events[..|events| - 1];
      var e := events[|events| - 1];
      var g := Grouped(init);
      GroupedKeepsCount(init);
      match FindBlock(g, e)
      case Some(b) =>
        TotalEventsUpdate(g, b, g[b].(events := g[b].events + [e]));
      case None =>
        TotalEventsAppend(g, TimeBlock(e.startTime, e.endTime, [e]));
    }
  }

  /** The index of the first event with the given times. */
  function FirstAt(events: seq<Event>, start: string, end: string): (r: Option<nat>)
    ensures r.Some? ==> r.value < |events| && events[r.value].startTime == start && events[r.value].endTime == end
    ensures r.Some? ==> forall k :: 0 <= k < r.value ==> !(events[k].startTime == start && events[k].endTime == end)
    ensures r.None? ==> forall k :: 0 <= k < |events| ==> !(events[k].startTime == start && events[k].endTime == end)
  {
    if events == [] then None
    else if events[0].startTime == start && events[0].endTime == end then Some(0)
    else match FirstAt(events[1..], start, end)
      case None => None
      case Some(i) => Some(i + 1)
  }

  /** Appending an event does not move a first occurrence, and creates one for new times. */
  lemma FirstAtSnoc(init: seq<Event>, e: Event, start: string, end: string)
    ensures FirstAt(init, start, end).Some? ==> FirstAt(init + [e], start, end) == FirstAt(init, start, end)
    ensures FirstAt(init, start, end).None? && e.startTime == start && e.endTime == end ==>
              FirstAt(init + [e], start, end) == Some(|init|)
  {
    var events := init + [e];
    assert forall k :: 0 <= k < |init| ==> events[k] == init[k];
    assert events[|init|] == e;
  }

  /** Every block's times occur in `events`, and blocks are ordered by their first occurrence. */
  ghost predicate InFirstOccurrenceOrder(blocks: seq<TimeBlock>, events: seq<Event>) {
    && (forall i :: 0 <= i < |blocks| ==> FirstAt(events, blocks[i].startTime, blocks[i].endTime).Some?)
    && (forall i, j :: 0 <= i < j < |blocks| ==>
          FirstAt(events, blocks[i].startTime, blocks[i].endTime).value <
          FirstAt(events, blocks[j].startTime, blocks[j].endTime).value)
  }

  /** The first occurrences of the existing blocks' times survive appending an event. */
  lemma FirstAtBlocksSnoc(blocks: seq<TimeBlock>, init: seq<Event>, e: Event)
    requires InFirstOccurrenceOrder(blocks, init)
    ensures forall i :: 0 <= i < |blocks| ==>
              FirstAt(init + [e], blocks[i].startTime, blocks[i].endTime) ==
              FirstAt(init, blocks[i].startTime, blocks[i].endTime)
    ensures InFirstOccurrenceOrder(blocks, init + [e])
  {
    forall i | 0 <= i < |blocks|
      ensures FirstAt(init + [e], blocks[i].startTime, blocks[i].endTime) ==
              FirstAt(init, blocks[i].startTime, blocks[i].endTime)
    {
      FirstAtSnoc(init, e, blocks[i].startTime, blocks[i].endTime);
    }
  }

  /** Blocks with the same times in the same order are ordered alike. */
  lemma OrderSameTimes(blocks: seq<TimeBlock>, blocks': seq<TimeBlock>, events: seq<Event>)
    requires InFirstOccurrenceOrder(blocks, events)
    requires |blocks'| == |blocks|
    requires forall i :: 0 <= i < |blocks| ==>
               blocks'[i].startTime == blocks[i].startTime && blocks'[i].endTime == blocks[i].endTime
    ensures InFirstOccurrenceOrder(blocks', events)
  {
    forall i, j | 0 <= i < j < |blocks'|
      ensures FirstAt(events, blocks'[i].startTime, blocks'[i].endTime).Some?
      ensures FirstAt(events, blocks'[i].startTime, blocks'[i].endTime).value <
              FirstAt(events, blocks'[j].startTime, blocks'[j].endTime).value
    {
    }
  }

  /** A block whose times first occur after all others' may go last. */
  lemma OrderAppend(blocks: seq<TimeBlock>, b: TimeBlock, events: seq<Event>, m: nat)
    requires InFirstOccurrenceOrder(blocks, events)
    requires FirstAt(events, b.startTime, b.endTime) == Some(m)
    requires forall i :: 0 <= i < |blocks| ==> FirstAt(events, blocks[i].startTime, blocks[i].endTime).value < m
    ensures InFirstOccurrenceOrder(blocks + [b], events)
  {
    var g := blocks + [b];
    forall i | 0 <= i < |g| ensures FirstAt(events, g[i].startTime, g[i].endTime).Some? {
      if i < |blocks| { assert g[i] == blocks[i]; }
    }
    forall i, j | 0 <= i < j < |g|
      ensures FirstAt(events, g[i].startTime, g[i].endTime).value <
              FirstAt(events, g[j].startTime, g[j].endTime).value
    {
      assert g[i] == blocks[i];
      if j < |blocks| { assert g[j] == blocks[j]; }
    }
  }

  /** Times without a block occur nowhere in the events processed so far. */
  lemma NewTimesAbsent(blocks: seq<TimeBlock>, init: seq<Event>, e: Event)
    requires Partition(blocks, init) && FindBlock(blocks, e).None?
    ensures forall k :: 0 <= k < |init| ==> !(init[k].startTime == e.startTime && init[k].endTime == e.endTime)
  {
    forall k | 0 <= k < |init| ensures !(init[k].startTime == e.startTime && init[k].endTime == e.endTime) {
      var i :| 0 <= i < |blocks| && SameTimes(blocks[i], init[k]);
      assert !SameTimes(blocks[i], e);
    }
  }

  /** Adding an event preserves first-occurrence order. */
  lemma OrderStep(blocks: seq<TimeBlock>, init: seq<Event>, e: Event)
    requires Partition(blocks, init) && InFirstOccurrenceOrder(blocks, init)
    ensures InFirstOccurrenceOrder(AddEvent(blocks, e), init + [e])
  {
    FirstAtBlocksSnoc(blocks, init, e);
    match FindBlock(blocks, e)
    case Some(b) =>
      OrderSameTimes(blocks, AddEvent(blocks, e), init + [e]);
    case None =>
      NewTimesAbsent(blocks, init, e);
      FirstAtSnoc(init, e, e.startTime, e.endTime);
      OrderAppend(blocks, TimeBlock(e.startTime, e.endTime, [e]), init + [e], |init|);
  }

  /** Blocks appear in the order in which their times first occur in the input. */
  lemma {:induction false} GroupedFirstOccurrenceOrder(events: seq<Event>)
    ensures InFirstOccurrenceOrder(Grouped(events), events)
  {
    if events != [] {
      var init := events[..|events| - 1];
      var e := events[|events| - 1];
      assert events == init + [e];
      GroupedFirstOccurrenceOrder(init);
      GroupedPartitions(init);
      OrderStep(Grouped(init), init, e);
    }
  }
}
