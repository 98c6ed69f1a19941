/**
 * The client-side calendar model: a calendar event that snaps to the
 * 15-minute grid after it is dragged and that is saved as created or
 * updated, and the collection of loaded events with its filters.
 * Instants are whole seconds since the epoch in UTC; an event's identity is
 * its object identity.
 */
module CalendarModel {
  import opened Optional
  import opened Grid
  import opened Clock
  import opened Collections

  /** What saving an event does: nothing, a create request or an update request. */
  datatype SaveAction = NoSave | Create | Update

  /** JavaScript truthiness of an optional string: present and not empty. */
  predicate Truthy(s: Option<string>) {
    s.Some? && s.value != ""
  }

  /** An event with a truthy `_id` is updated, any other is created. */
  function SaveActionFor(id: Option<string>): (a: SaveAction)
    ensures a == Update <==> Truthy(id)
    ensures a == Create <==> !Truthy(id)
  {
    if Truthy(id) then Update else Create
  }

  /** `later.diff(earlier, 'minutes')`: whole minutes, truncated toward zero. */
  function DiffMinutes(later: int, earlier: int): (m: int)
    ensures later >= earlier ==> 0 <= m * Minute <= later - earlier < m * Minute + Minute
    ensures later < earlier ==> m * Minute - Minute < later - earlier <= m * Minute <= 0
  {
    var d := later - earlier;
    if d >= 0 then d / Minute else -((-d) / Minute)
  }

  /** The all-day clock times given on save: 07:00 and 20:00 (`model.timeConfig`). */
  const StartHour := 7
  const EndHour := 20

  class CalendarEvent {
    const id: Option<string>
    const calendarId: string
    const parentId: Option<string>
    var allday: bool
    /** Where the event was dropped on the grid; absent until it is placed. */
    var beginning: Option<int>
    var end: int
    var startMoment: int
    var endMoment: int
    /**
     * Whether `beginning` and `end` are the very moment objects held in
     * `startMoment` and `endMoment`, as they are once `calendarUpdate` has
     * snapped the event: a setter applied to one then moves the other too.
     */
    var momentsShared: bool

    /** Shared moments are one and the same: `beginning` and `end` read as the start and end. */
    predicate Valid()
      reads this
    {
      momentsShared ==> beginning == Some(startMoment) && end == endMoment
    }

    constructor (id: Option<string>, calendarId: string, parentId: Option<string>, allday: bool,
                 startMoment: int, endMoment: int)
      ensures this.id == id && this.calendarId == calendarId && this.parentId == parentId
      ensures this.allday == allday && this.beginning == Some(startMoment) && this.end == endMoment
      ensures this.startMoment == startMoment && this.endMoment == endMoment && !this.momentsShared
      ensures Valid()
    {
      this.id := id;
      this.calendarId := calendarId;
      this.parentId := parentId;
      this.allday := allday;
      this.beginning := Some(startMoment);
      this.end := endMoment;
      this.startMoment := startMoment;
      this.endMoment := endMoment;
      this.momentsShared := false;
    }

    /**
     * Saving an all-day event first puts its start at 07:00 and its end at
     * 20:00 of their days; the event is then updated if it has an id and
     * created otherwise. When `beginning` and `end` share their moment
     * objects with the start and end, they move with them.
     */
    method Save() returns (action: SaveAction)
      requires Valid()
      modifies this
      ensures Valid()
      ensures old(allday) ==>
        startMoment == AtHour(old(startMoment), StartHour) && endMoment == AtHour(old(endMoment), EndHour)
      ensures !old(allday) ==> startMoment == old(startMoment) && endMoment == old(endMoment)
      ensures old(allday) && old(momentsShared) ==> beginning == Some(startMoment) && end == endMoment
      ensures !(old(allday) && old(momentsShared)) ==> beginning == old(beginning) && end == old(end)
      ensures allday == old(allday) && momentsShared == old(momentsShared)
      ensures action == SaveActionFor(id)
    {
      if allday {
        startMoment := SetMinutes(SetHours(startMoment, StartHour), 0);
        endMoment := SetMinutes(SetHours(endMoment, EndHour), 0);
        if momentsShared {
          beginning := Some(startMoment);
          end := endMoment;
        }
      }
      if Truthy(id) {
        action := Update;
      } else {
        action := Create;
      }
    }

    /**
     * After a drag or a resize: an event spanning at most one interval is left
     * alone and not saved. Otherwise a placed event is snapped to the grid and
     * all four instants take the snapped span, and the event is saved. An
     * unplaced event is measured from `now`, as `moment(undefined)` is.
     * Once snapped, `beginning` and `end` are the same objects as the start
     * and end moments.
     */
    method CalendarUpdate(now: int) returns (action: SaveAction)
      requires Valid()
      modifies this
      ensures Valid()
      ensures var earlier := if old(beginning).Some? then old(beginning).value else now;
        if DiffMinutes(old(end), earlier) <= IntervalMinutes then
          action == NoSave && beginning == old(beginning) && end == old(end)
          && startMoment == old(startMoment) && endMoment == old(endMoment)
        else
          action == SaveActionFor(id)
          && (old(beginning).None? ==>
                beginning == old(beginning) && end == old(end)
                && startMoment == old(startMoment) && endMoment == old(endMoment))
          && (old(beginning).Some? ==>
                old(beginning).value <= old(end)
                && var snapped := SnapEvent(old(beginning).value, old(end));
                startMoment == snapped.start && beginning == Some(snapped.start)
                && endMoment == snapped.end && end == snapped.end && momentsShared)
      ensures !(old(beginning).Some? && DiffMinutes(old(end), old(beginning).value) > IntervalMinutes) ==>
        momentsShared == old(momentsShared)
      ensures allday == old(allday)
    {
      var earlier := if beginning.Some? then beginning.value else now;
      if DiffMinutes(end, earlier) <= IntervalMinutes {
        return NoSave;
      }
      if beginning.Some? {
        var startAt := beginning.value;
        var endAt := end;
        var duration := endAt - startAt;
        if duration % IntervalSeconds <= IntervalSeconds / 2 {
          duration := (duration / IntervalSeconds) * IntervalSeconds;
        } else {
          duration := ((duration + IntervalSeconds) / IntervalSeconds) * IntervalSeconds;
        }
        assert duration == RoundDuration(old(end) - old(beginning).value);
        var startSecond;
        startAt, startSecond := SnapToGrid(startAt);
        var endSecond;
        endAt, endSecond := SnapToGrid(endAt);
        if startSecond <= endSecond {
          endAt := startAt + duration;
        } else {
          startAt := endAt - duration;
        }
        startMoment := startAt;
        endMoment := endAt;
        beginning := Some(startAt);
        end := endAt;
        momentsShared := true;
      }
      if Truthy(id) {
        action := Update;
      } else {
        action := Create;
      }
    }
  }

  /** An event whose two ends are on the grid is left where it is. */
  lemma SnapEventOnGrid(start: int, end: int)
    requires start <= end && start % IntervalSeconds == 0 && end % IntervalSeconds == 0
    ensures SnapEvent(start, end) == Span(start, end)
  {
    OnGridFixed(start);
    OnGridFixed(end);
    GridClosed(end, start);
    RoundDurationOnGrid(end - start);
  }

  /**
   * An all-day event dropped on the grid and then saved: the save puts its
   * start at 07:00 and its end at 20:00 of their days, and because the drop
   * left `beginning` and `end` sharing those moments, they move there too.
   */
  method DropThenSaveAllDay(start: int, end: int) returns (beginning: Option<int>, endAt: int)
    requires start % IntervalSeconds == 0 && end % IntervalSeconds == 0 && start + IntervalSeconds < end
    ensures beginning == Some(AtHour(start, StartHour)) && endAt == AtHour(end, EndHour)
  {
    var e := new CalendarEvent(None, "calendar", None, true, start, end);
    SnapEventOnGrid(start, end);
    var updated := e.CalendarUpdate(start);
    var saved := e.Save();
    beginning, endAt := e.beginning, e.end;
  }

  /**
   * One endpoint of `calendarUpdate`: its seconds into the hour are rounded to
   * the grid, the minutes set and the seconds cleared; also returns how far it moved.
   */
  method SnapToGrid(t: int) returns (snapped: int, moved: int)
    ensures snapped == SnapPoint(t) && moved == Displacement(t)
    ensures snapped % IntervalSeconds == 0 && moved == Abs(snapped - t) && moved <= HalfInterval
  {
    FieldsOf(t);
    DisplacementIsDistance(t);
    var second := MinuteOf(t) * Minute + SecondOf(t);
    RoundDurationOffset(second);
    var minute;
    if second % IntervalSeconds <= IntervalSeconds / 2 {
      var q := second / IntervalSeconds;
      minute := q * IntervalMinutes;
      assert minute * Minute == q * IntervalSeconds == RoundDuration(second);
      moved := second % IntervalSeconds;
    } else {
      var q := (second + IntervalSeconds) / IntervalSeconds;
      minute := q * IntervalMinutes;
      assert minute * Minute == q * IntervalSeconds == RoundDuration(second);
      moved := IntervalSeconds - second % IntervalSeconds;
    }
    SetMinutesCarry(t, minute);
    snapped := SetSeconds(SetMinutes(t, minute), 0);
  }

  /** The events of the given calendar, in order. */
  function OfCalendar(s: seq<CalendarEvent>, calendarId: string): seq<CalendarEvent>
  {
    if s == [] then []
    else
      var r := OfCalendar(s[..|s| - 1], calendarId);
      if s[|s| - 1].calendarId == calendarId then r + [s[|s| - 1]] else r
  }

  /** The events of every other calendar, in order. */
  function OfOtherCalendars(s: seq<CalendarEvent>, calendarId: string): seq<CalendarEvent>
  {
    if s == [] then []
    else
      var r := OfOtherCalendars(s[..|s| - 1], calendarId);
      if s[|s| - 1].calendarId == calendarId then r else r + [s[|s| - 1]]
  }

  /** The events with a truthy parent id equal to `parentId`, in order. */
  function WithParent(s: seq<CalendarEvent>, parentId: Option<string>): seq<CalendarEvent>
  {
    if s == [] then []
    else
      var r := WithParent(s[..|s| - 1], parentId);
      var e := s[|s| - 1];
      if Truthy(e.parentId) && e.parentId == parentId then r + [e] else r
  }

  /**
   * The occurrences of the recurrence `event` belongs to: none when it has no
   * parent id, and none when the only one is an event with its own id.
   */
  function RecurrenceEvents(s: seq<CalendarEvent>, event: CalendarEvent): seq<CalendarEvent>
  {
    var r := WithParent(s, if Truthy(event.parentId) then event.parentId else None);
    if |r| == 1 && r[0].id == event.id then [] else r
  }

  /** An event intersects the filter window: starts before the day after its end, ends after its start. */
  predicate InWindow(e: CalendarEvent, filterStart: int, filterEnd: int)
    reads e
  {
    e.startMoment < filterEnd + Day && e.endMoment > filterStart
  }

  /** The events that intersect the filter window, in order. */
  function Filtered(s: seq<CalendarEvent>, filterStart: int, filterEnd: int): seq<CalendarEvent>
    reads set e | e in s
  {
    if s == [] then []
    else
      var r := Filtered(s[..|s| - 1], filterStart, filterEnd);
      if InWindow(s[|s| - 1], filterStart, filterEnd) then r + [s[|s| - 1]] else r
  }

  /** The collection of loaded events, and the subset shown under the current date filter. */
  class CalendarEvents {
    var all: seq<CalendarEvent>
    var filtered: seq<CalendarEvent>
    var filterStart: int
    var filterEnd: int

    constructor (filterStart: int, filterEnd: int)
      ensures all == [] && filtered == []
      ensures this.filterStart == filterStart && this.filterEnd == filterEnd
    {
      all := [];
      filtered := [];
      this.filterStart := filterStart;
      this.filterEnd := filterEnd;
    }

    /** With data, `all` becomes its union with the data; without, nothing changes. */
    method PushAll(datas: Option<seq<CalendarEvent>>)
      modifies this
      ensures all == if datas.Some? then Union(old(all), datas.value) else old(all)
      ensures filtered == old(filtered) && filterStart == old(filterStart) && filterEnd == old(filterEnd)
    {
      if datas.Some? {
        all := Union(all, datas.value);
      }
    }

    /** With data, the given events are taken out of `all`; without, nothing changes. */
    method PullAll(datas: Option<seq<CalendarEvent>>)
      modifies this
      ensures all == if datas.Some? then Difference(old(all), datas.value) else old(all)
      ensures filtered == old(filtered) && filterStart == old(filterStart) && filterEnd == old(filterEnd)
    {
      if datas.Some? {
        all := Difference(all, datas.value);
      }
    }

    /** Takes every event of the given calendar out of `all`, leaving the others in order. */
    method RemoveCalendarEvents(calendarId: Option<string>)
      modifies this
      ensures all == if calendarId.Some? then OfOtherCalendars(old(all), calendarId.value) else old(all)
      ensures filtered == old(filtered) && filterStart == old(filterStart) && filterEnd == old(filterEnd)
    {
      if calendarId.Some? {
        var matches: seq<CalendarEvent> := [];
        var i := 0;
        while i < |all|
          invariant 0 <= i <= |all|
          invariant matches == OfCalendar(all[..i], calendarId.value)
        {
          assert all[..i + 1][..i] == all[..i];
          if all[i].calendarId == calendarId.value {
            matches := matches + [all[i]];
          }
          i := i + 1;
        }
        assert all[..|all|] == all;
        PullMatching(all, calendarId.value);
        PullAll(Some(matches));
      }
    }

    /** The other occurrences of `event`'s recurrence among the loaded events. */
    method GetRecurrenceEvents(event: CalendarEvent) returns (events: seq<CalendarEvent>)
      ensures events == RecurrenceEvents(all, event)
    {
      var parentId := if Truthy(event.parentId) then event.parentId else None;
      events := [];
      var i := 0;
      while i < |all|
        invariant 0 <= i <= |all|
        invariant events == WithParent(all[..i], parentId)
      {
        assert all[..i + 1][..i] == all[..i];
        var item := all[i];
        if Truthy(item.parentId) && item.parentId == parentId {
          events := events + [item];
        }
        i := i + 1;
      }
      assert all[..|all|] == all;
      if |events| == 1 && events[0].id == event.id {
        events := [];
      }
    }

    method Clear()
      modifies this
      ensures all == []
      ensures filtered == old(filtered) && filterStart == old(filterStart) && filterEnd == old(filterEnd)
    {
      all := [];
    }

    /** `filtered` becomes the events of `all` that intersect the filter window. */
    method ApplyFilters()
      modifies this
      ensures filtered == Filtered(all, filterStart, filterEnd)
      ensures all == old(all) && filterStart == old(filterStart) && filterEnd == old(filterEnd)
    {
      filtered := Filtered(all, filterStart, filterEnd);
    }
  }

  /** Taking out the events of a calendar, found among the same list, leaves exactly the other calendars' events. */
  lemma PullMatching(s: seq<CalendarEvent>, calendarId: string)
    ensures Difference(s, OfCalendar(s, calendarId)) == OfOtherCalendars(s, calendarId)
  {
    OfCalendarMembers(s, calendarId);
    DifferenceByCalendar(s, OfCalendar(s, calendarId), calendarId);
  }

  /** An event is among a calendar's events exactly when it is in the list and belongs to it. */
  lemma {:induction false} OfCalendarMembers(s: seq<CalendarEvent>, calendarId: string)
    ensures forall e :: e in OfCalendar(s, calendarId) <==> e in s && e.calendarId == calendarId
  {
    if s != [] {
      OfCalendarMembers(s[..|s| - 1], calendarId);
      assert s == s[..|s| - 1] + [s[|s| - 1]];
    }
  }

  lemma {:induction false} DifferenceByCalendar(s: seq<CalendarEvent>, taken: seq<CalendarEvent>, calendarId: string)
    requires forall e :: e in s ==> (e in taken <==> e.calendarId == calendarId)
    ensures Difference(s, taken) == OfOtherCalendars(s, calendarId)
  {
    if s != [] {
      var init := s[..|s| - 1];
      assert forall e :: e in init ==> e in s;
      DifferenceByCalendar(init, taken, calendarId);
    }
  }

  /**
   * Removing a calendar's events keeps every other event as often as it was
   * there and leaves none of that calendar behind.
   */
  lemma {:induction false} OtherCalendarsSpec(s: seq<CalendarEvent>, calendarId: string)
    ensures forall e :: e in OfOtherCalendars(s, calendarId) ==> e in s && e.calendarId != calendarId
    ensures forall e: CalendarEvent | e.calendarId != calendarId :: multiset(OfOtherCalendars(s, calendarId))[e] == multiset(s)[e]
  {
    if s != [] {
      var init := s[..|s| - 1];
      OtherCalendarsSpec(init, calendarId);
      assert s == init + [s[|s| - 1]];
    }
  }

  /** An event is listed with a parent id exactly when it is loaded and has that truthy parent id. */
  lemma {:induction false} WithParentMembers(s: seq<CalendarEvent>, parentId: Option<string>)
    ensures forall e :: e in WithParent(s, parentId) <==> e in s && Truthy(e.parentId) && e.parentId == parentId
  {
    if s != [] {
      WithParentMembers(s[..|s| - 1], parentId);
      assert s == s[..|s| - 1] + [s[|s| - 1]];
    }
  }

  /**
   * The recurrence events share `event`'s truthy parent id; when there are
   * any, they are all the loaded events that do; and there are none exactly
   * when `event` has no parent id, no loaded event shares it, or the only one
   * that does has `event`'s id.
   */
  lemma RecurrenceEventsSpec(s: seq<CalendarEvent>, event: CalendarEvent)
    ensures var r := RecurrenceEvents(s, event);
      && (forall e :: e in r ==> e in s && Truthy(e.parentId) && e.parentId == event.parentId)
      && (r != [] ==> forall e :: e in s && Truthy(e.parentId) && e.parentId == event.parentId ==> e in r)
      && (r == [] <==> !Truthy(event.parentId) || WithParent(s, event.parentId) == []
                       || (|WithParent(s, event.parentId)| == 1 && WithParent(s, event.parentId)[0].id == event.id))
  {
    if Truthy(event.parentId) {
      RecurrenceOfParent(s, event);
      forall e | e in RecurrenceEvents(s, event)
        ensures e in s && Truthy(e.parentId) && e.parentId == event.parentId
      {
        RecurrenceMember(s, event, e);
      }
    } else {
      WithParentNone(s, event.parentId);
    }
  }

  lemma RecurrenceOfParent(s: seq<CalendarEvent>, event: CalendarEvent)
    requires Truthy(event.parentId)
    ensures var w := WithParent(s, event.parentId);
      RecurrenceEvents(s, event) == if |w| == 1 && w[0].id == event.id then [] else w
    ensures forall e :: e in WithParent(s, event.parentId) <==> e in s && Truthy(e.parentId) && e.parentId == event.parentId
  {
    WithParentMembers(s, event.parentId);
  }

  lemma RecurrenceMember(s: seq<CalendarEvent>, event: CalendarEvent, e: CalendarEvent)
    requires Truthy(event.parentId) && e in RecurrenceEvents(s, event)
    ensures e in s && Truthy(e.parentId) && e.parentId == event.parentId
  {
    RecurrenceOfParent(s, event);
  }

  lemma {:induction false} WithParentNone(s: seq<CalendarEvent>, parentId: Option<string>)
    requires !Truthy(parentId)
    ensures WithParent(s, parentId) == [] && WithParent(s, None) == []
  {
    if s != [] {
      WithParentNone(s[..|s| - 1], parentId);
    }
  }

  /** An event is shown exactly when it is loaded and intersects the filter window. */
  lemma {:induction false} FilteredMembers(s: seq<CalendarEvent>, filterStart: int, filterEnd: int)
    ensures forall e :: e in Filtered(s, filterStart, filterEnd) <==> e in s && InWindow(e, filterStart, filterEnd)
  {
    if s != [] {
      FilteredMembers(s[..|s| - 1], filterStart, filterEnd);
      assert s == s[..|s| - 1] + [s[|s| - 1]];
    }
  }

  /** Filtering works event by event, so the shown events keep their loaded order. */
  lemma {:induction false} FilteredAppend(a: seq<CalendarEvent>, b: seq<CalendarEvent>, filterStart: int, filterEnd: int)
    ensures Filtered(a + b, filterStart, filterEnd) == Filtered(a, filterStart, filterEnd) + Filtered(b, filterStart, filterEnd)
  {
    if b == [] {
      assert a + b == a;
    } else {
      var init := b[..|b| - 1];
      FilteredAppend(a, init, filterStart, filterEnd);
      assert (a + b)[..|a + b| - 1] == a + init;
    }
  }

  /** Removing a calendar's events works event by event, so the events that stay keep their order. */
  lemma {:induction false} OtherCalendarsAppend(a: seq<CalendarEvent>, b: seq<CalendarEvent>, calendarId: string)
    ensures OfOtherCalendars(a + b, calendarId) == OfOtherCalendars(a, calendarId) + OfOtherCalendars(b, calendarId)
  {
    if b == [] {
      assert a + b == a;
    } else {
      var init := b[..|b| - 1];
      OtherCalendarsAppend(a, init, calendarId);
      assert (a + b)[..|a + b| - 1] == a + init;
    }
  }
}
