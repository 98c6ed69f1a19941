/**
 * The iCalendar worker (ICalHandler.java): a request/reply handler that turns
 * a list of JSON events into an iCalendar document ("get") or an iCalendar
 * document into a list of JSON events ("put").
 *
 * Each conversion exists twice: as a method that builds its result step by
 * step, as the worker does, and as the function that specifies the method.
 * An exception that escapes the worker means that no reply is sent; that is
 * the `None` reply here.
 */
module ICalHandler {
  import opened Optional
  import opened Moment
  import opened Json
  import opened ICal
  import opened Batch

  const ActionGet := "get"
  const ActionPut := "put"

  /** The product identifier every generated document carries. */
  const ProductId := "-//OpenENT Calendar 1.0//EN"

  /** PRODID, VERSION and CALSCALE (sections 3.7.3, 3.7.4 and 3.7.1 of RFC 5545). */
  const Envelope := [
    Property("PRODID", ProductId),
    Property("VERSION", "2.0"),
    Property("CALSCALE", "GREGORIAN")
  ]

  /** What the worker replies: a document with a status, or a list of events. */
  datatype Reply =
    | IcsReply(ics: Document, status: int)
    | EventsReply(events: seq<Fields>)

  /** Which conversion a request asks for. */
  datatype Direction = ToIcs | FromIcs | NoAction

  /** The action switch: only the two exact tags select a conversion. */
  function Route(action: string): (d: Direction)
    ensures d == ToIcs <==> action == ActionGet
    ensures d == FromIcs <==> action == ActionPut
    ensures d == NoAction <==> action != ActionGet && action != ActionPut
  {
    if action == ActionGet then ToIcs
    else if action == ActionPut then FromIcs
    else NoAction
  }

  // ===========================================================================
  // Encode: JSON events to an iCalendar document

  /** Parsing with the fixed pattern; a `null` string fails like a malformed one. */
  function ParseMoment(s: Option<string>): (r: Option<Instant>)
    ensures s.None? ==> r.None?
    ensures s.Some? ==> r == Parse(s.value)
  {
    match s
    case None => None
    case Some(text) => Parse(text)
  }

  /** The VEVENT for an all-day event: the start date alone, the summary and the UID. */
  function AllDayEvent(date: Instant, title: Option<string>, icsUid: Option<string>): VEvent {
    NewDateEvent(date, title).(uid := icsUid)
  }

  /** The VEVENT for a timed event: start and end date-times, the summary and the UID. */
  function TimedEvent(start: Instant, end: Instant, title: Option<string>, icsUid: Option<string>): VEvent {
    NewTimedEvent(start, end, title).(uid := icsUid)
  }

  /**
   * One input event. Reading a field of the wrong type, or a non-object
   * element, raises outside the worker's try block; an instant that does not
   * parse is caught and the event is skipped.
   */
  function EncodeEvent(v: JsonValue): (r: Outcome<Component>)
  {
    if !v.JObject? then Aborted
    else
      var ce := v.fields;
      var startMoment := GetString(ce, "startMoment");
      var endMoment := GetString(ce, "endMoment");
      var title := GetString(ce, "title");
      var icsUid := GetString(ce, "icsUid");
      var allDay := FlagSet(ce, "allday");
      if startMoment.Thrown? || endMoment.Thrown? || title.Thrown? || icsUid.Thrown? || allDay.Thrown? then
        Aborted
      else
        var startDate := ParseMoment(startMoment.v);
        var endDate := ParseMoment(endMoment.v);
        if startDate.None? || endDate.None? then Skipped
        else if allDay.v then Emitted(Event(AllDayEvent(startDate.value, title.v, icsUid.v)))
        else Emitted(Event(TimedEvent(startDate.value, endDate.value, title.v, icsUid.v)))
  }

  /** What each event of a list contributes. */
  function EncodeOutcomes(items: seq<JsonValue>): seq<Outcome<Component>>
  {
    MapSeq(EncodeEvent, items)
  }

  /** The components produced from a list of events, or `None` when an exception escapes. */
  function EncodeEvents(items: seq<JsonValue>): Option<seq<Component>> {
    Gather(EncodeOutcomes(items))
  }

  /** The reply to a "get" request. */
  function EncodeReply(body: Fields): Option<Reply>
  {
    match GetArray(body, "events")
    case Thrown => None
    case Value(items) =>
      match EncodeEvents(items)
      case None => None
      case Some(components) => Some(IcsReply(Document(Envelope, components), 200))
  }

  method InitCalendarProperties(calendar: Calendar)
    modifies calendar
    ensures calendar.properties == old(calendar.properties) + Envelope
    ensures calendar.components == old(calendar.components)
  {
    calendar.AddProperty(Property("PRODID", ProductId));
    calendar.AddProperty(Property("VERSION", "2.0"));
    calendar.AddProperty(Property("CALSCALE", "GREGORIAN"));
  }

  method AddAllDayEvent(calendar: Calendar, date: Instant, title: Option<string>, icsUid: Option<string>)
    modifies calendar
    ensures calendar.components == old(calendar.components) + [Event(AllDayEvent(date, title, icsUid))]
    ensures calendar.properties == old(calendar.properties)
  {
    var event := NewDateEvent(date, title);
    event := event.(uid := icsUid);
    calendar.AddComponent(Event(event));
  }

  method AddEvent(calendar: Calendar, start: Instant, end: Instant, title: Option<string>, icsUid: Option<string>)
    modifies calendar
    ensures calendar.components == old(calendar.components) + [Event(TimedEvent(start, end, title, icsUid))]
    ensures calendar.properties == old(calendar.properties)
  {
    var event := NewTimedEvent(start, end, title);
    event := event.(uid := icsUid);
    calendar.AddComponent(Event(event));
  }

  /**
   * The body of the worker's loop for one input event: reads its fields and
   * adds its VEVENT, or adds nothing when an instant does not parse. `false`
   * when a read raises, which ends the request.
   */
  method AddEncodedEvent(calendar: Calendar, item: JsonValue) returns (ok: bool)
    modifies calendar
    ensures ok <==> !EncodeEvent(item).Aborted?
    ensures EncodeEvent(item).Emitted? ==> calendar.components == old(calendar.components) + [EncodeEvent(item).value]
    ensures !EncodeEvent(item).Emitted? ==> calendar.components == old(calendar.components)
    ensures calendar.properties == old(calendar.properties)
  {
    if !item.JObject? {
      return false;
    }
    var ce := item.fields;
    var startMoment := GetString(ce, "startMoment");
    var endMoment := GetString(ce, "endMoment");
    var title := GetString(ce, "title");
    var icsUid := GetString(ce, "icsUid");
    var allDay := FlagSet(ce, "allday");
    if startMoment.Thrown? || endMoment.Thrown? || title.Thrown? || icsUid.Thrown? || allDay.Thrown? {
      return false;
    }
    var startDate := ParseMoment(startMoment.v);
    var endDate := ParseMoment(endMoment.v);
    if startDate.Some? && endDate.Some? {
      if allDay.v {
        AddAllDayEvent(calendar, startDate.value, title.v, icsUid.v);
      } else {
        AddEvent(calendar, startDate.value, endDate.value, title.v, icsUid.v);
      }
    }
    ok := true;
  }

  /** Handles a "get" request: builds the calendar event by event. */
  method JsonEventsToIcsContent(body: Fields) returns (reply: Option<Reply>)
    ensures reply == EncodeReply(body)
  {
    var calendar := new Calendar();
    InitCalendarProperties(calendar);
    var calendarEvents := GetArray(body, "events");
    if calendarEvents.Thrown? {
      return None;
    }
    var items := calendarEvents.v;
    ghost var outcomes := EncodeOutcomes(items);
    var i := 0;
    while i < |items|
      invariant 0 <= i <= |items|
      invariant Gather(outcomes[..i]) == Some(calendar.components)
      invariant calendar.properties == Envelope
    {
      GatherStep(outcomes, i);
      var ok := AddEncodedEvent(calendar, items[i]);
      if !ok {
        GatherAbortSticks(outcomes, i + 1);
        return None;
      }
      i := i + 1;
    }
    assert outcomes[..i] == outcomes;
    reply := Some(IcsReply(calendar.Snapshot(), 200));
  }

  // ===========================================================================
  // Decode: an iCalendar document to JSON events

  /** A text field written only when it is not empty. */
  function OmitEmpty(key: string, value: string): (m: Fields)
    ensures key in m <==> value != ""
    ensures key in m ==> m[key] == JString(value)
    ensures m.Keys <= {key}
  {
    if value == "" then map[] else map[key := JString(value)]
  }

  /**
   * `startMoment`, `endMoment` and, for an all-day event, `allday`. The event
   * is all-day exactly when DTSTART's VALUE parameter is "DATE"; then the hour
   * of both instants is set to 0. No DTSTART raises.
   */
  function EventDates(e: VEvent): Option<Fields>
  {
    match e.dtStart
    case None => None
    case Some(dtStart) =>
      var allDay := dtStart.valueParam.GetOr("") == "DATE";
      var start := ToInstant(dtStart.value);
      var end := ToInstant(EndValue(e).value);
      if allDay then
        Some(map["allday" := JBool(true),
                 "startMoment" := JString(Format(WithHour(start, 0))),
                 "endMoment" := JString(Format(WithHour(end, 0)))])
      else
        Some(map["startMoment" := JString(Format(start)),
                 "endMoment" := JString(Format(end))])
  }

  /**
   * `title`, `location`, `description` and `icsUid`, each left out when empty
   * or absent. A missing SUMMARY is dereferenced and raises.
   */
  function EventProperties(e: VEvent): Option<Fields>
  {
    match e.summary
    case None => None
    case Some(title) =>
      Some(OmitEmpty("title", title) + OmitEmpty("location", e.location.GetOr(""))
         + OmitEmpty("description", e.description.GetOr("")) + OmitEmpty("icsUid", e.uid.GetOr("")))
  }

  /** The JSON event for one VEVENT, or `None` when reading it raises. */
  function DecodeEvent(e: VEvent): Option<Fields>
  {
    match (EventDates(e), EventProperties(e))
    case (Some(dates), Some(props)) => Some(dates + props)
    case _ => None
  }

  /** What one component contributes: components other than VEVENT are passed over. */
  function DecodeComponent(c: Component): Outcome<Fields> {
    match c
    case Other(_) => Skipped
    case Event(e) =>
      match DecodeEvent(e)
      case None => Aborted
      case Some(f) => Emitted(f)
  }

  function DecodeOutcomes(cs: seq<Component>): seq<Outcome<Fields>>
  {
    MapSeq(DecodeComponent, cs)
  }

  /** The JSON events for a list of components, or `None` when reading one raises. */
  function DecodeComponents(cs: seq<Component>): Option<seq<Fields>> {
    Gather(DecodeOutcomes(cs))
  }

  /**
   * The reply to a "put" request. `build` is the iCalendar library's reader:
   * `None` when the text is not a calendar. A missing `ics` field, an
   * unreadable text or an event that raises gives no reply at all.
   */
  function DecodeReply(body: Fields, build: string -> Option<Document>): Option<Reply>
  {
    match GetString(body, "ics")
    case Thrown => None
    case Value(None) => None
    case Value(Some(text)) =>
      match build(text)
      case None => None
      case Some(doc) =>
        match DecodeComponents(doc.components)
        case None => None
        case Some(events) => Some(EventsReply(events))
  }

  /** Writes the instants of `event` into `jsonEvent`. */
  method SetEventDates(event: VEvent, jsonEvent: JsonObject) returns (ok: bool)
    modifies jsonEvent
    ensures ok == EventDates(event).Some?
    ensures ok ==> jsonEvent.fields == old(jsonEvent.fields) + EventDates(event).value
  {
    if event.dtStart.None? {
      return false;
    }
    var dtStartValue := if event.dtStart.value.valueParam.Some? then event.dtStart.value.valueParam.value else "";
    var allDay := dtStartValue == "DATE";
    var startDate := ToInstant(event.dtStart.value.value);
    var endDate := ToInstant(EndValue(event).value);
    var startMoment := Format(startDate);
    var endMoment := Format(endDate);
    ghost var before := jsonEvent.fields;
    if allDay {
      startMoment := Format(WithHour(startDate, 0));
      endMoment := Format(WithHour(endDate, 0));
      jsonEvent.PutBoolean("allday", allDay);
    }
    jsonEvent.PutString("startMoment", startMoment);
    jsonEvent.PutString("endMoment", endMoment);
    if allDay {
      PutsAreUnion(before, Some(JBool(true)), JString(startMoment), JString(endMoment), jsonEvent.fields);
    } else {
      PutsAreUnion(before, None, JString(startMoment), JString(endMoment), jsonEvent.fields);
    }
    ok := true;
  }

  /** The puts of `SetEventDates` amount to a union with the map `EventDates` gives. */
  lemma PutsAreUnion(before: Fields, allday: Option<JsonValue>, start: JsonValue, end: JsonValue, after: Fields)
    requires allday.Some? ==> after == before["allday" := allday.value]["startMoment" := start]["endMoment" := end]
    requires allday.None? ==> after == before["startMoment" := start]["endMoment" := end]
    ensures allday.Some? ==> after == before + map["allday" := allday.value, "startMoment" := start, "endMoment" := end]
    ensures allday.None? ==> after == before + map["startMoment" := start, "endMoment" := end]
  {
  }

  /** Writes the text properties of `event` into `jsonEvent`, skipping empty ones. */
  method SetEventProperties(event: VEvent, jsonEvent: JsonObject) returns (ok: bool)
    modifies jsonEvent
    ensures ok == EventProperties(event).Some?
    ensures ok ==> jsonEvent.fields == old(jsonEvent.fields) + EventProperties(event).value
  {
    if event.summary.None? {
      return false;
    }
    var title := event.summary.value;
    var location := if event.location.Some? then event.location.value else "";
    var description := if event.description.Some? then event.description.value else "";
    var uid := if event.uid.Some? then event.uid.value else "";
    ghost var start := jsonEvent.fields;
    if title != "" {
      jsonEvent.PutString("title", title);
    }
    PutUnlessEmpty(start, "title", title, jsonEvent.fields);
    ghost var afterTitle := jsonEvent.fields;
    if location != "" {
      jsonEvent.PutString("location", location);
    }
    PutUnlessEmpty(afterTitle, "location", location, jsonEvent.fields);
    ghost var afterLocation := jsonEvent.fields;
    if description != "" {
      jsonEvent.PutString("description", description);
    }
    PutUnlessEmpty(afterLocation, "description", description, jsonEvent.fields);
    ghost var afterDescription := jsonEvent.fields;
    if uid != "" {
      jsonEvent.PutString("icsUid", uid);
    }
    PutUnlessEmpty(afterDescription, "icsUid", uid, jsonEvent.fields);
    UnionAssociates(start, OmitEmpty("title", title), OmitEmpty("location", location),
      OmitEmpty("description", description), OmitEmpty("icsUid", uid));
    ok := true;
  }

  /** A conditional put is a union with `OmitEmpty`. */
  lemma PutUnlessEmpty(before: Fields, key: string, value: string, after: Fields)
    requires value == "" ==> after == before
    requires value != "" ==> after == before[key := JString(value)]
    ensures after == before + OmitEmpty(key, value)
  {
  }

  lemma UnionAssociates(m: Fields, a: Fields, b: Fields, c: Fields, d: Fields)
    ensures m + a + b + c + d == m + (a + b + c + d)
  {
  }

  lemma EmptyUnion(dates: Fields, props: Fields)
    ensures map[] + dates + props == dates + props
  {
  }

  /** Handles a "put" request: reads the calendar component by component. */
  method IcsContentToJsonEvents(body: Fields, build: string -> Option<Document>) returns (reply: Option<Reply>)
    ensures reply == DecodeReply(body, build)
  {
    var icsContent := GetString(body, "ics");
    if icsContent.Thrown? || icsContent.v.None? {
      return None;
    }
    var calendar := build(icsContent.v.value);
    if calendar.None? {
      return None;
    }
    var components := calendar.value.components;
    ghost var outcomes := DecodeOutcomes(components);
    var events: seq<Fields> := [];
    var i := 0;
    while i < |components|
      invariant 0 <= i <= |components|
      invariant Gather(outcomes[..i]) == Some(events)
    {
      GatherStep(outcomes, i);
      assert outcomes[i] == DecodeComponent(components[i]);
      var component := components[i];
      if component.Event? {
        var jsonEvent := new JsonObject();
        var datesOk := SetEventDates(component.event, jsonEvent);
        if !datesOk {
          GatherAbortSticks(outcomes, i + 1);
          return None;
        }
        var propertiesOk := SetEventProperties(component.event, jsonEvent);
        if !propertiesOk {
          GatherAbortSticks(outcomes, i + 1);
          return None;
        }
        EmptyUnion(EventDates(component.event).value, EventProperties(component.event).value);
        events := events + [jsonEvent.fields];
      }
      i := i + 1;
    }
    assert outcomes[..i] == outcomes;
    reply := Some(EventsReply(events));
  }

  // ===========================================================================
  // Dispatch

  /** The `action` tag of a request, "" when missing; a non-string tag raises. */
  function ActionOf(body: Fields): Read<string> {
    GetStringOr(body, "action", "")
  }

  /** Handles one request; `None` is the absence of any reply. */
  method Handle(body: Fields, build: string -> Option<Document>) returns (reply: Option<Reply>)
    ensures ActionOf(body) == Value(ActionGet) ==> reply == EncodeReply(body)
    ensures ActionOf(body) == Value(ActionPut) ==> reply == DecodeReply(body, build)
    ensures ActionOf(body) != Value(ActionGet) && ActionOf(body) != Value(ActionPut) ==> reply.None?
  {
    var action := ActionOf(body);
    if action.Thrown? {
      return None;
    }
    match Route(action.v)
    case ToIcs =>
      reply := JsonEventsToIcsContent(body);
    case FromIcs =>
      reply := IcsContentToJsonEvents(body, build);
    case NoAction =>
      reply := None;
  }
}
