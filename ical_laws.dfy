/**
 * Properties of the iCalendar worker's two conversions, proved about the
 * functions that specify them (and so about the methods, which are proved
 * equal to those functions).
 */
module ICalLaws {
  import opened Optional
  import opened Moment
  import opened Json
  import opened ICal
  import opened ICalHandler
  import opened Batch

  // ===========================================================================
  // Encode

  /** Encoding a batch is encoding its parts and concatenating: the output keeps the input's order. */
  lemma EncodeEventsAppend(a: seq<JsonValue>, b: seq<JsonValue>)
    ensures EncodeEvents(a + b) ==
      if EncodeEvents(a).Some? && EncodeEvents(b).Some?
      then Some(EncodeEvents(a).value + EncodeEvents(b).value) else None
  {
    MapSeqAppend(EncodeEvent, a, b);
    GatherAppend(EncodeOutcomes(a), EncodeOutcomes(b));
  }

  /** What a single event contributes to the document. */
  lemma EncodeEventsSingle(v: JsonValue)
    ensures EncodeEvent(v).Aborted? ==> EncodeEvents([v]).None?
    ensures EncodeEvent(v).Skipped? ==> EncodeEvents([v]) == Some([])
    ensures EncodeEvent(v).Emitted? ==> EncodeEvents([v]) == Some([EncodeEvent(v).value])
  {
    var os := EncodeOutcomes([v]);
    assert os == [EncodeEvent(v)];
    GatherStep(os, 0);
    assert os[..1] == os;
    if EncodeEvent(v).Emitted? {
      assert [] + [EncodeEvent(v).value] == [EncodeEvent(v).value];
    }
  }

  /** A batch gets a document exactly when no event raises, and the document holds the emitted VEVENTs in input order. */
  lemma EncodeEventsEmits(items: seq<JsonValue>)
    ensures EncodeEvents(items).Some? <==> forall k :: 0 <= k < |items| ==> !EncodeEvent(items[k]).Aborted?
    ensures EncodeEvents(items).Some? ==> EncodeEvents(items).value == Emissions(EncodeOutcomes(items))
  {
    var os := EncodeOutcomes(items);
    assert forall k :: 0 <= k < |items| ==> os[k] == EncodeEvent(items[k]);
    GatherSpec(os);
  }

  /** The reads of one event that can raise all succeed. */
  predicate WellTyped(ce: Fields) {
    && GetString(ce, "startMoment").Value?
    && GetString(ce, "endMoment").Value?
    && GetString(ce, "title").Value?
    && GetString(ce, "icsUid").Value?
    && FlagSet(ce, "allday").Value?
  }

  /** An event whose fields read without raising is skipped exactly when one of its instants does not parse. */
  lemma SkippedIffUnparseable(ce: Fields)
    requires WellTyped(ce)
    ensures EncodeEvent(JObject(ce)).Skipped? <==>
      ParseMoment(GetString(ce, "startMoment").v).None? || ParseMoment(GetString(ce, "endMoment").v).None?
    ensures !EncodeEvent(JObject(ce)).Aborted?
  {
  }

  /** A skipped event leaves the rest of the batch exactly as it would be without it. */
  lemma SkipAndContinue(before: seq<JsonValue>, bad: JsonValue, after: seq<JsonValue>)
    requires EncodeEvent(bad).Skipped?
    ensures EncodeEvents(before + [bad] + after) == EncodeEvents(before + after)
  {
    EncodeEventsSingle(bad);
    EncodeEventsAppend(before, [bad]);
    EncodeEventsAppend(before + [bad], after);
    EncodeEventsAppend(before, after);
    var x := EncodeEvents(before);
    if x.Some? {
      assert x.value + [] == x.value;
    }
  }

  /** The reply to a request whose `events` field is the given list. */
  lemma EncodeReplyOfList(items: seq<JsonValue>)
    ensures EncodeReply(map["events" := JArray(items)]) ==
      if EncodeEvents(items).Some? then Some(IcsReply(Document(Envelope, EncodeEvents(items).value), 200)) else None
  {
  }

  /**
   * A batch of three whose middle event does not parse still gets a reply
   * with status 200, and the document holds the first and third events' VEVENTs, in that order.
   */
  lemma MiddleEventSkipped(e1: JsonValue, e2: JsonValue, e3: JsonValue)
    requires EncodeEvent(e1).Emitted? && EncodeEvent(e2).Skipped? && EncodeEvent(e3).Emitted?
    ensures EncodeReply(map["events" := JArray([e1, e2, e3])])
         == Some(IcsReply(Document(Envelope, [EncodeEvent(e1).value, EncodeEvent(e3).value]), 200))
  {
    MiddleSkippedEvents(e1, e2, e3);
    EncodeReplyOfList([e1, e2, e3]);
  }

  /** The components for a batch of three whose middle event is skipped. */
  lemma MiddleSkippedEvents(e1: JsonValue, e2: JsonValue, e3: JsonValue)
    requires EncodeEvent(e1).Emitted? && EncodeEvent(e2).Skipped? && EncodeEvent(e3).Emitted?
    ensures EncodeEvents([e1, e2, e3]) == Some([EncodeEvent(e1).value, EncodeEvent(e3).value])
  {
    var items := [e1, e2, e3];
    var os := EncodeOutcomes(items);
    assert os[0] == EncodeEvent(e1);
    assert os[1] == EncodeEvent(e2);
    assert os[2] == EncodeEvent(e3);
    GatherSkipMiddle(os);
  }

  /** Every reply to "get" carries the fixed envelope, status 200 and the batch's components. */
  lemma EncodeReplyShape(body: Fields)
    requires EncodeReply(body).Some?
    ensures var r := EncodeReply(body).value;
      && r.IcsReply? && r.status == 200
      && r.ics.properties == [Property("PRODID", "-//OpenENT Calendar 1.0//EN"),
                              Property("VERSION", "2.0"), Property("CALSCALE", "GREGORIAN")]
      && Some(r.ics.components) == EncodeEvents(body["events"].items)
  {
  }

  /**
   * An emitted event is all-day (a date-only DTSTART with VALUE=DATE and no
   * DTEND) exactly when its `allday` field is present and true; otherwise
   * it has a date-time DTSTART and a DTEND.
   */
  lemma EncodeAllDayIff(ce: Fields)
    requires EncodeEvent(JObject(ce)).Emitted?
    ensures var c := EncodeEvent(JObject(ce)).value;
      && c.Event? && c.event.dtStart.Some?
      && (c.event.dtStart.value.valueParam == Some("DATE") <==> "allday" in ce && ce["allday"] == JBool(true))
      && (c.event.dtStart.value.valueParam == Some("DATE") <==> c.event.dtEnd.None?)
      && (c.event.dtStart.value.valueParam == Some("DATE") <==> c.event.dtStart.value.value.Date?)
  {
  }

  /**
   * An all-day event is written from its start date alone: it carries the
   * start's day, its title and its UID, and any other parseable end instant
   * gives the same VEVENT.
   */
  lemma AllDayDropsEnd(ce: Fields, otherEnd: string)
    requires EncodeEvent(JObject(ce)).Emitted? && FlagSet(ce, "allday") == Value(true)
    requires Parse(otherEnd).Some?
    ensures var start := Parse(ce["startMoment"].s).value;
      EncodeEvent(JObject(ce)).value
        == Event(VEvent(Some(DtStart(Date(StartOfDay(start)), Some("DATE"))), None,
                        GetString(ce, "title").v, None, None, GetString(ce, "icsUid").v))
    ensures EncodeEvent(JObject(ce["endMoment" := JString(otherEnd)])) == EncodeEvent(JObject(ce))
  {
    var ce' := ce["endMoment" := JString(otherEnd)];
    assert GetString(ce', "startMoment") == GetString(ce, "startMoment");
    assert GetString(ce', "title") == GetString(ce, "title");
    assert GetString(ce', "icsUid") == GetString(ce, "icsUid");
    assert FlagSet(ce', "allday") == FlagSet(ce, "allday");
  }

  // ===========================================================================
  // Decode

  /** Whether a VEVENT's DTSTART marks it all-day. */
  predicate IsAllDay(e: VEvent)
    requires e.dtStart.Some?
  {
    e.dtStart.value.valueParam == Some("DATE")
  }

  lemma DecodeIsUnion(e: VEvent)
    requires DecodeEvent(e).Some?
    ensures EventDates(e).Some? && EventProperties(e).Some?
    ensures DecodeEvent(e).value == EventDates(e).value + EventProperties(e).value
  {
  }

  lemma DatesKeys(e: VEvent)
    requires EventDates(e).Some?
    ensures var d := EventDates(e).value;
      && ("allday" in d <==> IsAllDay(e))
      && ("allday" in d ==> d["allday"] == JBool(true))
      && "startMoment" in d && "endMoment" in d
  {
  }

  lemma DatesHaveNoText(e: VEvent)
    requires EventDates(e).Some?
    ensures var d := EventDates(e).value;
      "title" !in d && "location" !in d && "description" !in d && "icsUid" !in d
  {
  }

  lemma PropertiesHaveNoDates(e: VEvent)
    requires EventProperties(e).Some?
    ensures var p := EventProperties(e).value;
      "allday" !in p && "startMoment" !in p && "endMoment" !in p
  {
  }

  /** A text key of the decoded properties: present exactly when the property's text is not empty. */
  predicate TextMapped(p: Fields, key: string, text: Option<string>) {
    && (key in p <==> text.Some? && text.value != "")
    && (key in p ==> p[key] == JString(text.value))
  }

  lemma PropertiesTitle(e: VEvent)
    requires EventProperties(e).Some?
    ensures TextMapped(EventProperties(e).value, "title", e.summary)
  {
  }

  lemma PropertiesLocation(e: VEvent)
    requires EventProperties(e).Some?
    ensures TextMapped(EventProperties(e).value, "location", e.location)
  {
  }

  lemma PropertiesDescription(e: VEvent)
    requires EventProperties(e).Some?
    ensures TextMapped(EventProperties(e).value, "description", e.description)
  {
  }

  lemma PropertiesUid(e: VEvent)
    requires EventProperties(e).Some?
    ensures TextMapped(EventProperties(e).value, "icsUid", e.uid)
  {
  }

  /** On decode, `allday` is written, and written true, exactly when DTSTART has VALUE=DATE. */
  lemma DecodeAllDayIff(e: VEvent)
    requires DecodeEvent(e).Some?
    ensures var f := DecodeEvent(e).value;
      && ("allday" in f <==> e.dtStart.value.valueParam == Some("DATE"))
      && ("allday" in f ==> f["allday"] == JBool(true))
  {
    DecodeIsUnion(e);
    DatesKeys(e);
    PropertiesHaveNoDates(e);
  }

  /**
   * `title`, `location`, `description` and `icsUid` are present exactly when
   * the property is present and not empty, and then hold its text.
   */
  lemma DecodeOmitsEmpty(e: VEvent)
    requires DecodeEvent(e).Some?
    ensures var f := DecodeEvent(e).value;
      && TextMapped(f, "title", e.summary)
      && TextMapped(f, "location", e.location)
      && TextMapped(f, "description", e.description)
      && TextMapped(f, "icsUid", e.uid)
  {
    DecodeIsUnion(e);
    DatesHaveNoText(e);
    PropertiesTitle(e);
    PropertiesLocation(e);
    PropertiesDescription(e);
    PropertiesUid(e);
  }

  /** The instants `EventDates` writes, before rendering. */
  lemma DatesInstants(e: VEvent)
    requires EventDates(e).Some?
    ensures var d := EventDates(e).value;
      var start := ToInstant(e.dtStart.value.value);
      var end := ToInstant(EndValue(e).value);
      && d["startMoment"] == JString(Format(if IsAllDay(e) then WithHour(start, 0) else start))
      && d["endMoment"] == JString(Format(if IsAllDay(e) then WithHour(end, 0) else end))
  {
  }

  /**
   * Both instants are always written with the fixed pattern. For an all-day
   * event their hour is 0 and every other field is the VEVENT's; otherwise
   * they are the VEVENT's start and end unchanged.
   */
  lemma DecodeInstants(e: VEvent)
    requires DecodeEvent(e).Some?
    ensures var f := DecodeEvent(e).value;
      var start := ToInstant(e.dtStart.value.value);
      var end := ToInstant(EndValue(e).value);
      && "startMoment" in f && f["startMoment"].JString?
      && "endMoment" in f && f["endMoment"].JString?
      && Parse(f["startMoment"].s) == Some(if IsAllDay(e) then start.(hour := 0) else start)
      && Parse(f["endMoment"].s) == Some(if IsAllDay(e) then end.(hour := 0) else end)
  {
    DecodeIsUnion(e);
    DatesKeys(e);
    PropertiesHaveNoDates(e);
    DatesInstants(e);
    var start := ToInstant(e.dtStart.value.value);
    var end := ToInstant(EndValue(e).value);
    ParseFormat(if IsAllDay(e) then WithHour(start, 0) else start);
    ParseFormat(if IsAllDay(e) then WithHour(end, 0) else end);
  }

  /** A VEVENT without SUMMARY, or without DTSTART, raises. */
  lemma DecodeRaises(e: VEvent)
    ensures DecodeEvent(e).Some? <==> e.summary.Some? && e.dtStart.Some?
  {
  }

  /** Decoding a list of components is decoding its parts and concatenating. */
  lemma DecodeComponentsAppend(a: seq<Component>, b: seq<Component>)
    ensures DecodeComponents(a + b) ==
      if DecodeComponents(a).Some? && DecodeComponents(b).Some?
      then Some(DecodeComponents(a).value + DecodeComponents(b).value) else None
  {
    MapSeqAppend(DecodeComponent, a, b);
    GatherAppend(DecodeOutcomes(a), DecodeOutcomes(b));
  }

  /** What a single component contributes. */
  lemma DecodeComponentsSingle(c: Component)
    ensures c.Other? ==> DecodeComponents([c]) == Some([])
    ensures c.Event? ==>
      DecodeComponents([c]) == if DecodeEvent(c.event).Some? then Some([DecodeEvent(c.event).value]) else None
  {
    var os := DecodeOutcomes([c]);
    assert os == [DecodeComponent(c)];
    GatherStep(os, 0);
    assert os[..1] == os;
    if c.Event? && DecodeEvent(c.event).Some? {
      assert [] + [DecodeEvent(c.event).value] == [DecodeEvent(c.event).value];
    }
  }

  predicate IsEvent(c: Component) {
    c.Event?
  }

  /** The VEVENTs of a list of components, in order. */
  function EventsOnly(cs: seq<Component>): (r: seq<Component>)
    ensures |r| <= |cs|
    ensures forall k :: 0 <= k < |r| ==> r[k].Event? && r[k] in cs
  {
    var r := Filter(IsEvent, cs);
    assert forall k | 0 <= k < |r| :: r[k] in r;
    r
  }

  /** Components other than VEVENT make no difference to the decoded events. */
  lemma DecodeIgnoresOthers(cs: seq<Component>)
    ensures DecodeComponents(cs) == DecodeComponents(EventsOnly(cs))
  {
    GatherDropsSkipped(DecodeComponent, IsEvent, cs);
  }

  /** Decoding a list of VEVENTs yields one JSON event per VEVENT, at the same position. */
  lemma DecodeEventsPositional(es: seq<Component>)
    requires forall k :: 0 <= k < |es| ==> es[k].Event? && DecodeEvent(es[k].event).Some?
    ensures DecodeComponents(es).Some?
    ensures |DecodeComponents(es).value| == |es|
    ensures forall k :: 0 <= k < |es| ==> DecodeComponents(es).value[k] == DecodeEvent(es[k].event).value
  {
    var os := DecodeOutcomes(es);
    assert forall k :: 0 <= k < |es| ==> os[k] == Emitted(DecodeEvent(es[k].event).value);
    GatherAllEmitted(os);
  }

  /**
   * When no VEVENT raises, the decoded events are, in order, the decodings
   * of the document's VEVENTs, whatever other components sit between them.
   */
  lemma DecodeOneToOne(cs: seq<Component>)
    requires forall k :: 0 <= k < |EventsOnly(cs)| ==> DecodeEvent(EventsOnly(cs)[k].event).Some?
    ensures DecodeComponents(cs).Some?
    ensures |DecodeComponents(cs).value| == |EventsOnly(cs)|
    ensures forall k :: 0 <= k < |EventsOnly(cs)| ==>
      DecodeComponents(cs).value[k] == DecodeEvent(EventsOnly(cs)[k].event).value
  {
    DecodeIgnoresOthers(cs);
    DecodeEventsPositional(EventsOnly(cs));
  }

  /** Text the iCalendar reader rejects gets no reply at all. */
  lemma UnreadableGetsNoReply(body: Fields, build: string -> Option<Document>)
    requires GetString(body, "ics").Value? && GetString(body, "ics").v.Some?
    requires build(GetString(body, "ics").v.value).None?
    ensures DecodeReply(body, build).None?
  {
  }

  // ===========================================================================
  // Round trips

  /** A timed event whose fields read and parse becomes a timed VEVENT with its title and UID. */
  lemma EncodeTimed(ce: Fields, start: string, end: string, title: string, uid: string)
    requires GetString(ce, "startMoment") == Value(Some(start)) && Parse(start).Some?
    requires GetString(ce, "endMoment") == Value(Some(end)) && Parse(end).Some?
    requires GetString(ce, "title") == Value(Some(title))
    requires GetString(ce, "icsUid") == Value(Some(uid))
    requires FlagSet(ce, "allday") == Value(false)
    ensures EncodeEvent(JObject(ce))
         == Emitted(Event(TimedEvent(Parse(start).value, Parse(end).value, Some(title), Some(uid))))
  {
  }

  /** An all-day event whose fields read and parse becomes a date-only VEVENT. */
  lemma EncodeAllDay(ce: Fields, start: string, title: Option<string>, uid: Option<string>)
    requires GetString(ce, "startMoment") == Value(Some(start)) && Parse(start).Some?
    requires GetString(ce, "endMoment").Value? && ParseMoment(GetString(ce, "endMoment").v).Some?
    requires GetString(ce, "title") == Value(title)
    requires GetString(ce, "icsUid") == Value(uid)
    requires FlagSet(ce, "allday") == Value(true)
    ensures EncodeEvent(JObject(ce)) == Emitted(Event(AllDayEvent(Parse(start).value, title, uid)))
  {
  }

  /**
   * The JSON event read back from the timed VEVENT the encoder builds (no
   * LOCATION or DESCRIPTION), with a non-empty title and a non-empty UID:
   * its two instants, the title and the UID, and no other key.
   */
  lemma DecodeTimed(start: Instant, end: Instant, title: string, uid: string)
    requires title != "" && uid != ""
    ensures var f := DecodeEvent(TimedEvent(start, end, Some(title), Some(uid)));
      && f.Some?
      && f.value.Keys == {"startMoment", "endMoment", "title", "icsUid"}
      && f.value["startMoment"] == JString(Format(start))
      && f.value["endMoment"] == JString(Format(end))
      && f.value["title"] == JString(title)
      && f.value["icsUid"] == JString(uid)
  {
    var e := TimedEvent(start, end, Some(title), Some(uid));
    TimedDates(start, end, title, uid);
    TimedProperties(start, end, title, uid);
    DecodeIsUnion(e);
  }

  lemma TimedDates(start: Instant, end: Instant, title: string, uid: string)
    ensures var d := EventDates(TimedEvent(start, end, Some(title), Some(uid)));
      && d.Some?
      && d.value.Keys == {"startMoment", "endMoment"}
      && d.value["startMoment"] == JString(Format(start))
      && d.value["endMoment"] == JString(Format(end))
  {
  }

  lemma TimedProperties(start: Instant, end: Instant, title: string, uid: string)
    requires title != "" && uid != ""
    ensures var p := EventProperties(TimedEvent(start, end, Some(title), Some(uid)));
      && p.Some?
      && p.value.Keys == {"title", "icsUid"}
      && p.value["title"] == JString(title)
      && p.value["icsUid"] == JString(uid)
  {
    var e := TimedEvent(start, end, Some(title), Some(uid));
    PropertiesTitle(e);
    PropertiesLocation(e);
    PropertiesDescription(e);
    PropertiesUid(e);
  }

  /** The JSON event read back from a date-only VEVENT with a SUMMARY, empty or not. */
  lemma DecodeAllDay(date: Instant, title: string, uid: Option<string>)
    ensures var f := DecodeEvent(AllDayEvent(date, Some(title), uid));
      && f.Some?
      && f.value["allday"] == JBool(true)
      && f.value["startMoment"] == JString(Format(StartOfDay(date)))
      && f.value["endMoment"] == JString(Format(StartOfDay(date)))
  {
    var e := AllDayEvent(date, Some(title), uid);
    DecodeIsUnion(e);
    DatesKeys(e);
    PropertiesHaveNoDates(e);
    DatesInstants(e);
    assert WithHour(ToInstant(e.dtStart.value.value), 0) == StartOfDay(date);
  }

  /**
   * A timed event with a title and a UID comes back from the document with
   * the same two instants, title and UID, and with nothing else.
   */
  lemma TimedRoundTrip(ce: Fields, start: string, end: string, title: string, uid: string)
    requires GetString(ce, "startMoment") == Value(Some(start)) && Parse(start).Some?
    requires GetString(ce, "endMoment") == Value(Some(end)) && Parse(end).Some?
    requires GetString(ce, "title") == Value(Some(title)) && title != ""
    requires GetString(ce, "icsUid") == Value(Some(uid)) && uid != ""
    requires FlagSet(ce, "allday") == Value(false)
    ensures EncodeEvents([JObject(ce)]).Some?
    ensures var f := DecodeComponents(EncodeEvents([JObject(ce)]).value);
      && f.Some? && |f.value| == 1
      && f.value[0].Keys == {"startMoment", "endMoment", "title", "icsUid"}
      && f.value[0]["startMoment"] == JString(start)
      && f.value[0]["endMoment"] == JString(end)
      && f.value[0]["title"] == JString(title)
      && f.value[0]["icsUid"] == JString(uid)
  {
    EncodeTimed(ce, start, end, title, uid);
    EncodeEventsSingle(JObject(ce));
    var e := TimedEvent(Parse(start).value, Parse(end).value, Some(title), Some(uid));
    DecodeTimed(Parse(start).value, Parse(end).value, title, uid);
    DecodeComponentsSingle(Event(e));
    FormatParse(start);
    FormatParse(end);
  }

  /**
   * An all-day event with a title, empty or not, comes back all-day, with both instants at midnight of
   * its start day: whatever end it had is lost.
   */
  lemma AllDayRoundTrip(ce: Fields, start: string, title: string)
    requires GetString(ce, "startMoment") == Value(Some(start)) && Parse(start).Some?
    requires GetString(ce, "endMoment").Value? && ParseMoment(GetString(ce, "endMoment").v).Some?
    requires GetString(ce, "title") == Value(Some(title))
    requires GetString(ce, "icsUid").Value?
    requires FlagSet(ce, "allday") == Value(true)
    ensures EncodeEvents([JObject(ce)]).Some?
    ensures var f := DecodeComponents(EncodeEvents([JObject(ce)]).value);
      && f.Some? && |f.value| == 1
      && "allday" in f.value[0] && "startMoment" in f.value[0] && "endMoment" in f.value[0]
      && f.value[0]["allday"] == JBool(true)
      && f.value[0]["startMoment"] == f.value[0]["endMoment"]
      && f.value[0]["startMoment"] == JString(Format(StartOfDay(Parse(start).value)))
  {
    var uid := GetString(ce, "icsUid").v;
    EncodeAllDay(ce, start, Some(title), uid);
    EncodeEventsSingle(JObject(ce));
    var e := AllDayEvent(Parse(start).value, Some(title), uid);
    DecodeAllDay(Parse(start).value, title, uid);
    DecodeComponentsSingle(Event(e));
  }
}
