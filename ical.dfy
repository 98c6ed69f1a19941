/**
 * The iCalendar objects the handler builds and reads (RFC 5545), at the level
 * of components and properties. Reading a document from text and writing it
 * back to text belong to the iCalendar library and are not part of this model.
 */
module ICal {
  import opened Optional
  import opened Moment

  /** The value of DTSTART or DTEND: a date alone (VALUE=DATE) or a date with a time. */
  datatype DateValue = Date(day: Instant) | DateTime(instant: Instant)

  /** DTSTART with its optional VALUE parameter (section 3.2.20 of RFC 5545). */
  datatype DtStart = DtStart(value: DateValue, valueParam: Option<string>)

  /**
   * A VEVENT (section 3.6.1 of RFC 5545); an absent property is `None`.
   * SUMMARY, LOCATION, DESCRIPTION and UID are sections 3.8.1.12, 3.8.1.7,
   * 3.8.1.5 and 3.8.4.7.
   */
  datatype VEvent = VEvent(
    dtStart: Option<DtStart>,
    dtEnd: Option<DateValue>,
    summary: Option<string>,
    location: Option<string>,
    description: Option<string>,
    uid: Option<string>)

  /** A component of a calendar: a VEVENT or any other kind (VTODO, VTIMEZONE, ...). */
  datatype Component = Event(event: VEvent) | Other(name: string)

  /** A calendar-level property such as PRODID. */
  datatype Property = Property(name: string, value: string)

  /** A whole calendar: its properties and its components, in order. */
  datatype Document = Document(properties: seq<Property>, components: seq<Component>)

  /** The instant a date value denotes: a bare date is midnight of that day. */
  function ToInstant(d: DateValue): (t: Instant)
    ensures d.Date? ==> t == StartOfDay(d.day)
    ensures d.DateTime? ==> t == d.instant
  {
    match d
    case Date(day) => StartOfDay(day)
    case DateTime(t) => t
  }

  /**
   * A VEVENT made from a date and a summary: DTSTART holds the date alone and
   * carries VALUE=DATE; there is no DTEND.
   */
  function NewDateEvent(date: Instant, summary: Option<string>): (e: VEvent)
    ensures e.dtStart == Some(DtStart(Date(StartOfDay(date)), Some("DATE")))
    ensures e.dtEnd.None? && e.summary == summary
    ensures e.location.None? && e.description.None? && e.uid.None?
  {
    VEvent(Some(DtStart(Date(StartOfDay(date)), Some("DATE"))), None, summary, None, None, None)
  }

  /** A VEVENT made from two date-times and a summary; DTSTART has no VALUE parameter. */
  function NewTimedEvent(start: Instant, end: Instant, summary: Option<string>): (e: VEvent)
    ensures e.dtStart == Some(DtStart(DateTime(start), None))
    ensures e.dtEnd == Some(DateTime(end)) && e.summary == summary
    ensures e.location.None? && e.description.None? && e.uid.None?
  {
    VEvent(Some(DtStart(DateTime(start), None)), Some(DateTime(end)), summary, None, None, None)
  }

  /**
   * The end the library reports for a VEVENT: DTEND when present, otherwise
   * the start value (an event of no length). `None` when there is no DTSTART either.
   */
  function EndValue(e: VEvent): (r: Option<DateValue>)
    ensures e.dtEnd.Some? ==> r == e.dtEnd
    ensures e.dtEnd.None? && e.dtStart.Some? ==> r == Some(e.dtStart.value.value)
    ensures e.dtEnd.None? && e.dtStart.None? ==> r.None?
  {
    if e.dtEnd.Some? then e.dtEnd
    else if e.dtStart.Some? then Some(e.dtStart.value.value)
    else None
  }

  /** A calendar being built: its property and component lists grow in place. */
  class Calendar {
    var properties: seq<Property>
    var components: seq<Component>

    constructor ()
      ensures properties == [] && components == []
    {
      properties := [];
      components := [];
    }

    /** The document as it stands, which is what the library writes out as text. */
    function Snapshot(): (d: Document)
      reads this
      ensures d.properties == properties && d.components == components
    {
      Document(properties, components)
    }

    method AddProperty(p: Property)
      modifies this
      ensures properties == old(properties) + [p] && components == old(components)
    {
      properties := properties + [p];
    }

    method AddComponent(c: Component)
      modifies this
      ensures components == old(components) + [c] && properties == old(properties)
    {
      components := components + [c];
    }
  }
}
