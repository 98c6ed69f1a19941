# Calendar: iCalendar worker and client event model

This project models two parts of the calendar application in Dafny.

**The iCalendar worker (`ICalHandler`).** It is a request/reply handler with two directions:
- `"get"` turns a list of JSON events into an iCalendar document. The document gets PRODID, VERSION and CALSCALE, then one VEVENT per event whose instants parse. All-day events become a date-only DTSTART with `VALUE=DATE`; other events get DTSTART and DTEND date-times.
- `"put"` reads an iCalendar document back into JSON events.

Both conversions are written as methods that follow the worker step by step:
- They fill a mutable `Calendar` or a mutable `JsonObject` with puts.
- Each method is proved equal to a function that specifies it.
- The properties of the conversions are lemmas about those functions.

An exception that escapes the worker means no reply is sent. The model represents that as a `None` reply. Instants use the worker's fixed pattern `yyyy-MM-dd'T'HH:mm:ss.SSS'Z'`. They are naive field records, rendered by `Format` and read strictly by `Parse`. The two are proved mutually inverse.

**The client event model (`model.js`).**
- `CalendarEvent` is a class. `CalendarUpdate` snaps a dragged event to the 15-minute grid with the page's own arithmetic, proved equal to the specification `Grid.SnapEvent`. `Save` moves all-day events to 07:00–20:00.
- `CalendarEvents` is the collection of loaded events. It supports union, difference, removal by calendar, recurrence lookup, clearing and date filtering.
- Instants are whole seconds since the epoch, in UTC.
- Events are compared by object identity, as underscore.js does.

Files:
- `optional.dfy`, `batch.dfy`: shared datatypes and the list walk shared by both conversions.
- `moment.dfy`, `json.dfy`, `ical.dfy`: timestamps, JSON objects, iCalendar objects.
- `ical_handler.dfy`, `ical_laws.dfy`: the worker and its properties.
- `grid.dfy`, `clock.dfy`, `collections.dfy`, `calendar_model.dfy`: the client model.

## Model

| member | source | states |
|---|---|---|
| ICalHandler.Handle | src/main/java/net/atos/entng/calendar/ical/ICalHandler.java:57-68 | "get" (action read with default "") replies with the encode result, "put" with the decode result; any other or missing action, or a non-string one, sends no reply |
| ICalHandler.InitCalendarProperties | src/main/java/net/atos/entng/calendar/ical/ICalHandler.java:199-203 | Appends PRODID `-//OpenENT Calendar 1.0//EN`, VERSION 2.0 and CALSCALE GREGORIAN, in that order, and touches no component |
| ICalHandler.AddAllDayEvent | src/main/java/net/atos/entng/calendar/ical/ICalHandler.java:212-222 | Appends exactly one VEVENT, built from the date, title and UID, and leaves the properties alone |
| ICalHandler.AddEvent | src/main/java/net/atos/entng/calendar/ical/ICalHandler.java:232-245 | Appends exactly one timed VEVENT, built from start, end, title and UID, and leaves the properties alone |
| ICalHandler.AddEncodedEvent | src/main/java/net/atos/entng/calendar/ical/ICalHandler.java:81-97 | One pass of the loop: a read that raises ends the request; otherwise the calendar gains exactly the VEVENT `EncodeEvent` describes (nothing when a date does not parse) and its envelope is untouched |
| ICalHandler.JsonEventsToIcsContent | src/main/java/net/atos/entng/calendar/ical/ICalHandler.java:74-102 | The loop that fills the calendar event by event replies exactly what `EncodeReply` specifies, including no reply when a read raises |
| ICalHandler.SetEventDates | src/main/java/net/atos/entng/calendar/ical/ICalHandler.java:167-193 | Succeeds exactly when DTSTART is present; the object then gains exactly the date keys `EventDates` gives, and keeps its other keys |
| ICalHandler.SetEventProperties | src/main/java/net/atos/entng/calendar/ical/ICalHandler.java:140-159 | Succeeds exactly when SUMMARY is present; the object then gains exactly the non-empty text keys, and keeps its other keys |
| ICalHandler.IcsContentToJsonEvents | src/main/java/net/atos/entng/calendar/ical/ICalHandler.java:108-133 | The loop over components replies exactly what `DecodeReply` specifies: no reply for a missing or unreadable text or a VEVENT that raises |
| Moment.ParseFormat | src/main/java/net/atos/entng/calendar/ical/ICalHandler.java:48 | Reading a rendered instant with the fixed pattern gives the same instant back |
| Moment.FormatParse | src/main/java/net/atos/entng/calendar/ical/ICalHandler.java:48 | Every string the strict reading accepts is exactly the rendering of what it reads |
| Moment.FormatInjective | src/main/java/net/atos/entng/calendar/ical/ICalHandler.java:48 | Distinct instants never render to the same string |
| Batch.GatherSpec | src/main/java/net/atos/entng/calendar/ical/ICalHandler.java:80-98 | A walk over per-item outcomes succeeds exactly when no item aborts, and then yields the emitted results in input order |
| ICalLaws.EncodeEventsAppend | src/main/java/net/atos/entng/calendar/ical/ICalHandler.java:80-98 | Encoding a concatenation is concatenating the encodings, so VEVENTs keep the input order |
| ICalLaws.EncodeEventsSingle | src/main/java/net/atos/entng/calendar/ical/ICalHandler.java:81-97 | One event contributes no document if it raises, nothing if skipped, and its own VEVENT if emitted |
| ICalLaws.EncodeEventsEmits | src/main/java/net/atos/entng/calendar/ical/ICalHandler.java:80-98 | A batch gets a document exactly when no event raises, and then the document holds the emitted VEVENTs in input order |
| ICalLaws.SkippedIffUnparseable | src/main/java/net/atos/entng/calendar/ical/ICalHandler.java:87-97 | An event whose fields read is never fatal, and is skipped exactly when its start or end does not parse |
| ICalLaws.SkipAndContinue | src/main/java/net/atos/entng/calendar/ical/ICalHandler.java:87-97 | A skipped event leaves the batch's result exactly as if it were not there |
| ICalLaws.MiddleSkippedEvents | src/main/java/net/atos/entng/calendar/ical/ICalHandler.java:80-98 | Of three events with the middle one skipped, the first and third VEVENTs remain, in order |
| ICalLaws.MiddleEventSkipped | src/main/java/net/atos/entng/calendar/ical/ICalHandler.java:74-102 | The same batch still gets a reply with status 200 and a document holding the first and third VEVENTs |
| ICalLaws.EncodeReplyShape | src/main/java/net/atos/entng/calendar/ical/ICalHandler.java:74-102 | Every "get" reply has status 200, the fixed PRODID/VERSION/CALSCALE envelope and the batch's VEVENTs |
| ICalLaws.EncodeAllDayIff | src/main/java/net/atos/entng/calendar/ical/ICalHandler.java:86-94 | An emitted VEVENT is date-only with VALUE=DATE and no DTEND exactly when `allday` is present and true |
| ICalLaws.AllDayDropsEnd | src/main/java/net/atos/entng/calendar/ical/ICalHandler.java:90-91 | An all-day VEVENT is built from the start day, title and UID alone; replacing the end by any other parseable instant gives the same VEVENT |
| ICalLaws.DecodeAllDayIff | src/main/java/net/atos/entng/calendar/ical/ICalHandler.java:169-189 | On decode, `allday` is written, and written true, exactly when DTSTART's VALUE parameter is "DATE" |
| ICalLaws.DecodeOmitsEmpty | src/main/java/net/atos/entng/calendar/ical/ICalHandler.java:142-158 | `title`, `location`, `description` and `icsUid` are present exactly when the property is present and non-empty, and then hold its text |
| ICalLaws.DecodeInstants | src/main/java/net/atos/entng/calendar/ical/ICalHandler.java:172-192 | Both instants are written in the fixed pattern. For all-day events they read back as the VEVENT's start and end with hour 0 and all else kept; otherwise unchanged |
| ICalLaws.DecodeRaises | src/main/java/net/atos/entng/calendar/ical/ICalHandler.java:142-169 | A VEVENT decodes exactly when it has SUMMARY and DTSTART; otherwise reading it raises |
| ICalLaws.DecodeComponentsAppend | src/main/java/net/atos/entng/calendar/ical/ICalHandler.java:117-125 | Decoding a concatenation of components is concatenating the decodings |
| ICalLaws.DecodeComponentsSingle | src/main/java/net/atos/entng/calendar/ical/ICalHandler.java:117-124 | A non-VEVENT component contributes nothing; a VEVENT contributes its JSON event, or stops the reply if it raises |
| ICalLaws.DecodeIgnoresOthers | src/main/java/net/atos/entng/calendar/ical/ICalHandler.java:117-118 | Removing every non-VEVENT component does not change the decoded events |
| ICalLaws.DecodeEventsPositional | src/main/java/net/atos/entng/calendar/ical/ICalHandler.java:117-125 | A list of decodable VEVENTs gives one JSON event per VEVENT, at the same position |
| ICalLaws.DecodeOneToOne | src/main/java/net/atos/entng/calendar/ical/ICalHandler.java:114-128 | When no VEVENT raises, the k-th decoded event is the decoding of the document's k-th VEVENT, whatever lies between them |
| ICalLaws.UnreadableGetsNoReply | src/main/java/net/atos/entng/calendar/ical/ICalHandler.java:113-132 | Text the iCalendar reader rejects gets no reply at all |
| ICalLaws.EncodeTimed | src/main/java/net/atos/entng/calendar/ical/ICalHandler.java:82-94 | A timed event whose fields read and parse becomes a VEVENT with its two instants, title and UID |
| ICalLaws.EncodeAllDay | src/main/java/net/atos/entng/calendar/ical/ICalHandler.java:82-91 | An all-day event whose fields read and parse becomes the date-only VEVENT of its start |
| ICalLaws.DecodeTimed | src/main/java/net/atos/entng/calendar/ical/ICalHandler.java:140-192 | The timed VEVENT the encoder builds (no LOCATION or DESCRIPTION), with a non-empty title and a non-empty UID, decodes to exactly the keys startMoment, endMoment, title and icsUid, holding its values |
| ICalLaws.DecodeAllDay | src/main/java/net/atos/entng/calendar/ical/ICalHandler.java:178-189 | A date-only VEVENT of the shape the encoder builds (VALUE=DATE, no DTEND) with a SUMMARY, empty or not, decodes all-day, with both instants at midnight of its date |
| ICalLaws.TimedRoundTrip | src/main/java/net/atos/entng/calendar/ical/ICalHandler.java:74-133 | Encoding a timed event with a non-empty title and a non-empty UID and decoding the document gives back exactly its start, end, title and UID strings (an empty title or UID is not written back; see `DecodeOmitsEmpty`) |
| ICalLaws.AllDayRoundTrip | src/main/java/net/atos/entng/calendar/ical/ICalHandler.java:74-133 | Encoding an all-day event with a non-null title (empty allowed) and decoding it gives one all-day event whose start and end are both midnight of the start day. Start equal to end follows from the end derivation chosen under "Left out" (no DTEND gives the DTSTART value) |
| Grid.RoundDuration | src/main/resources/public/js/model.js:116-123 | The rounded duration is a multiple of 900 seconds, at most 450 below and less than 450 above the original |
| Grid.RoundDurationNearest | src/main/resources/public/js/model.js:119-123 | No multiple of 900 is nearer than the rounded duration, and at an equal distance (remainder exactly 450) the rounding goes down |
| Grid.RoundDurationOnGrid | src/main/resources/public/js/model.js:119-123 | A duration already on the grid is not changed |
| Grid.SnapPoint | src/main/resources/public/js/model.js:124-134 | A snapped endpoint lies on the 15-minute grid, at most 450 seconds below or less than 450 above the original |
| Grid.DisplacementIsDistance | src/main/resources/public/js/model.js:126-134 | The recorded `startSecond`/`endSecond` is the distance the endpoint moved, and at most 450 |
| Grid.SnapEventSpec | src/main/resources/public/js/model.js:145-153 | Both snapped ends are on the grid and end minus start is the rounded duration. The endpoint that moved less (the start on a tie) is the snapped one, and neither end moves more than 900 seconds |
| Grid.SnapEventIdempotent | src/main/resources/public/js/model.js:113-153 | Snapping an already snapped event leaves it unchanged |
| CalendarModel.SnapEventOnGrid | src/main/resources/public/js/model.js:113-153 | An event whose two ends are already on the grid is left where it is |
| Clock.FieldsOf | src/main/resources/public/js/model.js:124 | `minutes() * 60 + seconds()` is the number of seconds into the hour; the fields recompose the instant |
| Clock.SetHoursFields | src/main/resources/public/js/model.js:65-67 | `hours(h)` sets the hour and keeps the day, minutes and seconds |
| Clock.SetMinutesFields | src/main/resources/public/js/model.js:66-68 | `minutes(m)` sets the minute and keeps the hour and seconds |
| Clock.SetMinutesCarry | src/main/resources/public/js/model.js:128-132 | `minutes(m).seconds(0)` puts the instant m minutes past the start of its hour, so minute 60 carries into the next hour |
| Clock.AtHour | src/main/resources/public/js/model.js:64-69 | `hours(h).minutes(0)` keeps the day and the seconds, with hour h and minute 0 |
| CalendarModel.DiffMinutes | src/main/resources/public/js/model.js:108 | The difference in whole minutes truncates toward zero |
| CalendarModel.CalendarEvent.Save | src/main/resources/public/js/model.js:63-76 | An all-day event's start is moved to 07:00 and its end to 20:00 of their days; other events are unchanged. `beginning` and `end` move with them exactly when they share the moment objects (after a snap). Then update when `_id` is truthy, create otherwise |
| CalendarModel.CalendarEvent.CalendarUpdate | src/main/resources/public/js/model.js:107-176 | A span of at most 15 minutes changes nothing and saves nothing. Otherwise a placed event takes `SnapEvent` of its span in all four instants and is saved (update when `_id` is truthy, create otherwise); `beginning` and `end` then share the start and end moment objects |
| CalendarModel.DropThenSaveAllDay | src/main/resources/public/js/model.js:63-153 | An all-day event dropped on the grid and then saved ends with `beginning` and `end` at 07:00 and 20:00 of their days, like its start and end, because the drop made them the same objects |
| CalendarModel.SnapToGrid | src/main/resources/public/js/model.js:124-144 | The endpoint arithmetic gives `SnapPoint` and the displacement, a grid point at most 450 seconds away |
| CalendarModel.CalendarEvents.PushAll | src/main/resources/public/js/model.js:323-330 | With data, `all` becomes the union of the old list and the data; without, nothing changes |
| CalendarModel.CalendarEvents.PullAll | src/main/resources/public/js/model.js:331-338 | With data, `all` becomes the old list minus the data; without, nothing changes |
| CalendarModel.CalendarEvents.RemoveCalendarEvents | src/main/resources/public/js/model.js:339-349 | With a calendar, `all` becomes exactly the events of the other calendars, in order; without, nothing changes |
| CalendarModel.CalendarEvents.GetRecurrenceEvents | src/main/resources/public/js/model.js:350-364 | The loop returns exactly `RecurrenceEvents` of the loaded events |
| CalendarModel.CalendarEvents.Clear | src/main/resources/public/js/model.js:365-370 | `all` becomes empty; the filter state is kept |
| CalendarModel.CalendarEvents.ApplyFilters | src/main/resources/public/js/model.js:371-376 | `filtered` becomes the loaded events that intersect the filter window, and `all` is kept |
| CalendarModel.PullMatching | src/main/resources/public/js/model.js:341-347 | Pulling the events collected for a calendar out of the same list leaves exactly the other calendars' events |
| CalendarModel.OfCalendarMembers | src/main/resources/public/js/model.js:342-346 | The collected events are exactly the loaded events of the given calendar |
| CalendarModel.OtherCalendarsAppend | src/main/resources/public/js/model.js:339-349 | Removing a calendar's events distributes over concatenation, so the events of the other calendars stay in their order |
| CalendarModel.OtherCalendarsSpec | src/main/resources/public/js/model.js:339-349 | After removal no event of the calendar is left, and every other event is kept as many times as it was there |
| CalendarModel.WithParentMembers | src/main/resources/public/js/model.js:354-359 | An event is collected exactly when it is loaded and has a truthy parent id equal to the one sought |
| CalendarModel.RecurrenceEventsSpec | src/main/resources/public/js/model.js:350-364 | Every returned event shares the argument's truthy parent id, and a non-empty result holds every loaded event that does. The result is empty exactly when there is no parent id, no match, or the only match has the argument's id |
| CalendarModel.FilteredMembers | src/main/resources/public/js/model.js:372-375 | An event is shown exactly when it starts before the filter end plus one day and ends after the filter start |
| CalendarModel.FilteredAppend | src/main/resources/public/js/model.js:372-375 | Filtering distributes over concatenation, so shown events keep their loaded order |
| Collections.UnionSpec | src/main/resources/public/js/model.js:325 | The union holds exactly the items of both lists, each once; a duplicate-free old list stays unchanged at the front |
| Collections.UnionIdempotent | src/main/resources/public/js/model.js:323-330 | Pushing the same data twice is the same as pushing it once |
| Collections.DifferenceSpec | src/main/resources/public/js/model.js:333 | The difference holds exactly the items not in the data, each as many times as before |
| Collections.DifferenceAppend | src/main/resources/public/js/model.js:333 | Removal distributes over concatenation, so the remaining items keep their order |
| Collections.DifferenceNothing | src/main/resources/public/js/model.js:331-338 | Pulling an empty list leaves `all` unchanged |

## Left out

- Text parsing and writing of iCalendar (the library's `CalendarBuilder.build` and `Calendar.toString`, line folding, escaping). Reading is a parameter `build` that returns a document or nothing. The reply carries the document itself rather than its text.
- `SimpleDateFormat` leniency, prefix parsing and the JVM's default time zone. The model reads the fixed pattern strictly: exact length, literals, digits, month lengths and leap years, years 1 to 9999. A string the lenient parser would accept and this one rejects is a skipped event here.
- The library's own end derivation. An event without DTEND gets its DTSTART value as its end (zero length); a DURATION property is not modelled. Depending on the ical4j version, the library instead returns no end (`setEventDates` then raises a NullPointerException and no reply is sent) or puts the end one day after a DATE start. `ICalLaws.AllDayRoundTrip`'s equal start and end rest on the choice made here.
- Milliseconds lost when the library writes a date-time to text, and time zone parameters on DTSTART/DTEND.
- JSON `null` as a title or UID on encode: the model leaves the property out rather than adding one with a null value. As a consequence the model's VEVENT for an event with a null title has no SUMMARY and does not decode (decoding raises), whereas the library would write an empty `SUMMARY:` that decodes to an event without `title`.
- The verticle and event-bus plumbing (`start`, `registerHandler`, `message.reply`). Only the reply payload, or its absence, is modelled. Stack traces printed on skipped events are not modelled.
- HTTP in `model.js` (`create`, `update`, `delete`, `sync`, `open`, `removeSelection`, the `Calendar` methods). `Save` and `CalendarUpdate` return which request they would send.
- Event `trigger` calls, `model.refresh`, `model.currentEvent` and the constant configuration tables. The refresh after a short drag is not modelled.
- Time zones and daylight saving on the client. Instants are whole UTC seconds, so milliseconds are dropped before snapping and a day is 86400 seconds.
- CalendarModel.CalendarEvent.CalendarUpdate: `>> 0` truncates to a 32-bit integer. The model uses unbounded division, which differs only for quotients of 2^31 or more, i.e. durations of tens of thousands of years.
- CalendarModel.CalendarEvents.ApplyFilters: filter bounds that are `undefined` (which moment reads as "now") are not modelled; the bounds are always integers.
- CalendarModel.CalendarEvents.RemoveCalendarEvents: an event without a `calendar` object (which would throw) is not modelled. Every event has a calendar id, and the calendar argument is given by its id.

Two behaviours of the code that a caller might not expect, both kept as written:
- For an all-day VEVENT, decoding sets only the hour of both instants to 0 (`ICalHandler.java` lines 182 and 186); minutes and seconds are kept. `ICalLaws.DecodeInstants` states this.
- A document the iCalendar reader rejects, or a VEVENT that raises, produces no reply at all rather than an error reply. `ICalLaws.UnreadableGetsNoReply` and `ICalHandler.IcsContentToJsonEvents` state this.
