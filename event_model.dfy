/**
 * The Event document (models/event.js): field patterns and enums, the
 * pre-save rule that the end comes after the start, the computed
 * `isUpcoming` and `getDuration`, and the `getUpcomingEvents` static.
 */
module EventModel {
  import opened Wrappers
  import opened Strings
  import opened Calendar
  import opened Ordering

  /**
   * A stored event. `date` is the `YYYY-MM-DD` string the schema stores;
   * `kind` is the schema's `type`; an absent client or service sub-field is `""`.
   */
  datatype Event = Event(
    id: Id,
    name: string,
    date: string,
    kind: string,
    clientName: string,
    clientContact: string,
    serviceTitle: string,
    serviceType: string,
    status: string,
    participants: int,
    location: string,
    notes: string,
    startTime: string,
    endTime: string)

  const EventTypes: seq<string> := ["coffee", "lunch", "cocktail", "meeting", "training", "other"]
  const EventStatuses: seq<string> := ["scheduled", "confirmed", "in-progress", "completed", "cancelled"]

  const MaxNameLength := 100
  const MaxClientFieldLength := 100
  const MaxServiceTitleLength := 100
  const MaxLocationLength := 200
  const MaxNotesLength := 500

  /** The schema's validators (required, maxlength, match, enum, min) on a whole document. */
  predicate ValidEvent(e: Event) {
    && e.name != "" && |e.name| <= MaxNameLength
    && IsIsoDateShape(e.date)
    && e.kind in EventTypes
    && |e.clientName| <= MaxClientFieldLength && |e.clientContact| <= MaxClientFieldLength
    && |e.serviceTitle| <= MaxServiceTitleLength
    && e.status in EventStatuses
    && e.participants >= 1
    && e.location != "" && |e.location| <= MaxLocationLength
    && |e.notes| <= MaxNotesLength
    && IsClockTime(e.startTime) && IsClockTime(e.endTime)
  }

  /** The pre-save hook, read on minutes since midnight: a save with both times set needs the end after the start. */
  predicate EndAfterStart(e: Event) {
    IsClockTime(e.startTime) && IsClockTime(e.endTime) ==> ClockMinutes(e.startTime) < ClockMinutes(e.endTime)
  }

  /** `event.save()` succeeds: the validators pass and so does the pre-save hook. */
  predicate SaveAccepted(e: Event) {
    ValidEvent(e) && EndAfterStart(e)
  }

  /** A saved event starts strictly before it ends, in minutes and, for two-digit hours, in string order too. */
  lemma SavedEventsEndAfterStart(e: Event)
    requires SaveAccepted(e)
    ensures ClockMinutes(e.startTime) < ClockMinutes(e.endTime)
    ensures |e.startTime| == 5 && |e.endTime| == 5 ==> StrLt(e.startTime, e.endTime)
  {
    if |e.startTime| == 5 && |e.endTime| == 5 {
      ClockOrder(e.startTime, e.endTime);
    }
  }

  /** An end equal to the start is refused. */
  lemma EqualTimesRefused(e: Event)
    requires ValidEvent(e) && e.startTime == e.endTime
    ensures !SaveAccepted(e)
  {
  }

  /** `getDuration`: minutes from the start to the end, positive for any event the save accepted. */
  function GetDuration(e: Event): (minutes: int)
    requires IsClockTime(e.startTime) && IsClockTime(e.endTime)
    ensures SaveAccepted(e) ==> minutes > 0
    ensures -24 * 60 < minutes < 24 * 60
  {
    ClockMinutes(e.endTime) - ClockMinutes(e.startTime)
  }

  /** The duration of an event from `h1:m1` to `h2:m2` is the difference of the times of day. */
  lemma DurationOfClockTimes(e: Event, h1: int, m1: int, h2: int, m2: int)
    requires 0 <= h1 < 24 && 0 <= m1 < 60 && 0 <= h2 < 24 && 0 <= m2 < 60
    requires e.startTime == FormatClock(h1, m1) && e.endTime == FormatClock(h2, m2)
    ensures IsClockTime(e.startTime) && IsClockTime(e.endTime)
    ensures GetDuration(e) == (h2 * 60 + m2) - (h1 * 60 + m1)
  {
    FormatClockAccepted(h1, m1);
    FormatClockAccepted(h2, m2);
  }

  /** The day an event's date string names, when it names one. */
  function EventDay(e: Event): Option<Day> {
    ParseIsoDate(e.date)
  }

  /** `isUpcoming`: the event's day is today or later and its status is `scheduled`. */
  predicate IsUpcoming(e: Event, today: Day) {
    EventDay(e).Some? && EventDay(e).value >= today && e.status == "scheduled"
  }

  /** A confirmed (or any other non-scheduled) event is never upcoming, whatever its date. */
  lemma OnlyScheduledIsUpcoming(e: Event, today: Day)
    requires e.status != "scheduled"
    ensures !IsUpcoming(e, today)
  {
  }

  /** A scheduled event dated today is upcoming; one dated yesterday is not. */
  lemma UpcomingBoundary(e: Event, today: Day)
    requires e.status == "scheduled" && EventDay(e).Some?
    ensures EventDay(e).value == today ==> IsUpcoming(e, today)
    ensures EventDay(e).value == today - 1 ==> !IsUpcoming(e, today)
  {
  }

  /** Sort key `{ date: 1, startTime: 1 }` on the stored strings. */
  function EventKey(e: Event): Key {
    Key(0, e.date, e.startTime)
  }

  /** The filter shared by the upcoming queries: `date >= today` as strings, status `scheduled` or `confirmed`. */
  predicate UpcomingFilter(e: Event, today: string) {
    StrLe(today, e.date) && (e.status == "scheduled" || e.status == "confirmed")
  }

  /** The `getUpcomingEvents` static, with `today` the current `YYYY-MM-DD`. */
  function UpcomingEvents(events: seq<Event>, today: string): (r: seq<Event>)
    ensures SortedBy(r, EventKey)
    ensures forall e :: e in r ==> e in events && UpcomingFilter(e, today)
    ensures forall e :: e in events && UpcomingFilter(e, today) ==> e in r
    ensures |r| <= |events|
    ensures forall e :: multiset(r)[e] == if UpcomingFilter(e, today) then multiset(events)[e] else 0
  {
    var matching := Where(events, e => UpcomingFilter(e, today));
    WhereMultiset(events, e => UpcomingFilter(e, today));
    forall e ensures e in SortBy(matching, EventKey) <==> e in matching {
      SortByMembership(matching, EventKey, e);
    }
    SortBy(matching, EventKey)
  }

  /** For well-formed dates the string filter `date >= today` is the day order. */
  lemma UpcomingFilterIsDayOrder(e: Event, today: string)
    requires IsIsoDateShape(e.date) && IsIsoDateShape(today)
    ensures StrLe(today, e.date) <==> IsoDateKey(today) <= IsoDateKey(e.date)
  {
    IsoDateOrder(today, e.date);
  }
}
