/**
 * The event service (services/eventService.js): the event table with its
 * create, update and delete operations, and the listing, upcoming and
 * statistics queries over it.
 */
module EventService {
  import opened Wrappers
  import opened Strings
  import opened Calendar
  import opened Ordering
  import opened Grouping
  import opened EventModel

  /** The body `createEvent` receives: flat fields, any of which may be absent. */
  datatype EventData = EventData(
    name: Option<string>,
    date: Option<string>,
    startTime: Option<string>,
    endTime: Option<string>,
    kind: Option<string>,
    location: Option<string>,
    clientName: Option<string>,
    clientContact: Option<string>,
    serviceTitle: Option<string>,
    serviceType: Option<string>,
    participants: Option<int>,
    notes: Option<string>,
    status: Option<string>)

  /** The fields `createEvent` insists on, in the order it checks them. */
  const RequiredFields: seq<string> := ["name", "date", "startTime", "endTime", "type", "location"]

  /** `eventData[field]` for the required field names. */
  function Field(d: EventData, field: string): Option<string> {
    match field
    case "name" => d.name
    case "date" => d.date
    case "startTime" => d.startTime
    case "endTime" => d.endTime
    case "type" => d.kind
    case "location" => d.location
    case _ => None
  }

  predicate AllRequired(d: EventData) {
    Truthy(d.name) && Truthy(d.date) && Truthy(d.startTime) && Truthy(d.endTime) && Truthy(d.kind) && Truthy(d.location)
  }

  /** The required fields, read through their names, are the six fields `AllRequired` asks for. */
  lemma AllRequiredByName(d: EventData)
    ensures AllRequired(d) <==> forall i :: 0 <= i < |RequiredFields| ==> Truthy(Field(d, RequiredFields[i]))
  {
    assert Field(d, RequiredFields[0]) == d.name && Field(d, RequiredFields[1]) == d.date;
    assert Field(d, RequiredFields[2]) == d.startTime && Field(d, RequiredFields[3]) == d.endTime;
    assert Field(d, RequiredFields[4]) == d.kind && Field(d, RequiredFields[5]) == d.location;
  }

  /**
   * The `for (const field of requiredFields)` loop: the first required field
   * that is missing or empty, or none when all are present.
   */
  method FirstMissingField(d: EventData) returns (missing: Option<string>)
    ensures missing.None? <==> AllRequired(d)
    ensures missing.Some? ==> exists i :: && 0 <= i < |RequiredFields| && RequiredFields[i] == missing.value
                                         && !Truthy(Field(d, RequiredFields[i]))
                                         && forall j :: 0 <= j < i ==> Truthy(Field(d, RequiredFields[j]))
  {
    for i := 0 to |RequiredFields|
      invariant forall j :: 0 <= j < i ==> Truthy(Field(d, RequiredFields[j]))
    {
      if !Truthy(Field(d, RequiredFields[i])) {
        AllRequiredByName(d);
        return Some(RequiredFields[i]);
      }
    }
    AllRequiredByName(d);
    return None;
  }

  /** The first check fails on a missing name even when every other field is missing too. */
  lemma NameIsCheckedFirst(d: EventData)
    requires !Truthy(d.name)
    ensures !AllRequired(d)
    ensures forall i :: (&& 0 <= i < |RequiredFields| && !Truthy(Field(d, RequiredFields[i]))
                         && (forall j :: 0 <= j < i ==> Truthy(Field(d, RequiredFields[j])))) ==> RequiredFields[i] == "name"
  {
    assert Field(d, RequiredFields[0]) == d.name;
  }

  /** `eventData.participants || 1`. */
  function ParticipantsOrOne(p: Option<int>): int {
    if p.Some? && p.value != 0 then p.value else 1
  }

  /** The document `new Event({...})` builds from a body that has every required field; string paths go through the schema's trim. */
  function BuildEvent(id: Id, d: EventData): (e: Event)
    requires AllRequired(d)
    ensures e.id == id && e.date == d.date.value && e.kind == d.kind.value
    ensures e.startTime == d.startTime.value && e.endTime == d.endTime.value
    ensures e.name == Trim(d.name.value) && e.location == Trim(d.location.value)
    ensures Truthy(d.clientName) ==> e.clientName == Trim(d.clientName.value)
    ensures Truthy(d.clientContact) ==> e.clientContact == Trim(d.clientContact.value)
    ensures Truthy(d.serviceTitle) ==> e.serviceTitle == Trim(d.serviceTitle.value)
    ensures Truthy(d.serviceType) ==> e.serviceType == Trim(d.serviceType.value)
    ensures Truthy(d.notes) ==> e.notes == Trim(d.notes.value)
    ensures Truthy(d.status) ==> e.status == d.status.value
    ensures d.participants.Some? && d.participants.value != 0 ==> e.participants == d.participants.value
  {
    Event(
      id, Trim(d.name.value), d.date.value, d.kind.value,
      Trim(OrTruthy(d.clientName, "")), Trim(OrTruthy(d.clientContact, "")),
      Trim(OrTruthy(d.serviceTitle, "")), Trim(OrTruthy(d.serviceType, "")),
      OrTruthy(d.status, "scheduled"), ParticipantsOrOne(d.participants), Trim(d.location.value),
      Trim(OrTruthy(d.notes, "")), d.startTime.value, d.endTime.value)
  }

  /** Absent or empty client and service sub-fields and notes become `""`. */
  lemma BuildEventEmptyDefaults(id: Id, d: EventData)
    requires AllRequired(d)
    ensures var e := BuildEvent(id, d);
            && (!Truthy(d.clientName) ==> e.clientName == "")
            && (!Truthy(d.clientContact) ==> e.clientContact == "")
            && (!Truthy(d.serviceTitle) ==> e.serviceTitle == "")
            && (!Truthy(d.serviceType) ==> e.serviceType == "")
            && (!Truthy(d.notes) ==> e.notes == "")
  {
    TrimEmpty();
  }

  /** An absent or empty status becomes `scheduled`; absent or zero participants become 1. */
  lemma BuildEventStatusDefaults(id: Id, d: EventData)
    requires AllRequired(d)
    ensures var e := BuildEvent(id, d);
            && (!Truthy(d.status) ==> e.status == "scheduled")
            && ((d.participants.None? || d.participants == Some(0)) ==> e.participants == 1)
  {
  }

  /** What `updateEvent` receives: the schema paths to `$set`, and the flat client and service sub-fields. */
  datatype EventPatch = EventPatch(
    name: Option<string>,
    date: Option<string>,
    startTime: Option<string>,
    endTime: Option<string>,
    kind: Option<string>,
    location: Option<string>,
    notes: Option<string>,
    status: Option<string>,
    participants: Option<int>,
    clientName: Option<string>,
    clientContact: Option<string>,
    serviceTitle: Option<string>,
    serviceType: Option<string>)

  /** The update validators: each path the update sets must pass its own validators. */
  predicate PatchValid(p: EventPatch) {
    && (p.name.Some? ==> Trim(p.name.value) != "" && |Trim(p.name.value)| <= MaxNameLength)
    && (p.date.Some? ==> IsIsoDateShape(p.date.value))
    && (p.startTime.Some? ==> IsClockTime(p.startTime.value))
    && (p.endTime.Some? ==> IsClockTime(p.endTime.value))
    && (p.kind.Some? ==> p.kind.value in EventTypes)
    && (p.location.Some? ==> Trim(p.location.value) != "" && |Trim(p.location.value)| <= MaxLocationLength)
    && (p.notes.Some? ==> |Trim(p.notes.value)| <= MaxNotesLength)
    && (p.status.Some? ==> p.status.value in EventStatuses)
    && (p.participants.Some? ==> p.participants.value >= 1)
    && (Truthy(p.clientName) ==> |Trim(p.clientName.value)| <= MaxClientFieldLength)
    && (Truthy(p.clientContact) ==> |Trim(p.clientContact.value)| <= MaxClientFieldLength)
    && (Truthy(p.serviceTitle) ==> |Trim(p.serviceTitle.value)| <= MaxServiceTitleLength)
  }

  /** `findByIdAndUpdate(id, { $set: updateData, 'client.name': ..., ... })`: a sub-field is set only when its flat field is truthy. */
  function ApplyEventPatch(e: Event, p: EventPatch): (u: Event)
    ensures u.id == e.id
    ensures p.name.None? ==> u.name == e.name
    ensures p.name.Some? ==> u.name == Trim(p.name.value)
    ensures p.date.None? ==> u.date == e.date
    ensures p.date.Some? ==> u.date == p.date.value
    ensures p.kind.None? ==> u.kind == e.kind
    ensures p.kind.Some? ==> u.kind == p.kind.value
    ensures !Truthy(p.clientName) ==> u.clientName == e.clientName
    ensures Truthy(p.clientName) ==> u.clientName == Trim(p.clientName.value)
    ensures !Truthy(p.clientContact) ==> u.clientContact == e.clientContact
    ensures Truthy(p.clientContact) ==> u.clientContact == Trim(p.clientContact.value)
    ensures !Truthy(p.serviceTitle) ==> u.serviceTitle == e.serviceTitle
    ensures Truthy(p.serviceTitle) ==> u.serviceTitle == Trim(p.serviceTitle.value)
    ensures !Truthy(p.serviceType) ==> u.serviceType == e.serviceType
    ensures Truthy(p.serviceType) ==> u.serviceType == Trim(p.serviceType.value)
    ensures p.status.None? ==> u.status == e.status
    ensures p.status.Some? ==> u.status == p.status.value
    ensures p.participants.None? ==> u.participants == e.participants
    ensures p.participants.Some? ==> u.participants == p.participants.value
    ensures p.location.None? ==> u.location == e.location
    ensures p.location.Some? ==> u.location == Trim(p.location.value)
    ensures p.notes.None? ==> u.notes == e.notes
    ensures p.notes.Some? ==> u.notes == Trim(p.notes.value)
    ensures p.startTime.None? ==> u.startTime == e.startTime
    ensures p.startTime.Some? ==> u.startTime == p.startTime.value
    ensures p.endTime.None? ==> u.endTime == e.endTime
    ensures p.endTime.Some? ==> u.endTime == p.endTime.value
  {
    Event(
      e.id, SetTrimmed(p.name, e.name), Or(p.date, e.date), Or(p.kind, e.kind),
      SetTruthyTrimmed(p.clientName, e.clientName), SetTruthyTrimmed(p.clientContact, e.clientContact),
      SetTruthyTrimmed(p.serviceTitle, e.serviceTitle), SetTruthyTrimmed(p.serviceType, e.serviceType),
      Or(p.status, e.status), Or(p.participants, e.participants), SetTrimmed(p.location, e.location),
      SetTrimmed(p.notes, e.notes), Or(p.startTime, e.startTime), Or(p.endTime, e.endTime))
  }

  /** A patch that passes the update validators keeps a valid document valid. */
  lemma PatchKeepsValid(e: Event, p: EventPatch)
    requires ValidEvent(e) && PatchValid(p)
    ensures ValidEvent(ApplyEventPatch(e, p))
  {
  }

  /** A coffee break from 09:00 to 10:00 on 2024-01-10, as `createEvent` would save it. */
  function SampleEvent(): Event {
    Event(1, "Team coffee", "2024-01-10", "coffee", "", "", "", "", "scheduled", 4, "Hall", "", "09:00", "10:00")
  }

  lemma SampleEventSaved()
    ensures SaveAccepted(SampleEvent())
  {
    assert IsIsoDateShape("2024-01-10") by {
      assert "2024-01-10"[..4] == "2024" && "2024-01-10"[5..7] == "01" && "2024-01-10"[8..] == "10";
    }
    ShortTimesInMinutes();
  }

  /**
   * The update runs the validators but not the pre-save hook: moving the end
   * of the sample event to 08:00 passes them and leaves an event that ends
   * before it starts.
   */
  lemma UpdateSkipsEndAfterStart()
    ensures var p := EventPatch(None, None, None, Some("08:00"), None, None, None, None, None, None, None, None, None);
            && SaveAccepted(SampleEvent()) && PatchValid(p)
            && ValidEvent(ApplyEventPatch(SampleEvent(), p)) && !EndAfterStart(ApplyEventPatch(SampleEvent(), p))
  {
    var p := EventPatch(None, None, None, Some("08:00"), None, None, None, None, None, None, None, None, None);
    SampleEventSaved();
    ShortTimesInMinutes();
    assert PatchValid(p);
    PatchKeepsValid(SampleEvent(), p);
    var u := ApplyEventPatch(SampleEvent(), p);
    assert u.startTime == "09:00" && u.endTime == "08:00";
  }

  lemma ShortTimesInMinutes()
    ensures IsClockTime("08:00") && IsClockTime("09:00") && IsClockTime("10:00")
    ensures ClockMinutes("08:00") == 480 && ClockMinutes("09:00") == 540 && ClockMinutes("10:00") == 600
  {
    FormatClockAccepted(8, 0);
    FormatClockAccepted(9, 0);
    FormatClockAccepted(10, 0);
    Pad2Digits(8);
    Pad2Digits(9);
    Pad2Digits(10);
    Pad2Digits(0);
  }

  /** The service's answers. */
  datatype Outcome = MissingField(field: string) | Rejected | Saved(e: Event) | Updated(e: Event) | Deleted | NotFound

  /** `{ success, ... }`. */
  predicate Success(o: Outcome) {
    o.Saved? || o.Updated? || o.Deleted?
  }

  /** Ids are unique and below `nextId`; every stored document passed the validators. */
  ghost predicate StoreInvariant(events: seq<Event>, nextId: Id) {
    && (forall i, j :: 0 <= i < j < |events| ==> events[i].id != events[j].id)
    && (forall i :: 0 <= i < |events| ==> events[i].id < nextId && ValidEvent(events[i]))
  }

  lemma AppendKeepsInvariant(events: seq<Event>, nextId: Id, e: Event)
    requires StoreInvariant(events, nextId) && e.id == nextId && ValidEvent(e)
    ensures StoreInvariant(events + [e], nextId + 1)
  {
    var s := events + [e];
    assert forall i :: 0 <= i < |events| ==> s[i] == events[i];
  }

  lemma ReplaceKeepsInvariant(events: seq<Event>, nextId: Id, k: nat, u: Event)
    requires StoreInvariant(events, nextId) && k < |events| && u.id == events[k].id && ValidEvent(u)
    ensures StoreInvariant(events[k := u], nextId)
  {
  }

  lemma RemoveKeepsInvariant(events: seq<Event>, nextId: Id, k: nat)
    requires StoreInvariant(events, nextId) && k < |events|
    ensures StoreInvariant(events[..k] + events[k + 1..], nextId)
    ensures forall e :: e in events[..k] + events[k + 1..] ==> e in events && e.id != events[k].id
  {
    var s := events[..k] + events[k + 1..];
    assert forall j :: 0 <= j < |s| ==> s[j] == events[if j < k then j else j + 1];
  }

  function HasId(id: Id): Event -> bool {
    (e: Event) => e.id == id
  }

  /** The event collection, `mongoose.model('Event')`, with the ids it hands out. */
  class EventStore {
    var events: seq<Event>
    var nextId: Id

    ghost predicate Valid()
      reads this
    {
      StoreInvariant(events, nextId)
    }

    constructor()
      ensures Valid() && events == [] && nextId == 0
    {
      events := [];
      nextId := 0;
    }

    /**
     * `createEvent`: the first missing required field is reported and nothing
     * is saved; otherwise the built document is saved when the validators and
     * the pre-save hook accept it.
     */
    method Create(d: EventData) returns (o: Outcome)
      requires Valid()
      modifies this
      ensures Valid()
      ensures !AllRequired(d) ==> o.MissingField? && events == old(events) && nextId == old(nextId)
      ensures o.MissingField? ==> exists i :: && 0 <= i < |RequiredFields| && RequiredFields[i] == o.field
                                             && !Truthy(Field(d, RequiredFields[i]))
                                             && forall j :: 0 <= j < i ==> Truthy(Field(d, RequiredFields[j]))
      ensures AllRequired(d) && !SaveAccepted(BuildEvent(old(nextId), d)) ==>
                o == Rejected && events == old(events) && nextId == old(nextId)
      ensures AllRequired(d) && SaveAccepted(BuildEvent(old(nextId), d)) ==>
                o == Saved(BuildEvent(old(nextId), d)) && events == old(events) + [o.e] && nextId == old(nextId) + 1
    {
      var missing := FirstMissingField(d);
      if missing.Some? {
        return MissingField(missing.value);
      }
      var e := BuildEvent(nextId, d);
      if !SaveAccepted(e) {
        return Rejected;
      }
      AppendKeepsInvariant(events, nextId, e);
      events := events + [e];
      nextId := nextId + 1;
      o := Saved(e);
    }

    /**
     * `updateEvent`: a patch the validators reject fails; an unknown id
     * answers `success: false` and changes nothing; otherwise the document is
     * patched in place.
     */
    method Update(id: Id, p: EventPatch) returns (o: Outcome)
      requires Valid()
      modifies this
      ensures Valid()
      ensures nextId == old(nextId)
      ensures var k := FindIndex(old(events), HasId(id));
              && (!PatchValid(p) ==> o == Rejected)
              && (PatchValid(p) && k.None? ==> o == NotFound)
              && (PatchValid(p) && k.Some? ==>
                    o == Updated(ApplyEventPatch(old(events)[k.value], p)) && events == old(events)[k.value := o.e])
      ensures !o.Updated? ==> events == old(events)
    {
      if !PatchValid(p) {
        return Rejected;
      }
      var k := FindIndex(events, HasId(id));
      if k.None? {
        return NotFound;
      }
      var u := ApplyEventPatch(events[k.value], p);
      PatchKeepsValid(events[k.value], p);
      ReplaceKeepsInvariant(events, nextId, k.value, u);
      events := events[k.value := u];
      o := Updated(u);
    }

    /** `deleteEvent`: an unknown id answers `success: false` and changes nothing; otherwise the document is removed. */
    method Delete(id: Id) returns (o: Outcome)
      requires Valid()
      modifies this
      ensures Valid()
      ensures nextId == old(nextId)
      ensures var k := FindIndex(old(events), HasId(id));
              && (k.None? ==> o == NotFound && events == old(events))
              && (k.Some? ==> o == Deleted && events == old(events)[..k.value] + old(events)[k.value + 1..])
      ensures forall e :: e in events ==> e in old(events) && e.id != id
    {
      var k := FindIndex(events, HasId(id));
      if k.None? {
        return NotFound;
      }
      RemoveKeepsInvariant(events, nextId, k.value);
      events := events[..k.value] + events[k.value + 1..];
      o := Deleted;
    }
  }

  /** The filters `getAllEvents` accepts. */
  datatype EventFilters = EventFilters(kind: Option<string>, status: Option<string>, date: Option<string>,
                                       search: Option<string>)

  /**
   * The query `getAllEvents` assembles: each truthy filter is an exact match,
   * and a search term matches the name, the client's name or the location,
   * ignoring case (read as a literal substring).
   */
  predicate MatchesFilters(e: Event, f: EventFilters) {
    && (Truthy(f.kind) ==> e.kind == f.kind.value)
    && (Truthy(f.status) ==> e.status == f.status.value)
    && (Truthy(f.date) ==> e.date == f.date.value)
    && (Truthy(f.search) ==> (|| ContainsIgnoringCase(e.name, f.search.value)
                             || ContainsIgnoringCase(e.clientName, f.search.value)
                             || ContainsIgnoringCase(e.location, f.search.value)))
  }

  /** The query object `getAllEvents` sends: an exact match per set path, and the `$or` of three searches. */
  datatype EventQuery = EventQuery(kind: Option<string>, status: Option<string>, date: Option<string>,
                                   search: Option<string>)

  predicate QueryMatches(e: Event, q: EventQuery) {
    && (q.kind.Some? ==> e.kind == q.kind.value)
    && (q.status.Some? ==> e.status == q.status.value)
    && (q.date.Some? ==> e.date == q.date.value)
    && (q.search.Some? ==> (|| ContainsIgnoringCase(e.name, q.search.value)
                           || ContainsIgnoringCase(e.clientName, q.search.value)
                           || ContainsIgnoringCase(e.location, q.search.value)))
  }

  /** `getAllEvents`'s query, assembled one truthy filter at a time; it selects exactly the events the filters describe. */
  method BuildEventQuery(f: EventFilters) returns (q: EventQuery)
    ensures q.kind.Some? <==> Truthy(f.kind)
    ensures q.status.Some? <==> Truthy(f.status)
    ensures q.date.Some? <==> Truthy(f.date)
    ensures q.search.Some? <==> Truthy(f.search)
    ensures forall e :: QueryMatches(e, q) <==> MatchesFilters(e, f)
  {
    q := EventQuery(None, None, None, None);
    if Truthy(f.kind) {
      q := q.(kind := f.kind);
    }
    if Truthy(f.status) {
      q := q.(status := f.status);
    }
    if Truthy(f.date) {
      q := q.(date := f.date);
    }
    if Truthy(f.search) {
      q := q.(search := f.search);
    }
  }

  /** `{ data, count }`. */
  datatype Listing = Listing(data: seq<Event>, count: nat)

  /** `getAllEvents(filters)`: exactly the matching events, sorted by (date, startTime), with their count. */
  function GetAllEvents(events: seq<Event>, f: EventFilters): (r: Listing)
    ensures r.count == |r.data|
    ensures SortedBy(r.data, EventKey)
    ensures forall e :: e in r.data ==> e in events && MatchesFilters(e, f)
    ensures forall e :: e in events && MatchesFilters(e, f) ==> e in r.data
    ensures forall e :: multiset(r.data)[e] == if MatchesFilters(e, f) then multiset(events)[e] else 0
  {
    var matching := Where(events, e => MatchesFilters(e, f));
    WhereMultiset(events, e => MatchesFilters(e, f));
    var sorted := SortBy(matching, EventKey);
    forall e ensures e in sorted <==> e in matching {
      SortByMembership(matching, EventKey, e);
    }
    Listing(sorted, |sorted|)
  }

  /** With no filter supplied every event is listed. */
  lemma NoFiltersListsAll(events: seq<Event>)
    ensures var r := GetAllEvents(events, EventFilters(None, None, None, None));
            forall e :: e in events <==> e in r.data
  {
  }

  /** `getUpcomingEvents(limit)`, with `today` the current `YYYY-MM-DD` and `limit` 10 when not given. */
  function GetUpcomingEvents(events: seq<Event>, today: string, limit: Option<int>): (r: Listing)
    ensures r.count == |r.data|
  {
    var data := Limit(UpcomingEvents(events, today), Or(limit, 10));
    Listing(data, |data|)
  }

  /**
   * The upcoming list is ordered, holds no more copies of anything than
   * there are upcoming events, has `min(|limit|, upcoming)` of them (all of
   * them for a limit of 0), leaves one out only when `|limit|` were returned,
   * and leaves out none that comes before one it returns.
   */
  lemma {:induction false} GetUpcomingEventsCorrect(events: seq<Event>, today: string, limit: Option<int>)
    ensures var r := GetUpcomingEvents(events, today, limit).data;
            var n := Or(limit, 10);
            var m := if n < 0 then -n else n;
            && SortedBy(r, EventKey)
            && (forall e :: e in r ==> e in events && UpcomingFilter(e, today))
            && (forall e :: multiset(r)[e] <= if UpcomingFilter(e, today) then multiset(events)[e] else 0)
            && |r| == (if n == 0 then |UpcomingEvents(events, today)| else Min(m, |UpcomingEvents(events, today)|))
            && (n != 0 ==> |r| <= m)
            && (n == 0 ==> forall e :: e in events && UpcomingFilter(e, today) ==> e in r)
            && ((n == 0 || |r| < m) ==>
                  forall e :: multiset(r)[e] == if UpcomingFilter(e, today) then multiset(events)[e] else 0)
            && (forall e :: e in events && UpcomingFilter(e, today) && e !in r ==> |r| == m)
            && (forall e, x :: e in events && UpcomingFilter(e, today) && e !in r && x in r ==>
                  KeyLe(EventKey(x), EventKey(e)))
  {
    var matching := Where(events, e => UpcomingFilter(e, today));
    var n := Or(limit, 10);
    assert UpcomingEvents(events, today) == SortBy(matching, EventKey);
    LimitSorted(matching, EventKey, n);
    LimitWhere(events, e => UpcomingFilter(e, today), EventKey, n);
  }

  /** `getEventStats`: the total, the upcoming count, and one group per status. */
  datatype EventStats = EventStats(total: nat, upcoming: nat, byStatus: seq<Group<string>>)

  function StatusItems(events: seq<Event>): seq<(string, int)> {
    Map(events, (e: Event) => (e.status, 0))
  }

  /**
   * The statistics: the per-status counts sum to the total, each group counts
   * exactly the events of its status, and the upcoming count is at most the total.
   */
  function GetEventStats(events: seq<Event>, today: string): (s: EventStats)
    ensures s.total == |events| && SumCounts(s.byStatus) == s.total
    ensures s.upcoming <= s.total
    ensures s.upcoming == |UpcomingEvents(events, today)|
    ensures forall g :: g in s.byStatus ==> g.count == CountKey(StatusItems(events), g.key)
    ensures forall e :: e in events ==> e.status in Keys(s.byStatus)
    ensures DistinctKeys(s.byStatus)
    ensures forall g :: g in s.byStatus ==> g.count > 0 && exists e :: e in events && e.status == g.key
  {
    var groups := GroupBy(StatusItems(events));
    GroupByCorrect(StatusItems(events));
    forall e | e in events ensures e.status in Keys(groups) {
      var i :| 0 <= i < |events| && events[i] == e;
      CountKeyPositive(StatusItems(events), i);
    }
    forall g | g in groups ensures g.count > 0 && exists e :: e in events && e.status == g.key {
      KeysMember(groups, g);
      var i := CountKeyWitness(StatusItems(events), g.key);
      assert events[i] in events;
    }
    EventStats(|events|, |UpcomingEvents(events, today)|, groups)
  }
}
