/**
 * The Reservation document (models/reservation.js): its schema rules and
 * the availability check, a read-only query over the reservation table.
 */
module ReservationModel {
  import opened Wrappers
  import opened Strings
  import opened Calendar

  /** A stored reservation. `date` is the reserved day; the times are free strings compared as strings. */
  datatype Reservation = Reservation(
    id: Id,
    room: string,
    date: Day,
    startTime: string,
    endTime: string,
    client: Id,
    event: Option<Id>,
    purpose: string,
    status: string,
    participants: int,
    equipment: seq<string>,
    notes: Option<string>)

  const MaxRoomLength := 50
  const MaxPurposeLength := 200
  const MaxNotesLength := 500

  predicate IsReservationStatus(s: string) {
    s in ["pending", "confirmed", "in-use", "completed", "cancelled"]
  }

  /** The statuses that hold a room; every other status leaves the slot free. */
  predicate HoldsRoom(status: string) {
    status == "confirmed" || status == "in-use"
  }

  /** The schema's constraints on a stored reservation. */
  predicate ValidReservation(r: Reservation) {
    && r.room != "" && |r.room| <= MaxRoomLength
    && r.startTime != "" && r.endTime != ""
    && r.purpose != "" && |r.purpose| <= MaxPurposeLength
    && IsReservationStatus(r.status)
    && r.participants >= 1
    && (r.notes.Some? ==> |r.notes.value| <= MaxNotesLength)
  }

  /** A request body or update patch: every field may be absent. */
  datatype ReservationBody = ReservationBody(
    room: Option<string>,
    date: Option<Day>,
    startTime: Option<string>,
    endTime: Option<string>,
    client: Option<Id>,
    event: Option<Id>,
    purpose: Option<string>,
    status: Option<string>,
    participants: Option<int>,
    equipment: Option<seq<string>>,
    notes: Option<string>)

  predicate HasRequired(b: ReservationBody) {
    b.room.Some? && b.date.Some? && b.startTime.Some? && b.endTime.Some? && b.client.Some? && b.purpose.Some?
  }

  /** The document `Reservation.create(body)` builds: trimmed strings and the schema defaults. */
  function Build(id: Id, b: ReservationBody): (r: Reservation)
    requires HasRequired(b)
    ensures r.id == id
    ensures r.room == Trim(b.room.value) && r.purpose == Trim(b.purpose.value)
    ensures r.date == b.date.value && r.startTime == b.startTime.value && r.endTime == b.endTime.value
    ensures r.client == b.client.value && r.event == b.event
    ensures b.status.Some? ==> r.status == b.status.value
    ensures b.status.None? ==> r.status == "pending"
    ensures b.participants.Some? ==> r.participants == b.participants.value
    ensures b.participants.None? ==> r.participants == 1
    ensures b.equipment.Some? ==> r.equipment == b.equipment.value
    ensures b.equipment.None? ==> r.equipment == []
    ensures b.notes.Some? ==> r.notes == Some(Trim(b.notes.value))
    ensures b.notes.None? ==> r.notes == None
  {
    Reservation(
      id, Trim(b.room.value), b.date.value, b.startTime.value, b.endTime.value, b.client.value, b.event,
      Trim(b.purpose.value),
      if b.status.Some? then b.status.value else "pending",
      if b.participants.Some? then b.participants.value else 1,
      if b.equipment.Some? then b.equipment.value else [],
      if b.notes.Some? then Some(Trim(b.notes.value)) else None)
  }

  /** `Reservation.create(body)`: the new document, or `None` when the schema rejects it. */
  function NewReservation(id: Id, b: ReservationBody): (r: Option<Reservation>)
    ensures r.Some? ==> ValidReservation(r.value) && r.value.id == id
    ensures r.Some? ==> (HasRequired(b) && r.value.room == Trim(b.room.value) && r.value.date == b.date.value
                         && r.value.startTime == b.startTime.value && r.value.endTime == b.endTime.value)
    ensures r.Some? ==> (r.value.purpose == Trim(b.purpose.value) && r.value.client == b.client.value
                         && r.value.event == b.event)
    ensures r.Some? ==> (b.status.Some? ==> r.value.status == b.status.value)
                        && (b.status.None? ==> r.value.status == "pending")
    ensures r.Some? ==> (b.participants.Some? ==> r.value.participants == b.participants.value)
                        && (b.participants.None? ==> r.value.participants == 1)
    ensures r.Some? ==> (b.equipment.Some? ==> r.value.equipment == b.equipment.value)
                        && (b.equipment.None? ==> r.value.equipment == [])
    ensures r.Some? ==> (b.notes.Some? ==> r.value.notes == Some(Trim(b.notes.value)))
                        && (b.notes.None? ==> r.value.notes == None)
    ensures r.None? <==> !HasRequired(b) || !ValidReservation(Build(id, b))
  {
    if HasRequired(b) && ValidReservation(Build(id, b)) then Some(Build(id, b)) else None
  }

  /** A new reservation defaults to `pending` with one participant; fewer than one participant or a room name over 50 characters is refused. */
  lemma NewReservationDefaults(id: Id, b: ReservationBody)
    requires HasRequired(b)
    ensures b.status.None? && b.participants.None? && NewReservation(id, b).Some? ==>
              NewReservation(id, b).value.status == "pending" && NewReservation(id, b).value.participants == 1
    ensures b.participants.Some? && b.participants.value < 1 ==> NewReservation(id, b).None?
    ensures |Trim(b.room.value)| > MaxRoomLength ==> NewReservation(id, b).None?
  {
  }

  /** `findByIdAndUpdate(id, patch)`: the fields the patch supplies replace the stored ones (strings trimmed as the schema does). */
  function ApplyPatch(r: Reservation, p: ReservationBody): (u: Reservation)
    ensures u.id == r.id
    ensures p.room.None? ==> u.room == r.room
    ensures p.room.Some? ==> u.room == Trim(p.room.value)
    ensures p.date.None? ==> u.date == r.date
    ensures p.date.Some? ==> u.date == p.date.value
    ensures p.startTime.None? ==> u.startTime == r.startTime
    ensures p.startTime.Some? ==> u.startTime == p.startTime.value
    ensures p.endTime.None? ==> u.endTime == r.endTime
    ensures p.endTime.Some? ==> u.endTime == p.endTime.value
    ensures p.client.None? ==> u.client == r.client
    ensures p.client.Some? ==> u.client == p.client.value
    ensures p.event.None? ==> u.event == r.event
    ensures p.event.Some? ==> u.event == p.event
    ensures p.purpose.None? ==> u.purpose == r.purpose
    ensures p.purpose.Some? ==> u.purpose == Trim(p.purpose.value)
    ensures p.status.None? ==> u.status == r.status
    ensures p.status.Some? ==> u.status == p.status.value
    ensures p.participants.None? ==> u.participants == r.participants
    ensures p.participants.Some? ==> u.participants == p.participants.value
    ensures p.equipment.None? ==> u.equipment == r.equipment
    ensures p.equipment.Some? ==> u.equipment == p.equipment.value
    ensures p.notes.None? ==> u.notes == r.notes
    ensures p.notes.Some? ==> u.notes == Some(Trim(p.notes.value))
  {
    Reservation(
      r.id, SetTrimmed(p.room, r.room), Or(p.date, r.date), Or(p.startTime, r.startTime), Or(p.endTime, r.endTime),
      Or(p.client, r.client), if p.event.Some? then p.event else r.event, SetTrimmed(p.purpose, r.purpose),
      Or(p.status, r.status), Or(p.participants, r.participants), Or(p.equipment, r.equipment),
      SetTrimmedOption(p.notes, r.notes))
  }

  /** The update validators (`runValidators`): each path the patch sets must pass its own validators. */
  predicate PatchValid(p: ReservationBody) {
    && (p.room.Some? ==> Trim(p.room.value) != "" && |Trim(p.room.value)| <= MaxRoomLength)
    && (p.startTime.Some? ==> p.startTime.value != "")
    && (p.endTime.Some? ==> p.endTime.value != "")
    && (p.purpose.Some? ==> Trim(p.purpose.value) != "" && |Trim(p.purpose.value)| <= MaxPurposeLength)
    && (p.status.Some? ==> IsReservationStatus(p.status.value))
    && (p.participants.Some? ==> p.participants.value >= 1)
    && (p.notes.Some? ==> |Trim(p.notes.value)| <= MaxNotesLength)
  }

  /** A patch that passes the update validators keeps a valid reservation valid. */
  lemma PatchKeepsValid(r: Reservation, p: ReservationBody)
    requires ValidReservation(r) && PatchValid(p)
    ensures ValidReservation(ApplyPatch(r, p))
  {
  }

  /**
   * The query `checkAvailability` sends: same room, same date, a status that
   * holds the room, `startTime < endTime'` and `endTime > startTime'`, and not
   * the excluded id.
   */
  predicate Blocks(x: Reservation, room: string, date: Day, startTime: string, endTime: string, excludeId: Option<Id>) {
    && x.room == room
    && x.date == date
    && HoldsRoom(x.status)
    && StrLt(x.startTime, endTime)
    && StrLt(startTime, x.endTime)
    && !(excludeId.Some? && x.id == excludeId.value)
  }

  /** `findOne(query)`: the first blocking reservation in table order, if any. */
  function FindConflict(table: seq<Reservation>, room: string, date: Day, startTime: string, endTime: string,
                        excludeId: Option<Id>): (c: Option<Reservation>)
    ensures c.Some? ==> c.value in table && Blocks(c.value, room, date, startTime, endTime, excludeId)
    ensures c.None? ==> forall x :: x in table ==> !Blocks(x, room, date, startTime, endTime, excludeId)
  {
    if table == [] then None
    else if Blocks(table[0], room, date, startTime, endTime, excludeId) then Some(table[0])
    else FindConflict(table[1..], room, date, startTime, endTime, excludeId)
  }

  /**
   * `Reservation.checkAvailability`: the slot is available exactly when no
   * reservation of the same room and date, holding the room, and other than
   * `excludeId`, overlaps the half-open interval `[startTime, endTime)`.
   */
  function CheckAvailability(table: seq<Reservation>, room: string, date: Day, startTime: string, endTime: string,
                             excludeId: Option<Id>): (available: bool)
    ensures !available <==> exists x :: x in table && x.room == room && x.date == date
                                  && (x.status == "confirmed" || x.status == "in-use")
                                  && StrLt(x.startTime, endTime) && StrLt(startTime, x.endTime)
                                  && !(excludeId.Some? && x.id == excludeId.value)
  {
    FindConflict(table, room, date, startTime, endTime, excludeId).None?
  }

  /** Touching intervals do not conflict: both comparisons are strict. */
  lemma TouchingNeverBlocks(x: Reservation, room: string, date: Day, startTime: string, endTime: string,
                            excludeId: Option<Id>)
    requires x.endTime == startTime || x.startTime == endTime
    ensures !Blocks(x, room, date, startTime, endTime, excludeId)
  {
    StrLtIrreflexive(startTime);
    StrLtIrreflexive(endTime);
  }

  /** When every room-holding booking of that room and day ends by `startTime` or starts from `endTime`, the slot is free. */
  lemma AvailableWhenDisjoint(table: seq<Reservation>, room: string, date: Day, startTime: string, endTime: string,
                              excludeId: Option<Id>)
    requires forall x :: x in table && x.room == room && x.date == date && HoldsRoom(x.status) ==>
               StrLe(x.endTime, startTime) || StrLe(endTime, x.startTime)
    ensures CheckAvailability(table, room, date, startTime, endTime, excludeId)
  {
    forall x | x in table ensures !Blocks(x, room, date, startTime, endTime, excludeId) {
      if x.room == room && x.date == date && HoldsRoom(x.status) {
        if StrLt(x.endTime, startTime) {
          StrLtAsymmetric(x.endTime, startTime);
        } else if StrLt(endTime, x.startTime) {
          StrLtAsymmetric(endTime, x.startTime);
        } else {
          TouchingNeverBlocks(x, room, date, startTime, endTime, excludeId);
        }
      }
    }
  }

  /** A reservation that does not hold its room (pending, completed, cancelled, ...) never makes a slot unavailable. */
  lemma NonHoldingNeverBlocks(a: seq<Reservation>, x: Reservation, b: seq<Reservation>, room: string, date: Day,
                              startTime: string, endTime: string, excludeId: Option<Id>)
    requires !HoldsRoom(x.status)
    ensures CheckAvailability(a + [x] + b, room, date, startTime, endTime, excludeId)
         == CheckAvailability(a + b, room, date, startTime, endTime, excludeId)
  {
    assert forall y :: y in a + [x] + b <==> y in a + b || y == x;
  }

  /** The reservation named by `excludeId` never makes the slot unavailable. */
  lemma ExcludedNeverBlocks(a: seq<Reservation>, x: Reservation, b: seq<Reservation>, room: string, date: Day,
                            startTime: string, endTime: string)
    ensures CheckAvailability(a + [x] + b, room, date, startTime, endTime, Some(x.id))
         == CheckAvailability(a + b, room, date, startTime, endTime, Some(x.id))
  {
    assert forall y :: y in a + [x] + b <==> y in a + b || y == x;
  }

  /** With two-digit `HH:MM` times, the string comparison of the query is the overlap of the times of day. */
  lemma BlocksInMinutes(x: Reservation, room: string, date: Day, startTime: string, endTime: string,
                        excludeId: Option<Id>)
    requires IsClockTime(x.startTime) && |x.startTime| == 5 && IsClockTime(x.endTime) && |x.endTime| == 5
    requires IsClockTime(startTime) && |startTime| == 5 && IsClockTime(endTime) && |endTime| == 5
    ensures Blocks(x, room, date, startTime, endTime, excludeId) <==>
              && x.room == room && x.date == date && HoldsRoom(x.status)
              && !(excludeId.Some? && x.id == excludeId.value)
              && ClockMinutes(x.startTime) < ClockMinutes(endTime)
              && ClockMinutes(startTime) < ClockMinutes(x.endTime)
  {
    ClockOrder(x.startTime, endTime);
    ClockOrder(startTime, x.endTime);
  }

  /** A confirmed 09:00-10:00 booking of room A blocks 09:30-10:30 there but not 10:00-11:00. */
  lemma BackToBackExample(id: Id, client: Id)
    ensures var booked := Reservation(id, "A", DayNumber(CalendarDate(2024, 1, 10)), "09:00", "10:00", client, None,
                                      "meeting", "confirmed", 1, [], None);
            var day := DayNumber(CalendarDate(2024, 1, 10));
            && !CheckAvailability([booked], "A", day, "09:30", "10:30", None)
            && CheckAvailability([booked], "A", day, "10:00", "11:00", None)
  {
    var booked := Reservation(id, "A", DayNumber(CalendarDate(2024, 1, 10)), "09:00", "10:00", client, None,
                              "meeting", "confirmed", 1, [], None);
    var day := DayNumber(CalendarDate(2024, 1, 10));
    assert StrLt("09:00", "10:30") && StrLt("09:30", "10:00");
    assert Blocks(booked, "A", day, "09:30", "10:30", None);
    TouchingNeverBlocks(booked, "A", day, "10:00", "11:00", None);
  }
}
