/**
 * The reservation handlers (controllers/reservationController.js): create,
 * update and delete change the reservation table, which is held by a class;
 * the availability endpoint, the upcoming list and the weekly statistics are
 * read-only queries over it.
 */
module ReservationController {
  import opened Wrappers
  import opened Strings
  import opened Calendar
  import opened Ordering
  import opened Grouping
  import opened ReservationModel

  /** What a handler answers. */
  datatype Outcome = Created(r: Reservation) | Updated(r: Reservation) | Deleted | Unavailable | Invalid | NotFound

  function StatusCode(o: Outcome): int {
    match o
    case Created(_) => 201
    case Updated(_) => 200
    case Deleted => 200
    case NotFound => 404
    case _ => 400
  }

  /**
   * The store's answer to the availability query built from the four slot
   * fields. With all four supplied it is the conflict check (the room cast
   * through the schema's trim). With one missing the query carries an
   * `undefined` value, and the store's answer is `incompleteAnswer`.
   */
  function SlotFree(table: seq<Reservation>, room: Option<string>, date: Option<Day>, startTime: Option<string>,
                    endTime: Option<string>, excludeId: Option<Id>, incompleteAnswer: bool): bool
  {
    if room.Some? && date.Some? && startTime.Some? && endTime.Some? then
      CheckAvailability(table, Trim(room.value), date.value, startTime.value, endTime.value, excludeId)
    else incompleteAnswer
  }

  /** The update's guard: one of room, date, startTime, endTime is truthy in the patch. */
  predicate TouchesSlot(p: ReservationBody) {
    Truthy(p.room) || p.date.Some? || Truthy(p.startTime) || Truthy(p.endTime)
  }

  /** Two reservations that both hold the same room on the same day at overlapping times. */
  predicate Overlap(a: Reservation, b: Reservation) {
    && a.room == b.room && a.date == b.date
    && HoldsRoom(a.status) && HoldsRoom(b.status)
    && StrLt(a.startTime, b.endTime) && StrLt(b.startTime, a.endTime)
  }

  /** No room is held twice at overlapping times. */
  predicate NoDoubleBooking(rows: seq<Reservation>) {
    forall i, j :: 0 <= i < j < |rows| ==> !Overlap(rows[i], rows[j])
  }

  function HasId(id: Id): Reservation -> bool {
    (x: Reservation) => x.id == id
  }

  /** The reservation table, `mongoose.model('Reservation')`, with the ids it hands out. */
  class ReservationTable {
    var rows: seq<Reservation>
    var nextId: Id

    ghost predicate Valid()
      reads this
    {
      TableInvariant(rows, nextId)
    }

    constructor()
      ensures Valid() && rows == [] && nextId == 0
    {
      rows := [];
      nextId := 0;
    }

    /**
     * `createReservation`: 400 when the slot is taken, 400 when the schema
     * rejects the body, otherwise one new document. A created reservation
     * overlaps no reservation that holds its room.
     */
    method Create(body: ReservationBody, incompleteAnswer: bool) returns (o: Outcome)
      requires Valid()
      modifies this
      ensures Valid()
      ensures var free := SlotFree(old(rows), body.room, body.date, body.startTime, body.endTime, None, incompleteAnswer);
              var doc := NewReservation(old(nextId), body);
              && (!free ==> o == Unavailable)
              && (free && doc.None? ==> o == Invalid)
              && (free && doc.Some? ==> o == Created(doc.value))
      ensures o.Created? ==> rows == old(rows) + [o.r] && nextId == old(nextId) + 1
      ensures !o.Created? ==> rows == old(rows) && nextId == old(nextId)
      ensures o.Created? ==> forall x :: x in old(rows) ==> !Blocks(x, o.r.room, o.r.date, o.r.startTime, o.r.endTime, None)
      ensures NoDoubleBooking(old(rows)) ==> NoDoubleBooking(rows)
    {
      var free := SlotFree(rows, body.room, body.date, body.startTime, body.endTime, None, incompleteAnswer);
      if !free {
        return Unavailable;
      }
      var doc := NewReservation(nextId, body);
      if doc.None? {
        return Invalid;
      }
      var r := doc.value;
      CreatedSlotIsFree(rows, nextId, body, incompleteAnswer);
      if NoDoubleBooking(rows) {
        CreateKeepsNoDoubleBooking(rows, r);
      }
      AppendKeepsInvariant(rows, nextId, r);
      rows := rows + [r];
      nextId := nextId + 1;
      o := Created(r);
    }

    /**
     * `updateReservation`: when the patch names a slot field, the check runs
     * on the patch's own fields with the record's own id excluded, and a
     * taken slot answers 400 before anything else; a patch the update
     * validators reject answers 400; an unknown id answers 404; otherwise the
     * document is patched in place.
     */
    method Update(id: Id, patch: ReservationBody, incompleteAnswer: bool) returns (o: Outcome)
      requires Valid()
      modifies this
      ensures Valid()
      ensures nextId == old(nextId)
      ensures var free := !TouchesSlot(patch)
                       || SlotFree(old(rows), patch.room, patch.date, patch.startTime, patch.endTime, Some(id),
                                   incompleteAnswer);
              var k := FindIndex(old(rows), HasId(id));
              && (!free ==> o == Unavailable)
              && (free && !PatchValid(patch) ==> o == Invalid)
              && (free && PatchValid(patch) && k.None? ==> o == NotFound)
              && (free && PatchValid(patch) && k.Some? ==>
                    o == Updated(ApplyPatch(old(rows)[k.value], patch)) && rows == old(rows)[k.value := o.r])
      ensures !o.Updated? ==> rows == old(rows)
      ensures (NoDoubleBooking(old(rows)) && patch.room.Some? && patch.date.Some? && patch.startTime.Some?
               && patch.endTime.Some?) ==> NoDoubleBooking(rows)
    {
      if TouchesSlot(patch) {
        var free := SlotFree(rows, patch.room, patch.date, patch.startTime, patch.endTime, Some(id), incompleteAnswer);
        if !free {
          return Unavailable;
        }
      }
      if !PatchValid(patch) {
        return Invalid;
      }
      var k := FindIndex(rows, HasId(id));
      if k.None? {
        return NotFound;
      }
      var u := ApplyPatch(rows[k.value], patch);
      if NoDoubleBooking(rows) && patch.room.Some? && patch.date.Some? && patch.startTime.Some? && patch.endTime.Some? {
        UpdateKeepsNoDoubleBooking(rows, k.value, patch);
      }
      PatchKeepsValid(rows[k.value], patch);
      ReplaceKeepsInvariant(rows, nextId, k.value, u);
      rows := rows[k.value := u];
      o := Updated(u);
    }

    /** `deleteReservation`: 404 for an unknown id, otherwise the document is removed. */
    method Delete(id: Id) returns (o: Outcome)
      requires Valid()
      modifies this
      ensures Valid()
      ensures nextId == old(nextId)
      ensures var k := FindIndex(old(rows), HasId(id));
              && (k.None? ==> o == NotFound && rows == old(rows))
              && (k.Some? ==> o == Deleted && rows == old(rows)[..k.value] + old(rows)[k.value + 1..])
      ensures forall x :: x in rows ==> x in old(rows) && x.id != id
      ensures NoDoubleBooking(old(rows)) ==> NoDoubleBooking(rows)
    {
      var k := FindIndex(rows, HasId(id));
      if k.None? {
        return NotFound;
      }
      RemoveKeepsInvariant(rows, nextId, k.value);
      rows := rows[..k.value] + rows[k.value + 1..];
      o := Deleted;
    }
  }

  /** Ids are unique and below `nextId`; every stored document passed the schema. */
  ghost predicate TableInvariant(rows: seq<Reservation>, nextId: Id) {
    && (forall i, j :: 0 <= i < j < |rows| ==> rows[i].id != rows[j].id)
    && (forall i :: 0 <= i < |rows| ==> rows[i].id < nextId && ValidReservation(rows[i]))
  }

  lemma AppendKeepsInvariant(rows: seq<Reservation>, nextId: Id, r: Reservation)
    requires TableInvariant(rows, nextId) && r.id == nextId && ValidReservation(r)
    ensures TableInvariant(rows + [r], nextId + 1)
  {
    var s := rows + [r];
    assert forall i :: 0 <= i < |rows| ==> s[i] == rows[i];
  }

  lemma ReplaceKeepsInvariant(rows: seq<Reservation>, nextId: Id, k: nat, u: Reservation)
    requires TableInvariant(rows, nextId) && k < |rows| && u.id == rows[k].id && ValidReservation(u)
    ensures TableInvariant(rows[k := u], nextId)
  {
  }

  /** Removing one document keeps the invariant and the absence of double bookings, and drops only that document's id. */
  lemma RemoveKeepsInvariant(rows: seq<Reservation>, nextId: Id, k: nat)
    requires TableInvariant(rows, nextId) && k < |rows|
    ensures TableInvariant(rows[..k] + rows[k + 1..], nextId)
    ensures forall x :: x in rows[..k] + rows[k + 1..] ==> x in rows && x.id != rows[k].id
    ensures NoDoubleBooking(rows) ==> NoDoubleBooking(rows[..k] + rows[k + 1..])
  {
    var s := rows[..k] + rows[k + 1..];
    assert forall j :: 0 <= j < |s| ==> s[j] == rows[if j < k then j else j + 1];
  }

  /** A document `Create` builds passed the check on its own slot. */
  lemma CreatedSlotIsFree(rows: seq<Reservation>, id: Id, body: ReservationBody, incompleteAnswer: bool)
    requires SlotFree(rows, body.room, body.date, body.startTime, body.endTime, None, incompleteAnswer)
    requires NewReservation(id, body).Some?
    ensures var r := NewReservation(id, body).value;
            forall x :: x in rows ==> !Blocks(x, r.room, r.date, r.startTime, r.endTime, None)
  {
    var r := NewReservation(id, body).value;
    assert CheckAvailability(rows, r.room, r.date, r.startTime, r.endTime, None);
  }

  /** Appending a reservation that no stored one blocks keeps every room singly held. */
  lemma CreateKeepsNoDoubleBooking(rows: seq<Reservation>, r: Reservation)
    requires NoDoubleBooking(rows)
    requires forall x :: x in rows ==> !Blocks(x, r.room, r.date, r.startTime, r.endTime, None)
    ensures NoDoubleBooking(rows + [r])
  {
    var s := rows + [r];
    forall i, j | 0 <= i < j < |s| ensures !Overlap(s[i], s[j]) {
      if j == |rows| {
        assert s[i] in rows;
      } else {
        assert s[i] == rows[i] && s[j] == rows[j];
      }
    }
  }

  /**
   * An update that supplies all four slot fields and passes the check with
   * the record's own id excluded keeps every room singly held.
   */
  lemma UpdateKeepsNoDoubleBooking(rows: seq<Reservation>, k: nat, patch: ReservationBody)
    requires k < |rows| && NoDoubleBooking(rows)
    requires forall i, j :: 0 <= i < j < |rows| ==> rows[i].id != rows[j].id
    requires patch.room.Some? && patch.date.Some? && patch.startTime.Some? && patch.endTime.Some?
    requires CheckAvailability(rows, Trim(patch.room.value), patch.date.value, patch.startTime.value,
                               patch.endTime.value, Some(rows[k].id))
    ensures NoDoubleBooking(rows[k := ApplyPatch(rows[k], patch)])
  {
    var u := ApplyPatch(rows[k], patch);
    var s := rows[k := u];
    forall i, j | 0 <= i < j < |s| ensures !Overlap(s[i], s[j]) {
      if i == k || j == k {
        var o := if i == k then j else i;
        assert rows[o] in rows && rows[o].id != rows[k].id;
        assert !Blocks(rows[o], u.room, u.date, u.startTime, u.endTime, Some(rows[k].id));
      } else {
        assert s[i] == rows[i] && s[j] == rows[j];
      }
    }
  }

  /**
   * Re-saving a stored reservation's own slot passes the update's check: it
   * is excluded from its own query, and no other reservation overlaps it.
   */
  lemma ResaveOwnSlot(rows: seq<Reservation>, k: nat, incompleteAnswer: bool)
    requires k < |rows| && NoDoubleBooking(rows)
    requires forall i, j :: 0 <= i < j < |rows| ==> rows[i].id != rows[j].id
    requires HoldsRoom(rows[k].status) && Trim(rows[k].room) == rows[k].room
    ensures var r := rows[k];
            SlotFree(rows, Some(r.room), Some(r.date), Some(r.startTime), Some(r.endTime), Some(r.id), incompleteAnswer)
  {
    var r := rows[k];
    forall x | x in rows ensures !Blocks(x, r.room, r.date, r.startTime, r.endTime, Some(r.id)) {
      var i :| 0 <= i < |rows| && rows[i] == x;
      if i < k {
        assert !Overlap(rows[i], rows[k]);
      } else if i > k {
        assert !Overlap(rows[k], rows[i]);
      }
    }
  }

  /**
   * A patch that names no slot field skips the check, so confirming a pending
   * reservation can leave a room held twice at the same time.
   */
  lemma StatusOnlyUpdateCanDoubleBook()
    ensures var a := Reservation(1, "A", 0, "09:00", "10:00", 7, None, "meeting", "confirmed", 1, [], None);
            var b := Reservation(2, "A", 0, "09:30", "10:30", 8, None, "review", "pending", 1, [], None);
            var patch := ReservationBody(None, None, None, None, None, None, None, Some("confirmed"), None, None, None);
            && !TouchesSlot(patch)
            && NoDoubleBooking([a, b])
            && PatchValid(patch)
            && !NoDoubleBooking([a, ApplyPatch(b, patch)])
  {
    var a := Reservation(1, "A", 0, "09:00", "10:00", 7, None, "meeting", "confirmed", 1, [], None);
    var b := Reservation(2, "A", 0, "09:30", "10:30", 8, None, "review", "pending", 1, [], None);
    var patch := ReservationBody(None, None, None, None, None, None, None, Some("confirmed"), None, None, None);
    assert [a, ApplyPatch(b, patch)][1] == ApplyPatch(b, patch);
    assert StrLt("09:00", "10:30") && StrLt("09:30", "10:00");
    assert Overlap([a, ApplyPatch(b, patch)][0], [a, ApplyPatch(b, patch)][1]);
  }

  /** The availability endpoint's answer. */
  datatype AvailabilityAnswer = MissingParameters | BadDate | Available(free: bool)

  /**
   * `checkAvailability` handler: 400 when a parameter is missing or empty,
   * otherwise the model's check on the parsed date. A date that is not
   * `YYYY-MM-DD` is `BadDate`.
   */
  function AvailabilityEndpoint(table: seq<Reservation>, room: Option<string>, date: Option<string>,
                                startTime: Option<string>, endTime: Option<string>, excludeId: Option<Id>)
    : (a: AvailabilityAnswer)
    ensures a.MissingParameters? <==> !Truthy(room) || !Truthy(date) || !Truthy(startTime) || !Truthy(endTime)
    ensures a.BadDate? <==> !a.MissingParameters? && ParseIsoDate(date.value).None?
    ensures a.Available? ==> a.free == CheckAvailability(table, Trim(room.value), ParseIsoDate(date.value).value,
                                                        startTime.value, endTime.value, excludeId)
  {
    if !Truthy(room) || !Truthy(date) || !Truthy(startTime) || !Truthy(endTime) then MissingParameters
    else
      var day := ParseIsoDate(date.value);
      if day.None? then BadDate
      else Available(CheckAvailability(table, Trim(room.value), day.value, startTime.value, endTime.value, excludeId))
  }

  /** Sort key `{ date: 1, startTime: 1 }`. */
  function DateTimeKey(r: Reservation): Key {
    Key(r.date, r.startTime, "")
  }

  predicate IsUpcoming(r: Reservation, today: Day) {
    r.date >= today && (r.status == "pending" || r.status == "confirmed")
  }

  /** `getUpcomingReservations` over the table, with `today` the current day. */
  function UpcomingReservations(rows: seq<Reservation>, today: Day): (r: seq<Reservation>)
    ensures |r| <= 10 && SortedBy(r, DateTimeKey)
    ensures forall x :: x in r ==> x in rows && x.date >= today && (x.status == "pending" || x.status == "confirmed")
    ensures forall x :: x in rows && IsUpcoming(x, today) && x !in r ==> |r| == 10
    ensures forall x, y :: x in rows && IsUpcoming(x, today) && x !in r && y in r ==> KeyLe(DateTimeKey(y), DateTimeKey(x))
    ensures forall x :: multiset(r)[x] <= if IsUpcoming(x, today) then multiset(rows)[x] else 0
    ensures |r| < 10 ==> forall x :: multiset(r)[x] == if IsUpcoming(x, today) then multiset(rows)[x] else 0
  {
    var p := x => IsUpcoming(x, today);
    LimitWhere(rows, p, DateTimeKey, 10);
    Limit(SortBy(Where(rows, p), DateTimeKey), 10)
  }

  const MsPerDay := 86400000

  /**
   * `date >= oneWeekAgo`, where `oneWeekAgo` is the current instant moved back
   * seven days and a reservation's date is the midnight that starts its day.
   */
  predicate InLastWeek(r: Reservation, today: Day, msOfDay: nat) {
    r.date * MsPerDay >= (today - 7) * MsPerDay + msOfDay
  }

  /** At midnight the window starts seven days back, at any later instant six. */
  lemma LastWeekWindow(r: Reservation, today: Day, msOfDay: nat)
    requires msOfDay < MsPerDay
    ensures InLastWeek(r, today, msOfDay) <==> r.date >= (if msOfDay == 0 then today - 7 else today - 6)
  {
    if msOfDay > 0 && r.date == today - 7 {
      assert r.date * MsPerDay < (today - 7) * MsPerDay + msOfDay;
    }
    if r.date < today - 7 {
      assert r.date * MsPerDay <= (today - 8) * MsPerDay;
    }
  }

  /** `$dayOfWeek`: 1 for Sunday through 7 for Saturday. */
  function DayOfWeek(d: Day): (w: int)
    ensures 1 <= w <= 7
    ensures w == 1 <==> Weekday(d) == 0
  {
    Weekday(d) + 1
  }

  type StatKey = (int, string)

  /** The `$group` input: each matching reservation keyed by (weekday, room), weighted by its participants. */
  function StatItems(rows: seq<Reservation>, today: Day, msOfDay: nat): seq<(StatKey, int)> {
    Map(Where(rows, x => InLastWeek(x, today, msOfDay)), (x: Reservation) => ((DayOfWeek(x.date), x.room), x.participants))
  }

  /** Sort key `{ '_id.day': 1 }`. */
  function DayKey(g: Group<StatKey>): Key {
    Key(g.key.0, "", "")
  }

  /**
   * `getWeeklyStats`: groups ordered by weekday; each counts the matching
   * reservations of its weekday and room and sums their participants, no
   * key has two groups, no group is empty, and every matching reservation
   * has its group.
   */
  function WeeklyStats(rows: seq<Reservation>, today: Day, msOfDay: nat): (r: seq<Group<StatKey>>)
    ensures SortedBy(r, DayKey)
    ensures forall g :: g in r ==> (&& g.count == CountKey(StatItems(rows, today, msOfDay), g.key)
                                   && g.total == SumKey(StatItems(rows, today, msOfDay), g.key))
    ensures forall x :: x in rows && InLastWeek(x, today, msOfDay) ==>
              exists g :: g in r && g.key == (DayOfWeek(x.date), x.room)
    ensures forall i, j :: 0 <= i < j < |r| ==> r[i].key != r[j].key
    ensures forall g :: g in r ==> g.count > 0
  {
    var items := StatItems(rows, today, msOfDay);
    var groups := GroupBy(items);
    GroupByCorrect(items);
    var r := SortBy(groups, DayKey);
    DistinctKeysReordered(groups, r);
    forall g | g in r ensures g in groups && g.count > 0 {
      SortByMembership(groups, DayKey, g);
      KeysMember(groups, g);
    }
    forall x | x in rows && InLastWeek(x, today, msOfDay)
      ensures exists g :: g in r && g.key == (DayOfWeek(x.date), x.room)
    {
      var matching := Where(rows, x => InLastWeek(x, today, msOfDay));
      var i :| 0 <= i < |matching| && matching[i] == x;
      CountKeyPositive(items, i);
      var g := GroupOf(groups, (DayOfWeek(x.date), x.room));
      SortByMembership(groups, DayKey, g);
    }
    r
  }
}
