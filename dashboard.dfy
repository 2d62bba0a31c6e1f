/**
 * The dashboard (controllers/dashboardController.js): the day windows, the
 * per-category counts of today's and this week's events and reservations,
 * the "next" appointment of each category and its label, and the overview.
 * Dates are day numbers; an event's day is its parsed `YYYY-MM-DD` date, and
 * an event whose date does not parse falls in no window.
 */
module Dashboard {
  import opened Wrappers
  import opened Calendar
  import opened Ordering
  import opened EventModel
  import opened ReservationModel
  import ReservationController
  import ClientModel
  import ServiceModel

  /** The day boundaries the handler computes from the current date. */
  datatype Windows = Windows(today: Day, tomorrow: Day, startOfWeek: Day, startOfMonth: Day)

  /** `today` at midnight, `tomorrow`, the Sunday that opens the week and the first of the month. */
  function ComputeWindows(now: CalendarDate): (w: Windows)
    ensures w.today == DayNumber(now) && w.tomorrow == w.today + 1
    ensures w.today - 6 <= w.startOfWeek <= w.today && Weekday(w.startOfWeek) == 0
    ensures w.startOfMonth == DayNumber(now.(day := 1)) && w.startOfMonth == w.today - (now.day - 1)
  {
    var today := DayNumber(now);
    WeekStartIsSunday(today);
    DayNumberInMonth(now);
    Windows(today, today + 1, today - Weekday(today), DayNumber(now.(day := 1)))
  }

  /** The event statuses the dashboard counts. */
  predicate IsActiveEvent(e: Event) {
    e.status == "scheduled" || e.status == "confirmed"
  }

  predicate OnDay(e: Event, d: Day) {
    EventDay(e) == Some(d)
  }

  predicate FromDay(e: Event, d: Day) {
    EventDay(e).Some? && EventDay(e).value >= d
  }

  /** `Event.find({ date: today, status: scheduled or confirmed })`. */
  function TodayEvents(events: seq<Event>, today: Day): (r: seq<Event>)
    ensures forall e :: e in r <==> e in events && IsActiveEvent(e) && OnDay(e, today)
    ensures forall e :: multiset(r)[e] == if IsActiveEvent(e) && OnDay(e, today) then multiset(events)[e] else 0
  {
    WhereMultiset(events, (e: Event) => IsActiveEvent(e) && OnDay(e, today));
    Where(events, (e: Event) => IsActiveEvent(e) && OnDay(e, today))
  }

  /** `Event.find({ date >= startOfWeek, ... })`: no upper bound, so later weeks are included too. */
  function WeekEvents(events: seq<Event>, startOfWeek: Day): (r: seq<Event>)
    ensures forall e :: e in r <==> e in events && IsActiveEvent(e) && FromDay(e, startOfWeek)
    ensures forall e :: multiset(r)[e] == if IsActiveEvent(e) && FromDay(e, startOfWeek) then multiset(events)[e] else 0
  {
    WhereMultiset(events, (e: Event) => IsActiveEvent(e) && FromDay(e, startOfWeek));
    Where(events, (e: Event) => IsActiveEvent(e) && FromDay(e, startOfWeek))
  }

  /** `Reservation.find({ date: today, status: confirmed or in-use })`. */
  function TodayReservations(rows: seq<Reservation>, today: Day): (r: seq<Reservation>)
    ensures forall x :: x in r <==> x in rows && x.date == today && HoldsRoom(x.status)
    ensures forall x :: multiset(r)[x] == if x.date == today && HoldsRoom(x.status) then multiset(rows)[x] else 0
  {
    WhereMultiset(rows, (x: Reservation) => x.date == today && HoldsRoom(x.status));
    Where(rows, (x: Reservation) => x.date == today && HoldsRoom(x.status))
  }

  /** `Reservation.find({ date >= startOfWeek, status: confirmed or in-use })`. */
  function WeekReservations(rows: seq<Reservation>, startOfWeek: Day): (r: seq<Reservation>)
    ensures forall x :: x in r <==> x in rows && x.date >= startOfWeek && HoldsRoom(x.status)
    ensures forall x :: multiset(r)[x] == if x.date >= startOfWeek && HoldsRoom(x.status) then multiset(rows)[x] else 0
  {
    WhereMultiset(rows, (x: Reservation) => x.date >= startOfWeek && HoldsRoom(x.status));
    Where(rows, (x: Reservation) => x.date >= startOfWeek && HoldsRoom(x.status))
  }

  predicate IsCoffee(e: Event) {
    e.kind == "coffee" || e.serviceType == "coffee"
  }

  predicate IsLunch(e: Event) {
    e.kind == "lunch" || e.serviceType == "lunch"
  }

  /** An enhanced coffee break: the event's own type is coffee and it has more than ten participants. */
  predicate IsEnhancedCoffee(e: Event) {
    e.kind == "coffee" && e.participants > 10
  }

  /** `participants || 1`. */
  function PlacesOf(e: Event): int {
    if e.participants == 0 then 1 else e.participants
  }

  function Participants(e: Event): int {
    e.participants
  }

  /**
   * The reserved places of the given lunches: at least one place per lunch
   * when no participant count is negative, and exactly the participant total
   * when every count is at least 1, as on a saved event.
   */
  function ReservedPlaces(lunches: seq<Event>): (n: int)
    ensures (forall e :: e in lunches ==> e.participants >= 0) ==> n >= |lunches|
    ensures (forall e :: e in lunches ==> e.participants >= 1) ==> n == SumOf(lunches, Participants)
  {
    if forall e :: e in lunches ==> e.participants >= 0 then
      SumOfAtLeastCount(lunches, PlacesOf);
      if forall e :: e in lunches ==> e.participants >= 1 then
        SumOfCongruent(lunches, PlacesOf, Participants);
        SumOf(lunches, PlacesOf)
      else
        SumOf(lunches, PlacesOf)
    else
      SumOf(lunches, PlacesOf)
  }

  /** `toDateString` equality read on day numbers, then `toLocaleDateString('fr-FR')`. */
  datatype Appointment = Appointment(day: Day, startTime: string)

  /** `formatNextEvent`: "N/A", "Aujourd'hui, t", "Demain, t", or the French date and the start time. */
  function FormatNext(a: Option<Appointment>, today: Day): (r: string)
    ensures a.None? <==> r == "N/A"
    ensures a.Some? && a.value.day == today ==> r == "Aujourd'hui, " + a.value.startTime
    ensures a.Some? && a.value.day == today + 1 ==> r == "Demain, " + a.value.startTime
    ensures a.Some? && a.value.day != today && a.value.day != today + 1 ==> r == FormatFr(a.value.day) + ", " + a.value.startTime
  {
    if a.None? then "N/A" else DayLabel(a.value.day, today) + ", " + a.value.startTime
  }

  /** How `formatNextEvent` names a day: today, tomorrow, or its French date. */
  function DayLabel(d: Day, today: Day): string {
    if d == today then "Aujourd'hui" else if d == today + 1 then "Demain" else FormatFr(d)
  }

  /** Every label of an appointment ends with ", " and its start time. */
  lemma FormatNextEndsWithTime(a: Appointment, today: Day)
    ensures var r := FormatNext(Some(a), today);
            |r| >= |a.startTime| + 2 && r[|r| - |a.startTime| - 2..] == ", " + a.startTime
  {
    var head := DayLabel(a.day, today);
    assert FormatNext(Some(a), today) == head + (", " + a.startTime);
    SuffixOfConcat(head, ", " + a.startTime);
  }

  lemma SuffixOfConcat(h: string, t: string)
    ensures (h + t)[|h|..] == t
  {
  }

  /** The day an event stands at, for the `(date, startTime)` order. */
  function EventDayOr(e: Event): Day {
    if EventDay(e).Some? then EventDay(e).value else 0
  }

  function AppointmentKey(e: Event): Key {
    Key(EventDayOr(e), e.startTime, "")
  }

  function AsAppointment(e: Option<Event>): (a: Option<Appointment>)
    ensures a.Some? <==> e.Some?
  {
    if e.Some? then Some(Appointment(EventDayOr(e.value), e.value.startTime)) else None
  }

  /** `Event.findOne({ date >= today, category, active }).sort({ date: 1, startTime: 1 })`. */
  function NextEvent(events: seq<Event>, today: Day, category: Event -> bool): (r: Option<Event>)
    ensures r.None? <==> forall e :: e in events ==> !(IsActiveEvent(e) && FromDay(e, today) && category(e))
    ensures r.Some? ==> (&& r.value in events && IsActiveEvent(r.value) && FromDay(r.value, today) && category(r.value)
                         && forall e :: e in events && IsActiveEvent(e) && FromDay(e, today) && category(e) ==>
                                          KeyLe(AppointmentKey(r.value), AppointmentKey(e)))
  {
    First(Where(events, (e: Event) => IsActiveEvent(e) && FromDay(e, today) && category(e)), AppointmentKey)
  }

  /** `Reservation.findOne({ date >= today, status: confirmed }).sort(...)`: only confirmed reservations, not in-use ones. */
  function NextReservation(rows: seq<Reservation>, today: Day): (r: Option<Reservation>)
    ensures r.None? <==> forall x :: x in rows ==> !(x.date >= today && x.status == "confirmed")
    ensures r.Some? ==> (&& r.value in rows && r.value.date >= today && r.value.status == "confirmed"
                         && forall x :: x in rows && x.date >= today && x.status == "confirmed" ==>
                                          KeyLe(ReservationController.DateTimeKey(r.value), ReservationController.DateTimeKey(x)))
  {
    First(Where(rows, (x: Reservation) => x.date >= today && x.status == "confirmed"), ReservationController.DateTimeKey)
  }

  function ReservationAppointment(x: Option<Reservation>): Option<Appointment> {
    if x.Some? then Some(Appointment(x.value.date, x.value.startTime)) else None
  }

  /** The blocks of `getDashboardStats`'s answer. */
  datatype Tally = Tally(today: nat, thisWeek: nat, next: string)
  datatype LunchTally = LunchTally(today: nat, reservedPlaces: int, next: string)
  datatype ReservationTally = ReservationTally(ongoing: nat, thisWeek: nat, next: string)
  datatype CocktailTally = CocktailTally(scheduled: nat, thisMonth: nat, next: string)
  datatype DashboardStats = DashboardStats(
    coffeePauses: Tally,
    lunches: LunchTally,
    reservations: ReservationTally,
    enhancedCoffee: Tally,
    cocktails: CocktailTally,
    roomRentals: Tally)

  function IsCocktail(e: Event): bool {
    e.kind == "cocktail"
  }

  /** The `countDocuments` filter for this month's cocktails. */
  function MonthCocktailFilter(startOfMonth: Day): Event -> bool {
    (e: Event) => IsActiveEvent(e) && FromDay(e, startOfMonth) && IsCocktail(e)
  }

  /** `countDocuments({ date >= startOfMonth, type: cocktail, active })`: the number of matching documents. */
  function MonthCocktails(events: seq<Event>, startOfMonth: Day): (n: nat)
    ensures n == |Where(events, MonthCocktailFilter(startOfMonth))|
    ensures n <= |events|
    ensures n == 0 <==> forall e :: e in events ==> !(IsActiveEvent(e) && FromDay(e, startOfMonth) && IsCocktail(e))
    ensures (forall e :: e in events ==> IsActiveEvent(e) && FromDay(e, startOfMonth) && IsCocktail(e)) ==> n == |events|
  {
    var p := MonthCocktailFilter(startOfMonth);
    WhereEmpty(events, p);
    if forall e :: e in events ==> p(e) then WhereAll(events, p); |Where(events, p)|
    else |Where(events, p)|
  }

  /**
   * `getDashboardStats` at the current date `now`: each figure is its query's
   * count over the windows of `now`, each `next` the label of its category's
   * first appointment, and the figures keep the windows' nesting.
   */
  function GetDashboardStats(events: seq<Event>, rows: seq<Reservation>, now: CalendarDate): (s: DashboardStats)
    ensures var w := ComputeWindows(now);
            var todayEvents := TodayEvents(events, w.today);
            var weekEvents := WeekEvents(events, w.startOfWeek);
            && s.coffeePauses.today == |Where(todayEvents, IsCoffee)|
            && s.coffeePauses.thisWeek == |Where(weekEvents, IsCoffee)|
            && s.coffeePauses.next == FormatNext(AsAppointment(NextEvent(events, w.today, IsCoffee)), w.today)
            && s.lunches.today == |Where(todayEvents, IsLunch)|
            && s.lunches.reservedPlaces == ReservedPlaces(Where(todayEvents, IsLunch))
            && s.lunches.next == FormatNext(AsAppointment(NextEvent(events, w.today, IsLunch)), w.today)
            && s.reservations.ongoing == |TodayReservations(rows, w.today)|
            && s.reservations.thisWeek == |WeekReservations(rows, w.startOfWeek)|
            && s.reservations.next == FormatNext(ReservationAppointment(NextReservation(rows, w.today)), w.today)
            && s.enhancedCoffee.today == |Where(todayEvents, IsEnhancedCoffee)|
            && s.enhancedCoffee.thisWeek == |Where(weekEvents, IsEnhancedCoffee)|
            && s.cocktails.thisMonth == MonthCocktails(events, w.startOfMonth)
            && s.cocktails.next == FormatNext(AsAppointment(NextEvent(events, w.today, IsCocktail)), w.today)
    ensures s.enhancedCoffee.today <= s.coffeePauses.today && s.enhancedCoffee.thisWeek <= s.coffeePauses.thisWeek
    ensures s.coffeePauses.today <= s.coffeePauses.thisWeek && s.enhancedCoffee.today <= s.enhancedCoffee.thisWeek
    ensures s.reservations.ongoing <= s.reservations.thisWeek
    ensures (forall e :: e in events ==> e.participants >= 0) ==> s.lunches.reservedPlaces >= s.lunches.today
    ensures s.roomRentals.today == s.reservations.ongoing && s.roomRentals.thisWeek == s.reservations.thisWeek
    ensures s.roomRentals.next == s.reservations.next
    ensures s.cocktails.scheduled == s.cocktails.thisMonth && s.enhancedCoffee.next == s.coffeePauses.next
  {
    var w := ComputeWindows(now);
    var todayEvents := TodayEvents(events, w.today);
    var weekEvents := WeekEvents(events, w.startOfWeek);
    var todayReservations := TodayReservations(rows, w.today);
    var weekReservations := WeekReservations(rows, w.startOfWeek);
    var monthCocktails := MonthCocktails(events, w.startOfMonth);
    var nextCoffee := FormatNext(AsAppointment(NextEvent(events, w.today, IsCoffee)), w.today);
    var nextLunch := FormatNext(AsAppointment(NextEvent(events, w.today, IsLunch)), w.today);
    var nextCocktail := FormatNext(AsAppointment(NextEvent(events, w.today, IsCocktail)), w.today);
    var nextReservation := FormatNext(ReservationAppointment(NextReservation(rows, w.today)), w.today);
    var lunches := Where(todayEvents, IsLunch);
    CountsWithinWindows(events, rows, w.today, w.startOfWeek);
    Tallies(todayEvents);
    Tallies(weekEvents);
    DashboardStats(
      Tally(|Where(todayEvents, IsCoffee)|, |Where(weekEvents, IsCoffee)|, nextCoffee),
      LunchTally(|lunches|, ReservedPlaces(lunches), nextLunch),
      ReservationTally(|todayReservations|, |weekReservations|, nextReservation),
      Tally(|Where(todayEvents, IsEnhancedCoffee)|, |Where(weekEvents, IsEnhancedCoffee)|, nextCoffee),
      CocktailTally(monthCocktails, monthCocktails, nextCocktail),
      Tally(|todayReservations|, |weekReservations|, nextReservation))
  }

  /** Within one set of events, enhanced coffee breaks are coffee breaks. */
  lemma Tallies(s: seq<Event>)
    ensures |Where(s, IsEnhancedCoffee)| <= |Where(s, IsCoffee)|
  {
    WhereWeaker(s, IsEnhancedCoffee, IsCoffee);
  }

  /** The week started on or before today, so each of today's counts is at most the week's. */
  lemma CountsWithinWindows(events: seq<Event>, rows: seq<Reservation>, today: Day, startOfWeek: Day)
    requires startOfWeek <= today
    ensures |Where(TodayEvents(events, today), IsCoffee)| <= |Where(WeekEvents(events, startOfWeek), IsCoffee)|
    ensures |Where(TodayEvents(events, today), IsLunch)| <= |Where(WeekEvents(events, startOfWeek), IsLunch)|
    ensures |Where(TodayEvents(events, today), IsEnhancedCoffee)| <= |Where(WeekEvents(events, startOfWeek), IsEnhancedCoffee)|
    ensures |TodayReservations(rows, today)| <= |WeekReservations(rows, startOfWeek)|
  {
    var p := (e: Event) => IsActiveEvent(e) && OnDay(e, today);
    var p2 := (e: Event) => IsActiveEvent(e) && FromDay(e, startOfWeek);
    WhereNestedWeaker(events, p, p2, IsCoffee);
    WhereNestedWeaker(events, p, p2, IsLunch);
    WhereNestedWeaker(events, p, p2, IsEnhancedCoffee);
    WhereWeaker(rows, (x: Reservation) => x.date == today && HoldsRoom(x.status),
                      (x: Reservation) => x.date >= startOfWeek && HoldsRoom(x.status));
  }

  /** A confirmed or in-use reservation of a later week still counts in `thisWeek`. */
  lemma LaterWeeksCountInWeek(x: Reservation, startOfWeek: Day)
    requires HoldsRoom(x.status) && x.date >= startOfWeek + 7
    ensures |WeekReservations([x], startOfWeek)| == 1
  {
    assert x in WeekReservations([x], startOfWeek);
  }

  /** An entry of `upcomingEvents`. */
  datatype EventSummary = EventSummary(id: Id, name: string, date: string, status: string, client: string, kind: string)

  /** An entry of `activeClients`. */
  datatype ClientSummary = ClientSummary(id: Id, name: string, service: string, status: string)

  datatype QuickStats = QuickStats(eventsToday: nat, reservationsToday: nat, activeClients: nat, totalServices: nat)

  datatype Overview = Overview(upcomingEvents: seq<EventSummary>, activeClients: seq<ClientSummary>, quickStats: QuickStats)

  /** The overview's filter: active events from `today` on. */
  function OverviewFilter(today: Day): Event -> bool {
    (e: Event) => IsActiveEvent(e) && FromDay(e, today)
  }

  /** The overview's upcoming events: active, from today, in `(date, startTime)` order, at most five. */
  function OverviewEvents(events: seq<Event>, today: Day): (r: seq<Event>)
    ensures |r| <= 5 && SortedBy(r, AppointmentKey)
    ensures forall e :: e in r ==> e in events && IsActiveEvent(e) && FromDay(e, today)
    ensures forall e :: e in events && IsActiveEvent(e) && FromDay(e, today) && e !in r ==> |r| == 5
    ensures forall e, x :: e in events && IsActiveEvent(e) && FromDay(e, today) && e !in r && x in r ==>
              KeyLe(AppointmentKey(x), AppointmentKey(e))
    ensures forall e :: multiset(r)[e] <= if IsActiveEvent(e) && FromDay(e, today) then multiset(events)[e] else 0
    ensures |r| < 5 ==> forall e :: multiset(r)[e] == if IsActiveEvent(e) && FromDay(e, today) then multiset(events)[e] else 0
  {
    LimitWhere(events, OverviewFilter(today), AppointmentKey, 5);
    Limit(SortBy(Where(events, OverviewFilter(today)), AppointmentKey), 5)
  }

  function ClientNameKey(c: ClientModel.Client): Key {
    Key(0, c.name, "")
  }

  /** `Client.find({ status: active }).sort({ name: 1 }).limit(5)`. */
  function OverviewClients(clients: seq<ClientModel.Client>): (r: seq<ClientModel.Client>)
    ensures |r| <= 5 && SortedBy(r, ClientNameKey)
    ensures forall c :: c in r ==> c in clients && ClientModel.IsActive(c)
    ensures forall c :: c in clients && ClientModel.IsActive(c) && c !in r ==> |r| == 5
    ensures forall c, x :: c in clients && ClientModel.IsActive(c) && c !in r && x in r ==>
              KeyLe(ClientNameKey(x), ClientNameKey(c))
    ensures forall c :: multiset(r)[c] <= if ClientModel.IsActive(c) then multiset(clients)[c] else 0
    ensures |r| < 5 ==> forall c :: multiset(r)[c] == if ClientModel.IsActive(c) then multiset(clients)[c] else 0
  {
    LimitWhere(clients, ClientModel.IsActive, ClientNameKey, 5);
    Limit(SortBy(Where(clients, ClientModel.IsActive), ClientNameKey), 5)
  }

  predicate IsActiveService(s: ServiceModel.Service) {
    s.status == "active"
  }

  /** `Service.countDocuments({ status: active })`: the number of active services. */
  function ActiveServices(services: seq<ServiceModel.Service>): (n: nat)
    ensures n == |Where(services, IsActiveService)|
    ensures n <= |services|
    ensures n == 0 <==> forall s :: s in services ==> s.status != "active"
    ensures (forall s :: s in services ==> s.status == "active") ==> n == |services|
  {
    var p := IsActiveService;
    WhereEmpty(services, p);
    if forall s :: s in services ==> p(s) then WhereAll(services, p); |Where(services, p)|
    else |Where(services, p)|
  }

  /** `upcomingEvents.map(...)`: one summary per event, carrying its id, name, date, status, client name and type. */
  function SummarizeEvents(s: seq<Event>): (r: seq<EventSummary>)
    ensures |r| == |s|
    ensures forall i :: 0 <= i < |s| ==> && r[i].id == s[i].id && r[i].name == s[i].name && r[i].date == s[i].date
                                         && r[i].status == s[i].status && r[i].client == s[i].clientName
                                         && r[i].kind == s[i].kind
  {
    Map(s, (e: Event) => EventSummary(e.id, e.name, e.date, e.status, e.clientName, e.kind))
  }

  /** `activeClients.map(...)`: one summary per client, with the fixed service label. */
  function SummarizeClients(s: seq<ClientModel.Client>): (r: seq<ClientSummary>)
    ensures |r| == |s|
    ensures forall i :: 0 <= i < |s| ==> && r[i].id == s[i].id && r[i].name == s[i].name
                                         && r[i].status == s[i].status && r[i].service == "Services variés"
  {
    Map(s, (c: ClientModel.Client) => ClientSummary(c.id, c.name, "Services variés", c.status))
  }

  /** `getDashboardOverview`; the five queries read one unchanged state. */
  function GetDashboardOverview(events: seq<Event>, rows: seq<Reservation>, clients: seq<ClientModel.Client>,
                                services: seq<ServiceModel.Service>, now: CalendarDate): (o: Overview)
    ensures |o.upcomingEvents| <= 5 && |o.activeClients| <= 5
    ensures o.quickStats.activeClients == |o.activeClients|
    ensures o.quickStats.totalServices <= |services|
    ensures forall i :: 0 <= i < |o.activeClients| ==> o.activeClients[i].status == "active"
    ensures forall i :: 0 <= i < |o.upcomingEvents| ==> o.upcomingEvents[i].status in {"scheduled", "confirmed"}
    ensures o.quickStats.eventsToday == |TodayEvents(events, DayNumber(now))|
    ensures o.quickStats.reservationsToday == |TodayReservations(rows, DayNumber(now))|
    ensures o.upcomingEvents == SummarizeEvents(OverviewEvents(events, DayNumber(now)))
    ensures o.activeClients == SummarizeClients(OverviewClients(clients))
    ensures o.quickStats.totalServices == ActiveServices(services)
  {
    var today := DayNumber(now);
    var upcoming := OverviewEvents(events, today);
    var active := OverviewClients(clients);
    var summaries := SummarizeEvents(upcoming);
    var clientSummaries := SummarizeClients(active);
    forall i | 0 <= i < |summaries| ensures summaries[i].status in {"scheduled", "confirmed"} {
      assert upcoming[i] in upcoming;
    }
    forall i | 0 <= i < |clientSummaries| ensures clientSummaries[i].status == "active" {
      assert active[i] in active;
    }
    Overview(summaries, clientSummaries,
             QuickStats(|TodayEvents(events, today)|, |TodayReservations(rows, today)|, |clientSummaries|, ActiveServices(services)))
  }
}
