# Pause manager backend — a Dafny model

This project models the booking and reporting rules of the Pause manager
backend, an Express/Mongoose service for a café that rents rooms, schedules
coffee breaks, lunches and cocktails, and keeps client and service-offering
records. It covers six areas:

- **Room reservations.** The availability check, plus create, update and
  delete of a reservation against a table.
- **Reservation reporting.** The availability endpoint, the upcoming list and
  the weekly statistics.
- **Events.** Field formats, the "end after start" rule, the duration, the
  required-field check with its defaults, the update, and the listing,
  upcoming and statistics queries.
- **Clients.** The schema constraints and the e-mail pattern;
  contract-number uniqueness on create and update; the controller's
  normalization; search and statistics.
- **Service offerings.** The price validator, `formatPrice`, and the
  controller's validation and type whitelist.
- **The dashboard.** The day windows, the counts per category, the "next"
  appointment and its label, and the overview.

## How the model is built

Every collection is a sequence of records. Store calls become sequence
operations:

| store call | model |
|---|---|
| `find` | filter (`Ordering.Where`) |
| `sort` | insertion sort on a key (`Ordering.SortBy`) |
| `limit` | `Ordering.Limit` (0 means no limit, a negative `n` means `-n`) |
| `findOne` with a sort | `Ordering.First` |
| `$group` with sums | `Grouping.GroupBy` |
| an update or delete by id | `Ordering.FindIndex` plus `s[k := v]` or removal |

The collections that create, update and delete change are classes with a
`seq` field and `modifies` clauses:

- `ReservationController.ReservationTable`
- `EventService.EventStore`
- `ClientService.ClientTable`

Each class keeps an invariant: ids are unique and smaller than the next id,
and every stored document passed the schema validators. For clients the
invariant also says that contract numbers are unique.

### Dates and times

- Dates are day numbers (`Calendar.DayNumber`, days since 1970-01-01). An
  event's `YYYY-MM-DD` string is parsed to its day (`Calendar.ParseIsoDate`).
- Reservation times are unchecked strings, compared in string order.
  `ReservationModel.BlocksInMinutes` shows that for `HH:MM` times string
  order is minute order.
- Event times follow the `H:MM`/`HH:MM` pattern (`Calendar.IsClockTime`).
  The pre-save rule is read on minutes since midnight.

### Where the code differs from its own description

The model follows the code. Where the source's comments or messages promise
something else, a lemma records what the code does:

- The price pattern refuses `"15 €/personne"`, although the schema's comment
  and error message give it as an accepted format
  (`ServiceModel.PriceExamples`).
- The reservation update's fallback `room || req.body.room` falls back to the
  same patch field, so only the patch's own fields are checked. A patch that
  only changes the status is not checked at all, so it can turn a pending
  reservation into a confirmed one that overlaps another
  (`ReservationController.StatusOnlyUpdateCanDoubleBook`).
- An event update goes through `findByIdAndUpdate`, which does not run the
  pre-save hook. An update can therefore store an end time before the start
  time (`EventService.UpdateSkipsEndAfterStart`).
- `getServicesByType` accepts the type `rooms`, which is not a type in the
  schema, so it always lists nothing (`ServiceController.RoomsListsNoValidService`).
  It refuses four types the schema allows (`ServiceController.SchemaTypesRefused`).
- The start of the dashboard's "this week" window has no upper bound.
  Reservations of later weeks count in `thisWeek`
  (`Dashboard.LaterWeeksCountInWeek`). The event queries have the same
  open window in the model, which reads event dates as parsed days; see
  "## Left out" for how the code itself compares them.
- The `lunches.reservedPlaces` sum uses `participants || 1`.

## Model

| member | source | states |
|---|---|---|
| ReservationModel.CheckAvailability | models/reservation.js:71-87 | the slot is unavailable iff some reservation has the same room and date, status confirmed or in-use, starts before the requested end and ends after the requested start, and is not the excluded id; as a function of the table it changes nothing |
| ReservationModel.FindConflict | models/reservation.js:85 | a found reservation is in the table and blocks the slot; when none is found, no reservation blocks it |
| ReservationModel.TouchingNeverBlocks | models/reservation.js:77 | a reservation ending exactly at the requested start, or starting exactly at the requested end, never blocks |
| ReservationModel.AvailableWhenDisjoint | models/reservation.js:72-86 | when every holding reservation of the room and day ends by the start or starts at or after the end, the slot is available |
| ReservationModel.NonHoldingNeverBlocks | models/reservation.js:75 | adding a pending, completed or cancelled reservation anywhere in the table never changes the answer |
| ReservationModel.ExcludedNeverBlocks | models/reservation.js:81-83 | the reservation whose id is excluded never changes the answer |
| ReservationModel.BlocksInMinutes | models/reservation.js:14-21 | for `HH:MM` times, blocking in string order is overlap in minutes since midnight |
| ReservationModel.BackToBackExample | models/reservation.js:77 | room A booked 09:00–10:00: 09:30–10:30 is refused, 10:00–11:00 is accepted |
| ReservationModel.Build | models/reservation.js:37-53 | the document carries the new id, the trimmed room, purpose and notes, the supplied day, times, client and event, and each supplied status, participants and equipment; absent ones get `pending`, 1, `[]` and no notes |
| ReservationModel.NewReservation | models/reservation.js:3-61 | a created reservation is valid and carries the new id, the trimmed room, purpose and notes, the day, both times, the client and the event, and a supplied status, participants or equipment (else `pending`, 1, `[]`); no document iff a required field is missing or a validator fails |
| ReservationModel.NewReservationDefaults | models/reservation.js:43-48 | without status or participants a saved reservation is pending with one participant; fewer than one participant, or a room over 50 characters, is refused |
| ReservationModel.ApplyPatch | controllers/reservationController.js:127-130 | the id is kept; every path the patch supplies takes the supplied value (room, purpose and notes trimmed), and every path it leaves out keeps its stored value |
| ReservationModel.PatchKeepsValid | controllers/reservationController.js:127-130 | a patch that passes the update validators keeps a valid reservation valid |
| ReservationController.ReservationTable.Create | controllers/reservationController.js:61-100 | unavailable slot: 400 and the table unchanged; available and valid: exactly one new record, answered with it; the new record overlaps no holding record; a table without double booking stays without |
| ReservationController.ReservationTable.Update | controllers/reservationController.js:105-160 | the slot is checked only when the patch touches room, date or a time, with the record's own id excluded; conflict or invalid patch: 400, unknown id: 404, table unchanged in all three; otherwise only that record is replaced by the patched one; a successful update that supplies room, date and both times keeps the table free of double bookings |
| ReservationController.ReservationTable.Delete | controllers/reservationController.js:165-187 | unknown id: 404 and the table unchanged; otherwise exactly that record is removed and no row with the id remains |
| ReservationController.CreatedSlotIsFree | controllers/reservationController.js:66-75 | a reservation created after a successful check is blocked by no stored reservation |
| ReservationController.CreateKeepsNoDoubleBooking | controllers/reservationController.js:66-75 | appending a reservation no row blocks keeps the table free of double bookings |
| ReservationController.UpdateKeepsNoDoubleBooking | controllers/reservationController.js:110-160 | replacing a record by its patch with all four slot fields, after the check with its own id excluded found the slot free, keeps the table free of double bookings |
| ReservationController.ResaveOwnSlot | controllers/reservationController.js:111-117 | in a table without double booking, re-submitting a reservation's own slot with its id excluded is always available |
| ReservationController.StatusOnlyUpdateCanDoubleBook | controllers/reservationController.js:110 | a status-only patch skips the check, passes the validators and can create an overlap of two holding reservations |
| ReservationController.AvailabilityEndpoint | controllers/reservationController.js:192-216 | 400 iff room, date, startTime or endTime is missing or empty; otherwise the answer is the availability check on the trimmed room and the parsed day |
| ReservationController.UpcomingReservations | controllers/reservationController.js:221-247 | at most 10, in (date, startTime) order, all from today on and pending or confirmed, with no more copies of any reservation than the table holds; a matching one is left out only when 10 are returned, and never ahead of a returned one; under 10 returned means every match, each as often as stored |
| ReservationController.LastWeekWindow | controllers/reservationController.js:254-260 | "one week ago" at the current instant reaches back 7 days at midnight and 6 days at any later time of day |
| ReservationController.DayOfWeek | controllers/reservationController.js:266 | the weekday number is between 1 and 7, and 1 is Sunday |
| ReservationController.WeeklyStats | controllers/reservationController.js:252-289 | groups in weekday order, no two with the same (weekday, room) and none empty; each counts the matching reservations of its (weekday, room) and sums their participants; every matching reservation has its group |
| EventModel.SavedEventsEndAfterStart | models/event.js:86-96 | a saved event starts strictly before it ends, in minutes, and in string order for two-digit hours |
| EventModel.EqualTimesRefused | models/event.js:91 | an event whose end equals its start is not saved |
| EventModel.GetDuration | models/event.js:119-124 | the duration is positive for every event the save accepted, and always less than a day either way |
| EventModel.DurationOfClockTimes | models/event.js:119-124 | the duration of `HH:MM` times is the end minus the start in minutes |
| EventModel.OnlyScheduledIsUpcoming | models/event.js:106-111 | an event that is not `scheduled`, confirmed included, is never upcoming |
| EventModel.UpcomingBoundary | models/event.js:106-111 | a scheduled event of today is upcoming, one of yesterday is not |
| EventModel.UpcomingEvents | models/event.js:127-133 | exactly the events dated today or later (string order) that are scheduled or confirmed, each as often as stored, in (date, startTime) order |
| EventModel.UpcomingFilterIsDayOrder | models/event.js:128-130 | on `YYYY-MM-DD` strings the string comparison is the calendar order |
| Calendar.ClockTimeForms | models/event.js:74 | a time matching the pattern has hour 0–23 and minute 0–59 and is the `HH:MM` or `H:MM` rendering of them |
| Calendar.ClockOrder | models/event.js:74 | for two `HH:MM` times string order is minute order |
| Calendar.ShortHourSortsLate | models/event.js:132 | `9:30` comes before `10:00` in minutes but after it in string order |
| Calendar.IsoDateOrder | models/event.js:13 | on dates of the `YYYY-MM-DD` form, string order is the order of (year, month, day) |
| Calendar.ParseIsoDate | controllers/reservationController.js:203 | a date parses iff it has the `YYYY-MM-DD` form with month 1–12 and day 1–31, and then to the day number of its fields |
| Calendar.WeekStartIsSunday | controllers/dashboardController.js:17-18 | today minus its weekday is a Sunday |
| Calendar.DayNumberInMonth | controllers/dashboardController.js:20 | a day of the month is the first of the month plus its day minus one |
| EventService.FirstMissingField | services/eventService.js:72-80 | no field is reported iff all six are present and non-empty; a reported field is the first falsy one in the order name, date, startTime, endTime, type, location |
| EventService.AllRequiredByName | services/eventService.js:72-74 | the fields looked up by name are exactly the six required fields |
| EventService.NameIsCheckedFirst | services/eventService.js:72-80 | a missing name is the field reported, whatever else is missing |
| EventService.BuildEvent | services/eventService.js:83-101 | the new event carries the id, the date, type and times as given, the trimmed name and location, each truthy client and service sub-field and notes trimmed, a truthy status as given, and non-zero participants as given |
| EventService.BuildEventEmptyDefaults | services/eventService.js:89-99 | absent or empty client, service and notes fields become `""` |
| EventService.BuildEventStatusDefaults | services/eventService.js:97-100 | an absent or empty status becomes `scheduled`; absent or zero participants become 1 |
| EventService.ApplyEventPatch | services/eventService.js:118-129 | the id is kept; every path the patch supplies takes the supplied value (name, location and notes trimmed) and every path it leaves out is kept; a client or service sub-field takes its trimmed flat field exactly when that field is non-empty |
| EventService.PatchKeepsValid | services/eventService.js:118-129 | a patch that passes the update validators keeps a valid event valid |
| EventService.UpdateSkipsEndAfterStart | services/eventService.js:118-129 | a valid patch can give a saved event an end before its start |
| EventService.EventStore.Create | services/eventService.js:69-113 | missing field: its name reported, nothing stored; rejected by the validators or the pre-save rule: nothing stored; otherwise exactly the built event is appended |
| EventService.EventStore.Update | services/eventService.js:116-146 | invalid patch: refused; unknown id: not found; the table unchanged in both; otherwise only that event is replaced by the patched one |
| EventService.EventStore.Delete | services/eventService.js:149-167 | unknown id: not found and unchanged; otherwise exactly that event is removed |
| EventService.BuildEventQuery | services/eventService.js:7-31 | the query sets each path iff its filter is non-empty, and selects exactly the events the filters describe |
| EventService.GetAllEvents | services/eventService.js:5-45 | exactly the events matching every supplied filter, each as often as stored, in (date, startTime) order, with the count equal to the list length |
| EventService.NoFiltersListsAll | services/eventService.js:7-35 | without filters every event is listed |
| EventService.GetUpcomingEvents | services/eventService.js:170-190 | the count is the length of the list |
| EventService.GetUpcomingEventsCorrect | services/eventService.js:170-190 | `min(|limit|, upcoming)` events (limit 10 by default, all for 0), all dated today or later and scheduled or confirmed, in (date, startTime) order, no more copies of any than stored; an upcoming event is left out only when `|limit|` are returned and never ahead of a returned one |
| EventService.GetEventStats | services/eventService.js:210-238 | the total is the number of events and the per-status counts sum to it; one non-empty group per status that occurs, each counting its status; upcoming is the upcoming query's size and at most the total |
| ClientModel.EmailShape | models/clients.js:16-22 | an accepted e-mail holds exactly one `@` and ends in `.` and 2 or 3 word characters |
| ClientModel.EmailExample | models/clients.js:21 | `jean.dupont@cafe-pause.fr` is accepted |
| ClientModel.EmailNeedsTopLevel | models/clients.js:21 | an address without a final `.` and 2–3 word characters is refused |
| ClientModel.EmailSetter | models/clients.js:16-20 | the stored e-mail is the trimmed input with every letter lower-cased, character by character |
| ClientModel.EmailSetterIdempotent | models/clients.js:16-20 | applying the e-mail setters to a stored e-mail changes nothing |
| ClientModel.ActiveOrInactive | models/clients.js:40-47 | for a valid client `isActive()` holds iff the status is not `inactive` |
| ClientService.BuildClient | services/clientService.js:67 | a document is built iff the four required fields are present; it carries the id, the creation time, the trimmed name, contact and contract number, the e-mail through its setter, each supplied phone, address and notes trimmed (absent ones stay absent), and the supplied status or `active` |
| ClientService.ApplyClientPatch | services/clientService.js:113-117 | the id and creation time are kept; every path the patch supplies takes the supplied value through its setter (trimmed, the e-mail also lower-cased), and every path it leaves out keeps its stored value |
| ClientService.PatchKeepsValid | services/clientService.js:113-117 | a patch that passes the update validators keeps a valid client valid |
| ClientService.ClientTable.Create | services/clientService.js:50-92 | an existing contract number: 400 and unchanged; a document the validators refuse: 400 and unchanged; otherwise exactly one new client; contract numbers stay unique |
| ClientService.ClientTable.Update | services/clientService.js:95-139 | a contract number used by another client: 400; invalid patch: 400; unknown id: 404; the table unchanged in all three; otherwise only that client is patched; contract numbers stay unique |
| ClientService.ClientTable.Delete | services/clientService.js:142-155 | unknown id: 404 and unchanged; otherwise exactly that client is removed |
| ClientService.GetAllClients | services/clientService.js:5-31 | exactly the clients matching the search and status filters, each as often as stored, newest first |
| ClientService.StatusFilterOnly | services/clientService.js:20-24 | with only a status filter the listing holds exactly the clients of that status |
| ClientService.SearchClients | services/clientService.js:158-180 | at most 50 matching clients, sorted by name, no more copies of any than stored; a match is left out only when 50 are returned, and never ahead of a returned one; under 50 returned means every match |
| ClientService.GetClientsStats | services/clientService.js:183-199 | the per-status counts sum to the number of clients; one non-empty group per status that occurs, each counting its status, and every client's status has a group |
| ClientController.NormalizeClient | controllers/clientController.js:71-90 | 400 iff name, contact, email or contractNumber is missing or empty; otherwise those trimmed, the e-mail also lower-cased, status defaulted to `active`, and each optional field present iff non-empty, and then trimmed |
| ClientController.NormalizeIdempotent | controllers/clientController.js:81-90 | normalizing a normalized body changes nothing when no field trims to the empty string |
| ClientController.BlankPhoneNotIdempotent | controllers/clientController.js:85 | a blank phone is kept as `""` once and dropped on a second normalization |
| ClientController.NormalizedBodyIsStoredAsIs | controllers/clientController.js:81-92 | the document built from a normalized body holds the controller's trimmed values |
| ClientController.CleanUpdate | controllers/clientController.js:124-131 | every non-empty text field is trimmed (the e-mail also lower-cased), every other field, the status included, is left as it was |
| ClientController.CleanedPatchValid | controllers/clientController.js:124-133 | the cleaned patch passes the update validators iff the raw one does |
| ClientController.CleanedPatchSameEffect | controllers/clientController.js:124-133 | the cleaned patch passes the validators iff the raw one does and stores the same client |
| ClientController.CreateClient | controllers/clientController.js:67-114 | a missing required field answers 400 with the table unchanged; otherwise 400 with the table unchanged when the trimmed contract number is taken or the built document fails the validators, and 201 with exactly the document built from the normalized body appended otherwise |
| ClientController.UpdateClient | controllers/clientController.js:117-155 | a contract number (after cleaning) held by another client: duplicate; an invalid patch: refused; an unknown id: not found; the table unchanged in all three; otherwise the client with the id is replaced by the raw patch's effect |
| ClientController.BuildClientFilters | controllers/clientController.js:11-13 | search and status are forwarded iff non-empty, unchanged |
| ClientController.BuildClientFiltersSameListing | controllers/clientController.js:11-15 | dropping the empty filters gives the same listing |
| ClientController.GetClients | controllers/clientController.js:5-36 | the count is the list length and the list holds exactly the matching clients, each as often as stored, newest first |
| ClientController.SearchEndpoint | controllers/clientController.js:186-219 | 400 iff the term is missing or shorter than 2 characters; otherwise the service search on the term, with its count |
| ServiceModel.PricePatternIsClass | models/services.js:22-28 | the pattern matcher accepts exactly the non-empty strings of digits, white space, `,`, `.`, `/` and `€` |
| ServiceModel.PriceExamples | models/services.js:24-25 | `15`, `15.50`, `15,50`, `15 €` are accepted; `15 €/personne`, `15 EUR` and the empty string are refused |
| ServiceModel.NewService | models/services.js:3-50 | a saved service is valid and carries the trimmed title, description and price, the type as given and `active` when no status is given; no document iff a required field is missing or a validator fails |
| ServiceModel.StatusDefaultsToActive | models/services.js:30-37 | a service created without a status is `active` |
| ServiceModel.FormatPrice | models/services.js:56-73 | coffee and enhanced coffee `€/personne`, lunch `€/repas`, cocktail `€/événement`, room rental `€/salle`, reservation `€/réservation`, any other type only `€` |
| ServiceModel.FormatPriceStartsWithPrice | models/services.js:56-73 | every formatted price starts with the price followed by ` €` |
| ServiceModel.FormatPriceInjective | models/services.js:56-73 | for one type, equal formatted prices mean equal prices |
| ServiceController.CreateServiceData | controllers/serviceController.js:71-87 | 400 iff title, description, price or type is missing or empty; otherwise the three texts trimmed, status defaulted to `active`, type unchanged |
| ServiceController.CreatedServiceKeepsControllerValues | controllers/serviceController.js:81-89 | the saved document holds the controller's trimmed values, and it is saved iff they pass the validators |
| ServiceController.BlankStatusBecomesActive | controllers/serviceController.js:85 | an empty status becomes `active` |
| ServiceController.ServicesByType | controllers/serviceController.js:174-209 | 400 iff the type is not coffee, lunch or rooms; otherwise exactly the services of that type, each as often as it is stored, with their count |
| ServiceController.RoomsListsNoValidService | controllers/serviceController.js:180 | `rooms` is accepted but lists no valid service |
| ServiceController.SchemaTypesRefused | controllers/serviceController.js:180-186 | cocktail, room_rental, enhanced_coffee and reservation are refused |
| ServiceController.BuildServiceFilters | controllers/serviceController.js:11-13 | type and status are forwarded iff non-empty, unchanged |
| ServiceController.GetServices | controllers/serviceController.js:5-36 | the count is the list length and the list holds exactly the services matching the forwarded filters, each as often as it is stored |
| Dashboard.ComputeWindows | controllers/dashboardController.js:11-20 | tomorrow is today plus one; the week starts on the Sunday at most six days before today; the month window starts on the first of the month |
| Dashboard.TodayEvents | controllers/dashboardController.js:23-26 | exactly the scheduled or confirmed events of today, each as often as stored |
| Dashboard.WeekEvents | controllers/dashboardController.js:29-32 | exactly the scheduled or confirmed events from the start of the week on, each as often as stored |
| Dashboard.TodayReservations | controllers/dashboardController.js:35-38 | exactly the confirmed or in-use reservations of today, each as often as stored |
| Dashboard.WeekReservations | controllers/dashboardController.js:41-44 | exactly the confirmed or in-use reservations from the start of the week on, each as often as stored |
| Dashboard.ReservedPlaces | controllers/dashboardController.js:135-137 | with no negative participant count, the reserved places are at least the number of lunches; when every count is at least 1, as on saved events, they are exactly the participant total |
| Dashboard.FormatNext | controllers/dashboardController.js:110-125 | "N/A" exactly without an appointment; "Aujourd'hui, t" for today, "Demain, t" for tomorrow, else the French date and the time |
| Dashboard.FormatNextEndsWithTime | controllers/dashboardController.js:118-124 | every label of an appointment ends with ", " and its start time |
| Dashboard.NextEvent | controllers/dashboardController.js:80-102 | none iff no event matches; otherwise a matching event that is first in (date, startTime) order among the matches |
| Dashboard.NextReservation | controllers/dashboardController.js:104-107 | none iff no confirmed reservation from today on; otherwise the first of them in (date, startTime) order; in-use ones do not count |
| Dashboard.MonthCocktails | controllers/dashboardController.js:73-77 | the count is the number of scheduled or confirmed cocktails dated from the first of the month on; it is zero iff there is none, and every event when all of them are such cocktails |
| Dashboard.GetDashboardStats | controllers/dashboardController.js:9-173 | each figure is its query's count over the windows of the current date and each `next` the label of its category's first appointment; enhanced coffee counts at most the coffee counts; today at most this week; reserved places at least today's lunches; room rentals mirror reservations |
| Dashboard.Tallies | controllers/dashboardController.js:47-57 | in one set of events the enhanced coffee breaks are at most the coffee breaks |
| Dashboard.CountsWithinWindows | controllers/dashboardController.js:23-70 | each today count, for events and for reservations, is at most the matching week count |
| Dashboard.LaterWeeksCountInWeek | controllers/dashboardController.js:41-44 | a confirmed or in-use reservation of a later week still counts in `thisWeek` |
| Dashboard.OverviewEvents | controllers/dashboardController.js:192-199 | at most 5 scheduled or confirmed events from today on, in (date, startTime) order, no more copies of any than stored; a match is left out only when 5 are returned, and never ahead of a returned one; under 5 means every match |
| Dashboard.OverviewClients | controllers/dashboardController.js:202-204 | at most 5 active clients in name order, no more copies of any than stored; an active client is left out only when 5 are returned, and never ahead of a returned one; under 5 means every active client |
| Dashboard.ActiveServices | controllers/dashboardController.js:219 | the count is the number of active services; it is zero iff no service is active and all of them when every service is active |
| Dashboard.SummarizeEvents | controllers/dashboardController.js:223-230 | one entry per event, in order, carrying its id, name, date, status, client name and type |
| Dashboard.SummarizeClients | controllers/dashboardController.js:231-236 | one entry per client, in order, carrying its id, name and status and the fixed label "Services variés" |
| Dashboard.GetDashboardOverview | controllers/dashboardController.js:178-256 | the upcoming list summarizes the overview's five-event query and the client list its five-client query; `quickStats` holds the length of the client list, the today counts of today's queries and the active-service count |
| Strings.Trim | models/reservation.js:7 | the trimmed string is the infix of the input left after removing the white space before and after it, and it neither starts nor ends with white space |
| Strings.TrimIdempotent | controllers/clientController.js:82-83 | trimming a trimmed string changes nothing |
| Strings.TrimToLower | controllers/clientController.js:84 | trimming and lower-casing commute |
| Ordering.SortBy | controllers/reservationController.js:232 | the result is sorted on the key and a permutation of the input |
| Ordering.Limit | controllers/reservationController.js:233 | `limit(0)` keeps all, `limit(n)` keeps the first `|n|`, and the result is a prefix |
| Ordering.LimitSorted | controllers/reservationController.js:232-233 | a limited sorted list is sorted, holds `min(|n|, size)` elements (all for 0) and no more copies of any than the input, all of it when the limit is not smaller, and nothing left out comes before a returned element |
| Ordering.First | controllers/dashboardController.js:80-87 | none iff the input is empty; otherwise an element no other one precedes on the key |
| Ordering.FindIndex | controllers/reservationController.js:127 | the position of the first element with the id, or none when no element has it |
| Ordering.Where | controllers/dashboardController.js:47-49 | the kept elements are exactly the input elements that pass the filter, and there are no more of them than inputs |
| Ordering.WhereMultiset | controllers/dashboardController.js:47-49 | a filter keeps every copy of each element that passes it and none of the others |
| Ordering.LimitWhere | controllers/reservationController.js:221-233 | `find(filter).sort(key).limit(n)` is ordered, holds only passing elements and no more copies than the input, leaves a passing one out only when `|n|` are returned and never ahead of a returned one, and holds every passing copy when not cut short |
| Ordering.WhereEmpty | controllers/dashboardController.js:73-77 | a filter keeps nothing iff no element passes it |
| Ordering.WhereNestedWeaker | controllers/dashboardController.js:47-70 | filtering a narrower set keeps no more elements |
| Ordering.WhereCongruent | controllers/clientController.js:11-13 | two filters that agree on every element give the same result |
| Ordering.SumOfAtLeastCount | controllers/dashboardController.js:137 | a sum of terms that are each at least 1 is at least the number of terms |
| Ordering.SumOfCongruent | controllers/dashboardController.js:137 | terms that agree on every element give the same sum |
| Grouping.GroupByCorrect | controllers/reservationController.js:263-272 | the groups have distinct keys; each group's count and total are those of its key; a key has a group iff it occurs |
| Grouping.DistinctKeysReordered | controllers/reservationController.js:263-276 | sorting groups with distinct keys leaves no two positions with the same key |
| Grouping.CountKeyWitness | services/clientService.js:185-192 | a key with a non-zero count is the key of some item |
| Grouping.CountKeyPositive | services/clientService.js:185-192 | every key that occurs has a positive count |

## Left out

- Express routing, Swagger, the database connection, authentication and the event controller are not part of this model.
- `services/serviceService.js` is not part of this model: the service listing is modelled as an exact match on the filters the controller forwards.
- Concurrency is not modelled: the five overview queries run in sequence on one unchanged state, and the check-then-write race on bookings is out of scope.
- `populate` joins, Mongoose `ValidationError` message lists and the 500 paths are left out; a validation failure is one `Invalid`/`Rejected` answer.
- Search terms are regular expressions in the source; the model reads them as literal text matched without regard to ASCII case.
- `toLowerCase` folds ASCII letters only, and lengths count characters, not UTF-16 code units.
- Time zones and `toLocaleDateString` are left out. Dates are day numbers, the current date is a parameter, and the French date is written `DD/MM/YYYY`.
- `new Date(date)` in the availability endpoint accepts only `YYYY-MM-DD`; other formats JavaScript accepts are answered as a bad date.
- The dashboard's event queries are modelled on the parsed day of each event, compared with the day windows. That is the evident intent, but not what the code does. The event `date` is a String path, and the handlers query it with `Date` values (`today`, `startOfWeek`, `startOfMonth`). Mongoose casts a `Date` given for a String path to its `toString()` text, such as `Wed Oct 14 2026 00:00:00 GMT…`. No `YYYY-MM-DD` string equals that text or sorts after it. As written, then, every event count of the dashboard is 0, every "next" event label is "N/A", and the overview lists no upcoming event. The model does not capture this.
- The event pre-save rule is read on minutes since midnight; the `Date` parsing of a one-digit hour is left out.
- ReservationController.ReservationTable.Update: when the patch touches the slot but leaves one of its four fields out, the query holds an `undefined` value; the store's answer is the parameter `incompleteAnswer` rather than modelled.
- ReservationController.ReservationTable.Create: the same `incompleteAnswer` parameter stands for the store's answer when the body leaves a slot field out.
- ClientService.ClientTable.Create: without a contract number the duplicate lookup holds an `undefined` value; whether it matches a stored client is the parameter `absentFilterAnswer`.
- The `timestamps` option is modelled only as a creation time passed in by the caller; `updatedAt` is left out.
- `getService`, `getClient`, `getClientById`, `getEventById` and `getEventsByType` are plain lookups with no rules and are left out.
- `updateService`, `deleteService`, the client controller's `deleteClient` and `getClientsStats` only forward to the store or the service layer; the service layer's delete and statistics are modelled.
- Event `getFormattedDate` is a locale formatter and is left out.
