# FlyTicket flight inventory and booking, modelled in Dafny

FlyTicket lets passengers search flights and book seats, and lets an administrator manage the
flight schedule. This project models the part with cross-record invariants. That is the flight
table and the booking logic of the two backend controllers, plus the client-side rules that
guard them: the admin flight form (both copies), the admin dashboard statistics and the
passenger's flight page.

- `records.dfy` (module `Records`): the `flight` and `ticket` rows, request bodies, `Option`,
  `Result` and `Outcome`.
- `schedule.dfy` (module `Schedule`): `validateFlightRules`, the global non-collision invariant,
  and the rows that a create and an update write.
- `search.dfy` (module `Search`): the filtered search of `getAllFlights`. The WHERE clause is
  built by successive appends and checked against an independent reference predicate.
- `tickets.dfy` (module `Tickets`): per-flight ticket counts, per-flight seat-label uniqueness,
  and the ticket/flight join of `getTicketsByEmail`.
- `store.dfy` (module `Store`): class `FlightStore`, holding the flight map, the ticket
  sequence and the fresh-id counters. It has one method per endpoint.
- `admin_form.dfy` (module `AdminFlightForm`): `validateForm`, the field handlers and the
  create-or-edit submission. The two copies in the repository differ only in message language.
- `dashboard.dfy` (module `AdminDashboard`): `calculateStats`.
- `flight_detail.dfy` (module `FlightDetail`): the booking guard and payload, the field handler
  and the hours/minutes duration split.

Semantics chosen:

- Identifiers come from counters standing for `uuidv4`. Every id handed out is below the
  counter, so a new flight has no tickets.
- Timestamps are integer milliseconds since the epoch. The search's date filter compares
  `DateOf(t) = t / 86 400 000`, the UTC day number.
- An empty seat label means "no seat chosen". Empty query strings mean "no filter".
- Each endpoint runs sequentially, and its database round trips are ordinary steps.
- Booking takes a `BookingFault` parameter naming the round trip that fails, if any. A failure
  before the insert changes nothing. A failure of the decrement after the insert leaves a
  ticket with no sold seat behind it. `BookTicket` states both outcomes.
- Seat conservation (`Conserved`) and non-negative seat counts (`SeatsNonNegative`) are not
  part of the class invariant `Valid`, because the source can break them:
  - a failed decrement leaves the flight one sold seat short of its tickets;
  - an update that shrinks `seats_total` below the seats already sold drives
    `seats_available` negative, since the source has no check for it.

  Each method states a condition under which it preserves them.
- `updateFlight`: the model reads every right-hand side of the UPDATE's SET list from the row
  as it was before the update (standard SQL). With this reading, `seats_available` shifts by
  the change in `seats_total`. The left-to-right reading (MySQL's) is modelled beside it and
  listed under Findings.
- The browser's `new Date(text)`, `parseInt(text)` and the current time are parameters
  (`Browser`). A JavaScript number is `Num`: an integer or NaN, and every comparison with NaN
  is false.

## Model

| member | source | states |
|---|---|---|
| `Schedule.ValidateFlightRules` | backend/controllers/flightController.js:93-112 | departure collision reported iff some non-excluded flight has the same origin and departure time; arrival collision iff no departure collision and some non-excluded flight has the same destination and arrival time; pass iff every non-excluded flight is compatible |
| `Schedule.ExclusionOnlyRelaxes` | backend/controllers/flightController.js:95-96 | a candidate that passes with no exclusion also passes with any flight excluded |
| `Schedule.PlacePreservesNoCollision` | backend/controllers/flightController.js:67-72 | writing a row that passed the check (its own id excluded) keeps the whole table free of origin/departure and destination/arrival collisions |
| `Schedule.ResaveUnchangedPasses` | backend/controllers/flightController.js:104-105 | in a collision-free table, re-saving a flight with its schedule unchanged passes the check |
| `Schedule.NewFlight` | backend/controllers/flightController.js:44-53 | the inserted row carries the request's fields with `seats_available = seats_total`, so nothing is booked |
| `Schedule.UpdatedRow` | backend/controllers/flightController.js:70-72 | the updated row carries the new route, times, price and capacity and keeps the booked count `seats_total − seats_available` |
| `Schedule.UpdatedRowLeftToRight` | backend/controllers/flightController.js:71 | with left-to-right SET evaluation the capacity changes but `seats_available` does not |
| `Schedule.LeftToRightShiftsBooked` | backend/controllers/flightController.js:71 | under left-to-right evaluation the booked count moves by the capacity change; it agrees with the pre-update reading iff the capacity is unchanged |
| `Schedule.EnlargeExample` | backend/controllers/flightController.js:71 | 100 seats with 40 available, enlarged to 120: 60 available under the pre-update reading, 40 (so 80 "sold") under left-to-right |
| `Schedule.ShrinkBelowBooked` | backend/controllers/flightController.js:70-72 | after an update `seats_available ≥ 0` iff the new capacity covers the seats already sold |
| `Search.BuildCriteria` | backend/controllers/flightController.js:8-23 | one condition per supplied filter, and a flight satisfies all conditions iff it matches every supplied filter |
| `Search.NoFilterSelectsAll` | backend/controllers/flightController.js:8-9 | a query with no filter selects the whole table |
| `Store.FlightStore.GetFlightById` | backend/controllers/flightController.js:33-40 | found iff the id is in the table, and then it is that row; otherwise not-found |
| `Store.FlightStore.GetAllFlights` | backend/controllers/flightController.js:5-28 | assembles the WHERE clause and runs it: returns exactly the flights matching every non-empty filter, unchanged, and all flights when none is given |
| `Store.FlightStore.CreateFlight` | backend/controllers/flightController.js:43-60 | on conflict: that error and nothing changes; otherwise exactly one new row with a fresh id and no seats sold; tickets untouched; keeps `Valid`, conservation and (for a non-negative capacity) non-negative counts |
| `Store.FlightStore.UpdateFlight` | backend/controllers/flightController.js:63-80 | conflict is reported ahead of not-found; either failure changes nothing; on success only that row changes, to `UpdatedRow`; keeps `Valid` and conservation; `seats_available ≥ 0` afterwards iff the new capacity covers the seats sold |
| `Store.FlightStore.DeleteFlight` | backend/controllers/flightController.js:83-90 | removes exactly that flight (not-found and no change if absent); every ticket stays, so tickets may be orphaned; keeps `Valid`, conservation and non-negative counts |
| `Store.FlightStore.BookTicket` | backend/controllers/ticketController.js:4-56 | a failed lookup, an unknown flight, a sold-out flight and a taken seat each give their own error, and a failed seat query or a failed insert gives the store error whatever the seat's state; every failure before the insert changes nothing; success appends exactly one ticket with the request's fields, decrements only that flight's count by one, and needed a free seat; conservation holds after every attempt except a failed decrement, which leaves the flight one sold seat short; seat counts never go negative |
| `Store.FlightStore.SeatIsTaken` | backend/controllers/ticketController.js:17-23 | true iff some ticket on the flight already carries the label |
| `Store.FlightStore.InsertTicket` | backend/controllers/ticketController.js:34-53 | a failed insert changes nothing and the decrement is never attempted; otherwise the ticket is appended, then the count is decremented unless that round trip fails |
| `Store.FlightStore.GetTicketsByEmail` | backend/controllers/ticketController.js:58-69 | every listed ticket carries the email and belongs to an existing flight, with that flight's route, times and price; every such ticket is listed; the list has one row per such ticket, in increasing ticket id |
| `Tickets.TicketCountAppend` | backend/controllers/ticketController.js:37-41 | inserting a ticket adds one to its own flight's count and leaves every other count unchanged |
| `Tickets.TicketCountUnreferenced` | backend/controllers/flightController.js:45-46 | a flight id no ticket refers to (a fresh one) has no tickets |
| `Tickets.AppendKeepsLabelsUnique` | backend/controllers/ticketController.js:17-31 | a ticket with a label free on its flight, or with no label, keeps the non-empty labels of each flight pairwise distinct |
| `Tickets.JoinByEmail` | backend/controllers/ticketController.js:61-62 | the inner join: only tickets with that email whose flight exists, each paired with that flight's fields, and all of them; as many rows as such tickets, and in ticket order when ids increase |
| `Tickets.JoinListsEachOnce` | backend/controllers/ticketController.js:61-62 | with increasing ticket ids, no ticket appears on two rows of the join |
| `Tickets.DeletedFlightDropsOut` | backend/controllers/ticketController.js:62 | once a flight is deleted, none of its tickets appear in the join |
| `AdminFlightForm.SetField` | src/pages/AdminFlightForm.tsx:98-111 | the handler changes the named field to the value and leaves the other five unchanged |
| `AdminFlightForm.ValidateForm` | src/pages/AdminFlightForm.tsx:113-149 | the checks run in order (an empty field, equal cities, arrival ≤ departure, departure < now, price ≤ 0, seats ≤ 0), and once every earlier check has passed, each error is returned iff its own check fails; the form is accepted iff no check fails, a NaN comparison counting as passed |
| `AdminFlightForm.EmptyFormRefused` | src/pages/AdminFlightForm.tsx:35-42 | the form as the page first shows it is refused as incomplete and sends no request |
| `AdminFlightForm.AcceptsExactlyWellFormed` | frontend/src/pages/AdminFlightForm.tsx:107-146 | every well-formed form is accepted (filled, distinct cities, arrival > departure ≥ now, positive price and seats), and every accepted form whose dates and numbers parse is well-formed |
| `AdminFlightForm.DepartureAtNowAllowed` | src/pages/AdminFlightForm.tsx:133-136 | a departure exactly at the current time passes the past check |
| `AdminFlightForm.UnparsedNumbersSlipPast` | src/pages/AdminFlightForm.tsx:138-146 | a price or seat count that parses to NaN passes the `<= 0` checks |
| `AdminFlightForm.MessagesDistinct` | frontend/src/pages/AdminFlightForm.tsx:112-143 | in either copy, distinct refusals show distinct messages, so with `ValidateForm`'s ordering the message names the first failing check |
| `AdminFlightForm.HandleSubmit` | frontend/src/pages/AdminFlightForm.tsx:148-176 | a request is made iff validation passes; PUT to `/flights/{id}` iff the route has an id, otherwise POST to `/flights`; the body carries the form's texts and parsed numbers |
| `AdminDashboard.CalculateStats` | src/pages/AdminDashboard.tsx:59-71 | `totalFlights` is the list length and `bookedSeats = totalSeats − Σ seats_available` |
| `AdminDashboard.BookedIsTotalMinusAvailable` | src/pages/AdminDashboard.tsx:61-62 | the sum of `seats_total − seats_available` equals `Σ seats_total − Σ seats_available` |
| `AdminDashboard.StatsBounds` | src/pages/AdminDashboard.tsx:61-63 | when every flight has `0 ≤ seats_available ≤ seats_total`: `0 ≤ bookedSeats ≤ totalSeats`, and with positive prices `revenue ≥ 0` |
| `AdminDashboard.StatsOfConcat` | src/pages/AdminDashboard.tsx:60-63 | each statistic of a concatenated list is the sum of the statistics of its parts |
| `FlightDetail.SetField` | frontend/src/pages/FlightDetail.tsx:54-60 | the handler changes the named field to the value and leaves the other three unchanged |
| `FlightDetail.HandleBooking` | frontend/src/pages/FlightDetail.tsx:62-82 | no request iff name, surname or email is empty; otherwise the payload is the form's four fields plus the loaded flight's id |
| `FlightDetail.EmptyBookingSendsNothing` | frontend/src/pages/FlightDetail.tsx:27-32 | the booking form as the page first shows it sends no request |
| `FlightDetail.SeatNeverBlocks` | frontend/src/pages/FlightDetail.tsx:65-68 | changing the seat number (including emptying it) never changes whether a request is made |
| `FlightDetail.DurationMinutes` | frontend/src/pages/FlightDetail.tsx:130-132 | the duration is the arrival−departure difference rounded to the nearest minute, a half minute rounding up |
| `FlightDetail.SplitDuration` | frontend/src/pages/FlightDetail.tsx:133-134 | for a non-negative duration, `hours·60 + minutes = duration` with `0 ≤ minutes < 60`; for a negative one the minutes lie in (−60, 0] and recombine to the duration only on whole hours |

## Left out

- Concurrency and atomicity. Endpoints run one at a time. The races between two bookings of
  the last seat or the same label, and between two creations for one slot, cannot be
  expressed here, because the source has no transaction or lock.
- The non-atomic insert-then-decrement is modelled as a possible failure (`DecrementFails`),
  not repaired.
- Store failures in the flight endpoints and in the ticket list. Each flight endpoint makes
  one write of a single statement, and the ticket list only reads, so a failure changes
  nothing. The model omits these paths and their 400/500 codes, including the 500 of
  `getTicketsByEmail`.
- SQL, the `db` driver and `affectedRows`: replaced by the in-memory map and sequence. Result
  order of the searches is not modelled: `GetAllFlights` returns a map, and the join follows
  ticket order.
- The database's string collation. Seat labels and cities compare by exact equality, whereas a
  case-insensitive collation would treat "12a" and "12A" as one seat.
- `uuidv4`: replaced by counters.
- Authentication. The route gate on create, update and delete, the JWT and bcrypt middleware,
  and the admin login are not part of this model.
- Express wiring, the city controller, rendering, toasts, navigation, `localStorage`, `fetch`
  and response handling. This includes the error shown when a submitted request fails.
- Date parsing and formatting (`new Date`, `toISOString().slice(0, 16)`, locale strings, SQL
  `DATE()` time zones). Dates are integer timestamps, and the browser's parsers are parameters.
- The occupancy percentages computed with `Math.round` on floating point, and the dashboard's
  floating-point sums beyond 2^53.
- `parseInt` itself. Only its result, an integer or NaN, is modelled. The 500-seat maximum and
  the `required` and `min` attributes of the HTML inputs are not enforced by the code modelled
  here.
- AdminFlightForm.SetField, FlightDetail.SetField: a field name outside the record
  would add a new property to the form in JavaScript; the model admits only the record's
  field names.
- FlightDetail.HandleBooking: `flight?.flight_id` is a string that the backend looks up. The
  model carries it as an optional flight id.
- Store.FlightStore.BookTicket: seat labels are strings, and an empty one stands for both an
  empty and an absent `seat_number`.

## Findings

| source | as written | input that shows it | evidently intended | confidence | as-written member | corrected member |
|---|---|---|---|---|---|---|
| backend/controllers/flightController.js:71 | `SET ..., seats_total=?, seats_available=seats_available + (? - seats_total)`: if the SET list is evaluated left to right (MySQL's documented order for a single-table UPDATE), the shift reads the new `seats_total` and is always 0 | a flight with 100 seats and 40 available (60 tickets), updated to 120 seats, keeps 40 available, so the table claims 80 seats sold | `seats_available` shifts by the change in `seats_total`, so the seats sold still equal the tickets (60 available) | not executed; depends on the database evaluating SET left to right, and the `db` module is not part of this model | `Schedule.UpdatedRowLeftToRight` (with `Schedule.LeftToRightShiftsBooked`, `Schedule.EnlargeExample`) | `Schedule.UpdatedRow` (used by `Store.FlightStore.UpdateFlight`, which keeps `Conserved`) |
