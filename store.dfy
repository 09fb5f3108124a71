/** The flight and ticket tables behind the two controllers, and every endpoint that reads or
    changes them. Each endpoint is one sequential method; its database round trips are ordinary
    steps. */
module Store {
  import opened Records
  import opened Schedule
  import opened Search
  import opened Tickets

  /** Why a create, update or delete was refused. */
  datatype FlightError = Conflict(collision: Collision) | NotFound

  /** Why a booking was refused; `StoreError` is a database round trip that failed. */
  datatype BookingError = UnknownFlight | SoldOut | SeatTaken | StoreError

  /** Which database round trip of a booking fails, if any. */
  datatype BookingFault = NoFault | LookupFails | SeatQueryFails | InsertFails | DecrementFails

  class FlightStore {
    var flights: map<FlightId, Flight>
    var tickets: seq<Ticket>
    /** The fresh-id supply: every id handed out so far is below these counters. */
    var nextFlightId: FlightId
    var nextTicketId: TicketId

    /** The invariant every endpoint keeps: rows are keyed by their own ids, every id (and every
        flight a ticket refers to) came from the supply, ticket ids are distinct, the schedule
        is collision-free and seat labels are unique per flight. */
    ghost predicate Valid()
      reads this
    {
      && (forall id :: id in flights ==> flights[id].id == id && id < nextFlightId)
      && (forall i :: 0 <= i < |tickets| ==> tickets[i].flightId < nextFlightId && tickets[i].id < nextTicketId)
      && IdsIncreasing(tickets)
      && NoCollision(flights)
      && SeatLabelsUnique(tickets)
    }

    /** Seat conservation: every flight has sold exactly as many seats as it has tickets. */
    ghost predicate Conserved()
      reads this
    {
      forall id :: id in flights ==> flights[id].Booked() == TicketCount(tickets, id)
    }

    /** No flight is oversold. */
    ghost predicate SeatsNonNegative()
      reads this
    {
      forall id :: id in flights ==> flights[id].seatsAvailable >= 0
    }

    /** A booking request gets past every guard: the flight exists, has a seat left, and the
        requested label, if any, is free on it. */
    ghost predicate Admissible(req: TicketRequest)
      reads this
    {
      && req.flightId in flights
      && flights[req.flightId].seatsAvailable > 0
      && (req.seatNumber != "" ==> !SeatHeld(tickets, req.flightId, req.seatNumber))
    }

    constructor ()
      ensures Valid() && Conserved() && SeatsNonNegative()
      ensures flights == map[] && tickets == [] && nextFlightId == 0 && nextTicketId == 0
    {
      flights := map[];
      tickets := [];
      nextFlightId := 0;
      nextTicketId := 0;
    }

    /** Looks a flight up by id. */
    function GetFlightById(id: FlightId): (r: Result<Flight, FlightError>)
      reads this
      ensures r.Ok? <==> id in flights
      ensures r.Ok? ==> r.value == flights[id]
      ensures r.Err? ==> r.error == NotFound
    {
      if id in flights then Ok(flights[id]) else Err(NotFound)
    }

    /** The filtered search: exactly the flights matching every supplied filter. */
    method GetAllFlights(q: Query) returns (found: map<FlightId, Flight>)
      ensures forall id :: id in found <==> id in flights && Matches(flights[id], q)
      ensures forall id :: id in found ==> found[id] == flights[id]
      ensures q == Query("", "", None) ==> found == flights
    {
      var criteria := BuildCriteria(q);
      found := Select(flights, criteria);
      if q == Query("", "", None) {
        NoFilterSelectsAll(flights, criteria);
      }
    }

    /** Adds a flight after the schedule check, with `seats_available` equal to `seats_total`. */
    method CreateFlight(spec: FlightSpec) returns (r: Result<FlightId, FlightError>)
      requires Valid()
      modifies this
      ensures Valid()
      ensures tickets == old(tickets) && nextTicketId == old(nextTicketId)
      ensures var v := ValidateFlightRules(old(flights), spec.fromCity, spec.toCity, spec.departure, spec.arrival, None);
        && (v.Fail? ==> r == Err(Conflict(v.error)) && flights == old(flights) && nextFlightId == old(nextFlightId))
        && (v.Pass? ==> r == Ok(old(nextFlightId)) && nextFlightId == old(nextFlightId) + 1)
      ensures r.Ok? ==> r.value !in old(flights) && flights == old(flights)[r.value := NewFlight(r.value, spec)]
      ensures old(Conserved()) ==> Conserved()
      ensures old(SeatsNonNegative()) && spec.seatsTotal >= 0 ==> SeatsNonNegative()
    {
      var v := ValidateFlightRules(flights, spec.fromCity, spec.toCity, spec.departure, spec.arrival, None);
      if v.Fail? {
        return Err(Conflict(v.error));
      }
      var id := nextFlightId;
      var f := NewFlight(id, spec);
      ExclusionOnlyRelaxes(flights, spec.fromCity, spec.toCity, spec.departure, spec.arrival, id);
      PlacePreservesNoCollision(flights, id, f);
      TicketCountUnreferenced(tickets, id);
      flights := flights[id := f];
      nextFlightId := nextFlightId + 1;
      r := Ok(id);
    }

    /** Rewrites a flight after the schedule check (the flight itself excluded), shifting
        `seats_available` by the change in `seats_total`. The check runs first, so a conflict is
        reported ahead of an unknown id. */
    method UpdateFlight(id: FlightId, spec: FlightSpec) returns (r: Outcome<FlightError>)
      requires Valid()
      modifies this
      ensures Valid()
      ensures tickets == old(tickets) && nextFlightId == old(nextFlightId) && nextTicketId == old(nextTicketId)
      ensures var v := ValidateFlightRules(old(flights), spec.fromCity, spec.toCity, spec.departure, spec.arrival, Some(id));
        && (v.Fail? ==> r == Fail(Conflict(v.error)))
        && (v.Pass? && id !in old(flights) ==> r == Fail(NotFound))
        && (v.Pass? && id in old(flights) ==> r == Pass)
      ensures r.Fail? ==> flights == old(flights)
      ensures r.Pass? ==> id in old(flights) && flights == old(flights)[id := UpdatedRow(old(flights)[id], spec)]
      ensures old(Conserved()) ==> Conserved()
      ensures r.Pass? ==> (flights[id].seatsAvailable >= 0 <==> spec.seatsTotal >= old(flights)[id].Booked())
      ensures old(SeatsNonNegative()) && (r.Pass? ==> spec.seatsTotal >= old(flights)[id].Booked()) ==> SeatsNonNegative()
    {
      var v := ValidateFlightRules(flights, spec.fromCity, spec.toCity, spec.departure, spec.arrival, Some(id));
      if v.Fail? {
        return Fail(Conflict(v.error));
      }
      if id !in flights {
        return Fail(NotFound);
      }
      var f := UpdatedRow(flights[id], spec);
      PlacePreservesNoCollision(flights, id, f);
      ShrinkBelowBooked(flights[id], spec);
      flights := flights[id := f];
      r := Pass;
    }

    /** Removes a flight. Its tickets stay in the ticket table: nothing checks for them. */
    method DeleteFlight(id: FlightId) returns (r: Outcome<FlightError>)
      requires Valid()
      modifies this
      ensures Valid()
      ensures r == (if id in old(flights) then Pass else Fail(NotFound))
      ensures flights == old(flights) - {id}
      ensures tickets == old(tickets) && nextFlightId == old(nextFlightId) && nextTicketId == old(nextTicketId)
      ensures old(Conserved()) ==> Conserved()
      ensures old(SeatsNonNegative()) ==> SeatsNonNegative()
    {
      if id !in flights {
        return Fail(NotFound);
      }
      flights := flights - {id};
      r := Pass;
    }

    /** The seat query of a booking: does some ticket on `id` already carry `seat`? */
    method SeatIsTaken(id: FlightId, seat: string) returns (taken: bool)
      ensures taken <==> SeatHeld(tickets, id, seat)
    {
      var i := 0;
      while i < |tickets|
        invariant 0 <= i <= |tickets|
        invariant forall k :: 0 <= k < i ==> !(tickets[k].flightId == id && tickets[k].seatNumber == seat)
      {
        if tickets[i].flightId == id && tickets[i].seatNumber == seat {
          return true;
        }
        i := i + 1;
      }
      taken := false;
    }

    /** Books a ticket: look the flight up, refuse it when sold out, refuse a requested seat label
        already held on it, then insert the ticket and decrement `seats_available` in two further
        round trips. `fault` names the round trip that fails, if any: a failure before the insert
        changes nothing, while a failure of the decrement leaves the inserted ticket behind. */
    method BookTicket(req: TicketRequest, fault: BookingFault) returns (r: Result<TicketId, BookingError>)
      requires Valid()
      modifies this
      ensures Valid()
      ensures nextFlightId == old(nextFlightId)
      ensures fault == LookupFails ==> r == Err(StoreError)
      ensures fault != LookupFails && req.flightId !in old(flights) ==> r == Err(UnknownFlight)
      ensures fault != LookupFails && req.flightId in old(flights) && old(flights)[req.flightId].seatsAvailable <= 0
              ==> r == Err(SoldOut)
      ensures fault == SeatQueryFails && req.seatNumber != "" && req.flightId in old(flights)
              && old(flights)[req.flightId].seatsAvailable > 0
              ==> r == Err(StoreError)
      ensures fault == InsertFails && old(Admissible(req)) ==> r == Err(StoreError)
      ensures fault != LookupFails && req.flightId in old(flights) && old(flights)[req.flightId].seatsAvailable > 0
              && req.seatNumber != "" && fault != SeatQueryFails && old(SeatHeld(tickets, req.flightId, req.seatNumber))
              ==> r == Err(SeatTaken)
      ensures r.Ok? ==> old(Admissible(req)) && fault !in {LookupFails, InsertFails, DecrementFails}
      // What a booking that reaches the insert leaves behind.
      ensures var t := Ticket(old(nextTicketId), req.passengerName, req.passengerSurname, req.passengerEmail,
                              req.flightId, req.seatNumber);
        (old(Admissible(req)) && (req.seatNumber == "" || fault != SeatQueryFails) && fault !in {LookupFails, InsertFails})
        ==> && tickets == old(tickets) + [t]
            && nextTicketId == old(nextTicketId) + 1
            && (fault == DecrementFails ==> r == Err(StoreError) && flights == old(flights))
            && (fault != DecrementFails ==>
                  && r == Ok(t.id)
                  && flights == old(flights)[req.flightId := old(flights)[req.flightId].(
                       seatsAvailable := old(flights)[req.flightId].seatsAvailable - 1)])
      // Every other failure changes nothing.
      ensures r.Err? && tickets != old(tickets) ==> r.error == StoreError && fault == DecrementFails
      ensures tickets == old(tickets) ==> flights == old(flights) && nextTicketId == old(nextTicketId)
      // Seat conservation holds after every attempt except one whose decrement failed, which
      // leaves that flight one sold seat short of its tickets.
      ensures old(Conserved()) && fault != DecrementFails ==> Conserved()
      ensures old(Conserved()) && fault == DecrementFails && tickets != old(tickets) ==>
        flights[req.flightId].Booked() + 1 == TicketCount(tickets, req.flightId)
      ensures old(SeatsNonNegative()) ==> SeatsNonNegative()
    {
      if fault == LookupFails {
        return Err(StoreError);
      }
      if req.flightId !in flights {
        return Err(UnknownFlight);
      }
      var flight := flights[req.flightId];
      if flight.seatsAvailable <= 0 {
        return Err(SoldOut);
      }
      if req.seatNumber != "" {
        if fault == SeatQueryFails {
          return Err(StoreError);
        }
        var taken := SeatIsTaken(req.flightId, req.seatNumber);
        if taken {
          return Err(SeatTaken);
        }
      }
      r := InsertTicket(req, fault);
    }

    /** The insert-then-decrement tail of a booking whose guards have passed. */
    method InsertTicket(req: TicketRequest, fault: BookingFault) returns (r: Result<TicketId, BookingError>)
      requires Valid() && Admissible(req)
      modifies this
      ensures Valid()
      ensures nextFlightId == old(nextFlightId)
      ensures var t := Ticket(old(nextTicketId), req.passengerName, req.passengerSurname, req.passengerEmail,
                              req.flightId, req.seatNumber);
        && (fault == InsertFails ==> r == Err(StoreError) && tickets == old(tickets) && flights == old(flights)
                                     && nextTicketId == old(nextTicketId))
        && (fault != InsertFails ==> tickets == old(tickets) + [t] && nextTicketId == old(nextTicketId) + 1)
        && (fault == DecrementFails ==> r == Err(StoreError) && flights == old(flights))
        && (fault != InsertFails && fault != DecrementFails ==>
              && r == Ok(t.id)
              && flights == old(flights)[req.flightId := old(flights)[req.flightId].(
                   seatsAvailable := old(flights)[req.flightId].seatsAvailable - 1)])
      ensures old(Conserved()) && fault != DecrementFails ==> Conserved()
      ensures old(Conserved()) && fault == DecrementFails ==>
        flights[req.flightId].Booked() + 1 == TicketCount(tickets, req.flightId)
      ensures old(SeatsNonNegative()) ==> SeatsNonNegative()
    {
      if fault == InsertFails {
        return Err(StoreError);
      }
      var t := Ticket(nextTicketId, req.passengerName, req.passengerSurname, req.passengerEmail,
                      req.flightId, req.seatNumber);
      AppendKeepsLabelsUnique(tickets, t);
      forall id | id in flights
        ensures TicketCount(tickets + [t], id) == TicketCount(tickets, id) + (if id == req.flightId then 1 else 0)
      {
        TicketCountAppend(tickets, t, id);
      }
      tickets := tickets + [t];
      nextTicketId := nextTicketId + 1;
      if fault == DecrementFails {
        return Err(StoreError);
      }
      var flight := flights[req.flightId];
      flights := flights[req.flightId := flight.(seatsAvailable := flight.seatsAvailable - 1)];
      r := Ok(t.id);
    }

    /** The passenger's ticket list: the tickets carrying `email` whose flight still exists,
        each with its flight's route, times and price. */
    function GetTicketsByEmail(email: string): (r: seq<TicketView>)
      reads this
      ensures |r| == JoinCount(tickets, flights, email)
      ensures forall k :: 0 <= k < |r| ==>
        && r[k].ticket in tickets
        && r[k].ticket.passengerEmail == email
        && r[k].ticket.flightId in flights
        && r[k] == ViewOf(r[k].ticket, flights[r[k].ticket.flightId])
      ensures forall i :: 0 <= i < |tickets| && tickets[i].passengerEmail == email && tickets[i].flightId in flights ==>
                ViewOf(tickets[i], flights[tickets[i].flightId]) in r
      ensures Valid() ==> forall k, l :: 0 <= k < l < |r| ==> r[k].ticket.id < r[l].ticket.id
    {
      JoinByEmail(tickets, flights, email)
    }
  }

  /** Two passengers book the last seat of a one-seat flight one after the other: the first gets
      the ticket, the second is told the flight is sold out, and the seat count ends at zero with
      exactly one ticket on the flight. */
  method LastSeatScenario()
  {
    var store := new FlightStore();
    var created := store.CreateFlight(FlightSpec("IST", "ESB", 1000, 2000, 500, 1));
    assert created == Ok(0);
    assert store.flights == map[0 := Flight(0, "IST", "ESB", 1000, 2000, 500, 1, 1)];
    var first := store.BookTicket(TicketRequest("Ada", "Yilmaz", "ada@example.com", 0, ""), NoFault);
    assert first == Ok(0);
    var second := store.BookTicket(TicketRequest("Can", "Demir", "can@example.com", 0, ""), NoFault);
    assert second == Err(SoldOut);
    assert store.flights[0].seatsAvailable == 0 && |store.tickets| == 1;
  }

  /** Two passengers ask for the same seat label on one flight: the second is refused. */
  method SameSeatScenario()
  {
    var store := new FlightStore();
    var created := store.CreateFlight(FlightSpec("IST", "ADB", 3000, 4000, 700, 2));
    assert created == Ok(0);
    var first := store.BookTicket(TicketRequest("Ece", "Kaya", "ece@example.com", 0, "12A"), NoFault);
    assert first == Ok(0);
    assert store.tickets[0].flightId == 0 && store.tickets[0].seatNumber == "12A";
    var second := store.BookTicket(TicketRequest("Efe", "Acar", "efe@example.com", 0, "12A"), NoFault);
    assert second == Err(SeatTaken);
  }
}
