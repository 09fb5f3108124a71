/** The ticket table: per-flight counts, seat-label uniqueness and the join of tickets with
    their flights that the passenger's ticket list reads. */
module Tickets {
  import opened Records

  /** The number of tickets issued on flight `id`. */
  function TicketCount(ts: seq<Ticket>, id: FlightId): nat {
    if ts == [] then 0
    else TicketCount(ts[..|ts| - 1], id) + (if ts[|ts| - 1].flightId == id then 1 else 0)
  }

  /** Some ticket on flight `id` carries seat label `seat`: the seat query finds a row. */
  predicate SeatHeld(ts: seq<Ticket>, id: FlightId, seat: string) {
    exists i :: 0 <= i < |ts| && ts[i].flightId == id && ts[i].seatNumber == seat
  }

  /** Among the tickets of one flight, the non-empty seat labels are pairwise distinct;
      any number of tickets may carry the empty label. */
  ghost predicate SeatLabelsUnique(ts: seq<Ticket>) {
    forall i, j :: 0 <= i < j < |ts| && ts[i].flightId == ts[j].flightId && ts[i].seatNumber != "" ==>
      ts[i].seatNumber != ts[j].seatNumber
  }

  /** Appending a ticket adds one to its own flight's count and leaves every other count alone. */
  lemma {:induction false} TicketCountAppend(ts: seq<Ticket>, t: Ticket, id: FlightId)
    ensures TicketCount(ts + [t], id) == TicketCount(ts, id) + (if t.flightId == id then 1 else 0)
  {
    assert (ts + [t])[..|ts|] == ts;
  }

  /** A flight that no ticket references has a count of zero. */
  lemma {:induction false} TicketCountUnreferenced(ts: seq<Ticket>, id: FlightId)
    requires forall i :: 0 <= i < |ts| ==> ts[i].flightId != id
    ensures TicketCount(ts, id) == 0
  {
    if ts != [] {
      TicketCountUnreferenced(ts[..|ts| - 1], id);
    }
  }

  /** A labelled ticket whose label is free on its flight, or an unlabelled ticket, keeps the
      labels unique when appended. */
  lemma {:induction false} AppendKeepsLabelsUnique(ts: seq<Ticket>, t: Ticket)
    requires SeatLabelsUnique(ts)
    requires t.seatNumber != "" ==> !SeatHeld(ts, t.flightId, t.seatNumber)
    ensures SeatLabelsUnique(ts + [t])
  {
    var us := ts + [t];
    forall i, j | 0 <= i < j < |us| && us[i].flightId == us[j].flightId && us[i].seatNumber != ""
      ensures us[i].seatNumber != us[j].seatNumber
    {
      if j == |ts| {
        assert us[i] == ts[i] && us[j] == t;
        if t.seatNumber != "" {
          assert !(ts[i].flightId == t.flightId && ts[i].seatNumber == t.seatNumber);
        }
      } else {
        assert us[i] == ts[i] && us[j] == ts[j];
      }
    }
  }

  /** One row of the passenger's ticket list: the ticket with its flight's route, times and price. */
  datatype TicketView = TicketView(
    ticket: Ticket,
    fromCity: CityId,
    toCity: CityId,
    departure: Timestamp,
    arrival: Timestamp,
    price: int)

  function ViewOf(t: Ticket, f: Flight): TicketView {
    TicketView(t, f.fromCity, f.toCity, f.departure, f.arrival, f.price)
  }

  /** A ticket the join lists: it carries the email and its flight still exists. */
  predicate Joins(t: Ticket, flights: map<FlightId, Flight>, email: string) {
    t.passengerEmail == email && t.flightId in flights
  }

  /** The number of tickets the join lists. */
  function JoinCount(ts: seq<Ticket>, flights: map<FlightId, Flight>, email: string): nat {
    if ts == [] then 0
    else JoinCount(ts[..|ts| - 1], flights, email) + (if Joins(ts[|ts| - 1], flights, email) then 1 else 0)
  }

  /** Ticket ids increase along the table, as the store hands them out. */
  predicate IdsIncreasing(ts: seq<Ticket>) {
    forall i, j :: 0 <= i < j < |ts| ==> ts[i].id < ts[j].id
  }

  /** The inner join of the tickets carrying `email` with the flight table, in ticket order:
      every listed row is a joining ticket with its own flight's fields, every joining ticket
      is listed, and each of them once. */
  function JoinByEmail(ts: seq<Ticket>, flights: map<FlightId, Flight>, email: string): (r: seq<TicketView>)
    ensures |r| == JoinCount(ts, flights, email) <= |ts|
    ensures forall k :: 0 <= k < |r| ==>
      && r[k].ticket in ts
      && Joins(r[k].ticket, flights, email)
      && r[k] == ViewOf(r[k].ticket, flights[r[k].ticket.flightId])
    ensures forall i :: 0 <= i < |ts| && Joins(ts[i], flights, email) ==>
      ViewOf(ts[i], flights[ts[i].flightId]) in r
    ensures IdsIncreasing(ts) ==> forall k, l :: 0 <= k < l < |r| ==> r[k].ticket.id < r[l].ticket.id
  {
    if ts == [] then []
    else
      var t := ts[|ts| - 1];
      var front := ts[..|ts| - 1];
      var earlier := JoinByEmail(front, flights, email);
      assert forall i :: 0 <= i < |front| ==> front[i] == ts[i];
      if Joins(t, flights, email) then
        var r := earlier + [ViewOf(t, flights[t.flightId])];
        assert IdsIncreasing(ts) ==> forall k :: 0 <= k < |earlier| ==> earlier[k].ticket.id < t.id by {
          if IdsIncreasing(ts) {
            forall k | 0 <= k < |earlier|
              ensures earlier[k].ticket.id < t.id
            {
              var i :| 0 <= i < |front| && front[i] == earlier[k].ticket;
            }
          }
        }
        r
      else
        earlier
  }

  /** With ticket ids increasing, as the store keeps them, every joining ticket is listed exactly
      once: no row of the join repeats a ticket. */
  lemma {:induction false} JoinListsEachOnce(ts: seq<Ticket>, flights: map<FlightId, Flight>, email: string)
    requires IdsIncreasing(ts)
    ensures var r := JoinByEmail(ts, flights, email);
      forall k, l :: 0 <= k < l < |r| ==> r[k].ticket != r[l].ticket
  {
    var r := JoinByEmail(ts, flights, email);
    forall k, l | 0 <= k < l < |r|
      ensures r[k].ticket != r[l].ticket
    {
      assert r[k].ticket.id < r[l].ticket.id;
    }
  }

  /** After a flight is deleted, the join no longer lists any of its tickets, though the tickets
      themselves remain in the table. */
  lemma {:induction false} DeletedFlightDropsOut(ts: seq<Ticket>, flights: map<FlightId, Flight>, email: string,
                                                 id: FlightId)
    ensures forall v :: v in JoinByEmail(ts, flights - {id}, email) ==> v.ticket.flightId != id
  {
    var r := JoinByEmail(ts, flights - {id}, email);
    forall v | v in r
      ensures v.ticket.flightId != id
    {
      var k :| 0 <= k < |r| && r[k] == v;
      assert r[k].ticket.flightId in flights - {id};
    }
  }
}
