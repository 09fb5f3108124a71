/** The schedule rules of the flight controller: conflict validation and the rows a create
    or an update writes. */
module Schedule {
  import opened Records

  /** Which of the two exact-timestamp rules a candidate flight breaks. */
  datatype Collision = DepartureCollision | ArrivalCollision

  /** `f` leaves `fromCity` at exactly `departure`. */
  predicate SameDeparture(f: Flight, fromCity: CityId, departure: Timestamp) {
    f.fromCity == fromCity && f.departure == departure
  }

  /** `f` reaches `toCity` at exactly `arrival`. */
  predicate SameArrival(f: Flight, toCity: CityId, arrival: Timestamp) {
    f.toCity == toCity && f.arrival == arrival
  }

  /** The rows the first conflict query selects. */
  function DepartureClashes(flights: map<FlightId, Flight>, fromCity: CityId, departure: Timestamp,
                            exclude: Option<FlightId>): set<FlightId>
  {
    set id | id in flights && Some(id) != exclude && SameDeparture(flights[id], fromCity, departure)
  }

  /** The rows the second conflict query selects. */
  function ArrivalClashes(flights: map<FlightId, Flight>, toCity: CityId, arrival: Timestamp,
                          exclude: Option<FlightId>): set<FlightId>
  {
    set id | id in flights && Some(id) != exclude && SameArrival(flights[id], toCity, arrival)
  }

  /** The candidate may sit in the table beside `f`: neither exact-timestamp rule is broken. */
  predicate Compatible(f: Flight, fromCity: CityId, toCity: CityId, departure: Timestamp, arrival: Timestamp) {
    !SameDeparture(f, fromCity, departure) && !SameArrival(f, toCity, arrival)
  }

  /** The schedule-conflict check run before every create and update. The departure rule is
      queried first, so when both rules are broken the departure collision is reported; the
      flight named by `exclude` (the one being edited) takes part in neither search. */
  function ValidateFlightRules(flights: map<FlightId, Flight>, fromCity: CityId, toCity: CityId,
                               departure: Timestamp, arrival: Timestamp, exclude: Option<FlightId>)
    : (r: Outcome<Collision>)
    ensures r == Fail(DepartureCollision) <==>
      exists id :: id in flights && Some(id) != exclude && SameDeparture(flights[id], fromCity, departure)
    ensures r == Fail(ArrivalCollision) <==>
      (forall id :: id in flights && Some(id) != exclude ==> !SameDeparture(flights[id], fromCity, departure))
      && (exists id :: id in flights && Some(id) != exclude && SameArrival(flights[id], toCity, arrival))
    ensures r == Pass <==>
      forall id :: id in flights && Some(id) != exclude ==> Compatible(flights[id], fromCity, toCity, departure, arrival)
  {
    var departures := DepartureClashes(flights, fromCity, departure, exclude);
    if |departures| > 0 then
      assert exists id :: id in departures;
      Fail(DepartureCollision)
    else
      var arrivals := ArrivalClashes(flights, toCity, arrival, exclude);
      assert forall id :: id in flights && Some(id) != exclude ==> id !in departures;
      if |arrivals| > 0 then
        assert exists id :: id in arrivals;
        Fail(ArrivalCollision)
      else
        assert forall id :: id in flights && Some(id) != exclude ==> id !in departures && id !in arrivals;
        Pass
  }

  /** The global schedule invariant: no two flights share an origin and a departure time, and
      no two share a destination and an arrival time. */
  ghost predicate NoCollision(flights: map<FlightId, Flight>) {
    forall a, b :: a in flights && b in flights && a != b ==>
      Compatible(flights[a], flights[b].fromCity, flights[b].toCity, flights[b].departure, flights[b].arrival)
  }

  /** Dropping the exclusion can only add conflicts: a candidate that passes the check of a
      create also passes the check of an update of any flight. */
  lemma {:induction false} ExclusionOnlyRelaxes(flights: map<FlightId, Flight>, fromCity: CityId, toCity: CityId,
                                                departure: Timestamp, arrival: Timestamp, id: FlightId)
    requires ValidateFlightRules(flights, fromCity, toCity, departure, arrival, None) == Pass
    ensures ValidateFlightRules(flights, fromCity, toCity, departure, arrival, Some(id)) == Pass
  {
    forall other | other in flights && Some(other) != Some(id)
      ensures Compatible(flights[other], fromCity, toCity, departure, arrival)
    {
      assert Some(other) != None;
    }
  }

  /** Writing a row that passed the check (with its own id excluded) keeps the table free of
      collisions. */
  lemma {:induction false} PlacePreservesNoCollision(flights: map<FlightId, Flight>, id: FlightId, f: Flight)
    requires NoCollision(flights)
    requires ValidateFlightRules(flights, f.fromCity, f.toCity, f.departure, f.arrival, Some(id)) == Pass
    ensures NoCollision(flights[id := f])
  {
    var placed := flights[id := f];
    forall a, b | a in placed && b in placed && a != b
      ensures Compatible(placed[a], placed[b].fromCity, placed[b].toCity, placed[b].departure, placed[b].arrival)
    {
      if a == id {
        assert Compatible(flights[b], f.fromCity, f.toCity, f.departure, f.arrival);
      } else if b == id {
        assert Compatible(flights[a], f.fromCity, f.toCity, f.departure, f.arrival);
      } else {
        assert placed[a] == flights[a] && placed[b] == flights[b];
      }
    }
  }

  /** Re-saving a flight with its schedule unchanged passes the check, because the flight is
      excluded from both searches and the table is collision-free. */
  lemma {:induction false} ResaveUnchangedPasses(flights: map<FlightId, Flight>, id: FlightId)
    requires NoCollision(flights) && id in flights
    ensures var f := flights[id];
      ValidateFlightRules(flights, f.fromCity, f.toCity, f.departure, f.arrival, Some(id)) == Pass
  {
    var f := flights[id];
    forall other | other in flights && Some(other) != Some(id)
      ensures Compatible(flights[other], f.fromCity, f.toCity, f.departure, f.arrival)
    {
      assert other != id;
    }
  }

  /** The row a create inserts: `seats_available` starts at `seats_total`. */
  function NewFlight(id: FlightId, spec: FlightSpec): (f: Flight)
    ensures f.id == id && f.Booked() == 0
    ensures f.fromCity == spec.fromCity && f.toCity == spec.toCity
    ensures f.departure == spec.departure && f.arrival == spec.arrival
    ensures f.price == spec.price && f.seatsTotal == spec.seatsTotal
  {
    Flight(id, spec.fromCity, spec.toCity, spec.departure, spec.arrival, spec.price,
           spec.seatsTotal, spec.seatsTotal)
  }

  /** The row an update writes when every right-hand side of its SET list reads the row as it
      was before the update (standard SQL): `seats_available` shifts by the change in
      `seats_total`, so the booked count is kept. */
  function UpdatedRow(row: Flight, spec: FlightSpec): (r: Flight)
    ensures r.id == row.id && r.Booked() == row.Booked()
    ensures r.fromCity == spec.fromCity && r.toCity == spec.toCity
    ensures r.departure == spec.departure && r.arrival == spec.arrival
    ensures r.price == spec.price && r.seatsTotal == spec.seatsTotal
  {
    row.(fromCity := spec.fromCity, toCity := spec.toCity, departure := spec.departure,
         arrival := spec.arrival, price := spec.price, seatsTotal := spec.seatsTotal,
         seatsAvailable := row.seatsAvailable + (spec.seatsTotal - row.seatsTotal))
  }

  /** The row the same UPDATE statement writes when its assignments are evaluated left to right,
      each one seeing the columns already assigned (MySQL's documented order for single-table
      UPDATE): `seats_total` is assigned first, so the shift of `seats_available` reads the new
      total and is always zero. */
  function UpdatedRowLeftToRight(row: Flight, spec: FlightSpec): (r: Flight)
    ensures r.seatsTotal == spec.seatsTotal && r.seatsAvailable == row.seatsAvailable
  {
    var written := row.(fromCity := spec.fromCity, toCity := spec.toCity, departure := spec.departure,
                         arrival := spec.arrival, price := spec.price, seatsTotal := spec.seatsTotal);
    written.(seatsAvailable := written.seatsAvailable + (spec.seatsTotal - written.seatsTotal))
  }

  /** Under left-to-right evaluation the booked count moves by exactly the change in capacity,
      so any change of `seats_total` breaks the booked count; the pre-update reading keeps it. */
  lemma LeftToRightShiftsBooked(row: Flight, spec: FlightSpec)
    ensures UpdatedRowLeftToRight(row, spec).Booked() == row.Booked() + (spec.seatsTotal - row.seatsTotal)
    ensures UpdatedRowLeftToRight(row, spec).Booked() == UpdatedRow(row, spec).Booked()
            <==> spec.seatsTotal == row.seatsTotal
  {
  }

  /** A flight with 100 seats and 40 available (60 sold) enlarged to 120 seats: the pre-update
      reading leaves 60 available, left-to-right evaluation leaves 40 and so claims 80 sold. */
  lemma EnlargeExample()
    ensures var row := Flight(0, "IST", "ESB", 0, 3600000, 1000, 100, 40);
      var spec := FlightSpec("IST", "ESB", 0, 3600000, 1000, 120);
      UpdatedRow(row, spec).seatsAvailable == 60
      && UpdatedRowLeftToRight(row, spec).seatsAvailable == 40
      && UpdatedRowLeftToRight(row, spec).Booked() == 80
  {
  }

  /** The source does not check that an update keeps `seats_available` non-negative: it stays
      non-negative exactly when the new capacity covers the seats already sold. */
  lemma {:induction false} ShrinkBelowBooked(row: Flight, spec: FlightSpec)
    ensures UpdatedRow(row, spec).seatsAvailable >= 0 <==> spec.seatsTotal >= row.Booked()
  {
    assert UpdatedRow(row, spec).seatsAvailable == spec.seatsTotal - row.Booked();
  }
}
