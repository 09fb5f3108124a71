/** The filtered flight search: optional origin, destination and departure-date filters,
    each one added to the query only when it is supplied. */
module Search {
  import opened Records

  const MillisPerDay: int := 86_400_000

  /** The calendar day (days since the epoch, in UTC) of a timestamp: SQL's `DATE(...)`. */
  function DateOf(t: Timestamp): int {
    t / MillisPerDay
  }

  /** The query string of a search; an empty city or an absent date means "no filter". */
  datatype Query = Query(fromCity: CityId, toCity: CityId, date: Option<int>)

  /** One condition appended to the WHERE clause. */
  datatype Criterion = FromIs(city: CityId) | ToIs(city: CityId) | DepartsOn(day: int)

  predicate Holds(f: Flight, c: Criterion) {
    match c
    case FromIs(city) => f.fromCity == city
    case ToIs(city) => f.toCity == city
    case DepartsOn(day) => DateOf(f.departure) == day
  }

  /** A row satisfies the WHERE clause `1=1 AND c1 AND c2 ...`. */
  predicate MatchesAll(f: Flight, cs: seq<Criterion>) {
    forall i :: 0 <= i < |cs| ==> Holds(f, cs[i])
  }

  /** The meaning of a search, independent of how the query is assembled: every supplied
      filter holds of the flight. */
  predicate Matches(f: Flight, q: Query) {
    && (q.fromCity != "" ==> f.fromCity == q.fromCity)
    && (q.toCity != "" ==> f.toCity == q.toCity)
    && (q.date.Some? ==> DateOf(f.departure) == q.date.value)
  }

  /** Counts the filters a query supplies. */
  function FilterCount(q: Query): nat {
    (if q.fromCity != "" then 1 else 0) + (if q.toCity != "" then 1 else 0) + (if q.date.Some? then 1 else 0)
  }

  /** Assembles the WHERE clause by successive appends, one condition per supplied filter. */
  method BuildCriteria(q: Query) returns (cs: seq<Criterion>)
    ensures |cs| == FilterCount(q)
    ensures forall f :: MatchesAll(f, cs) <==> Matches(f, q)
  {
    cs := [];
    if q.fromCity != "" {
      cs := cs + [FromIs(q.fromCity)];
    }
    if q.toCity != "" {
      cs := cs + [ToIs(q.toCity)];
    }
    if q.date.Some? {
      cs := cs + [DepartsOn(q.date.value)];
    }
    forall f
      ensures MatchesAll(f, cs) <==> Matches(f, q)
    {
      if q.fromCity != "" {
        assert cs[0] == FromIs(q.fromCity);
      }
      if q.toCity != "" {
        assert cs[if q.fromCity != "" then 1 else 0] == ToIs(q.toCity);
      }
      if q.date.Some? {
        assert cs[|cs| - 1] == DepartsOn(q.date.value);
      }
    }
  }

  /** The rows the assembled query selects. */
  function Select(flights: map<FlightId, Flight>, cs: seq<Criterion>): (r: map<FlightId, Flight>)
    ensures forall id :: id in r <==> id in flights && MatchesAll(flights[id], cs)
    ensures forall id :: id in r ==> r[id] == flights[id]
  {
    map id | id in flights && MatchesAll(flights[id], cs) :: flights[id]
  }

  /** A query with no filter selects the whole table. */
  lemma {:induction false} NoFilterSelectsAll(flights: map<FlightId, Flight>, cs: seq<Criterion>)
    requires forall f :: MatchesAll(f, cs) <==> Matches(f, Query("", "", None))
    ensures Select(flights, cs) == flights
  {
    forall id | id in flights
      ensures id in Select(flights, cs)
    {
      assert Matches(flights[id], Query("", "", None));
    }
  }
}
