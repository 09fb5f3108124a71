/** The rows of the flight and ticket tables and the wrappers the controllers return. */
module Records {

  /** Opaque identifiers, handed out by a fresh-id supply (the store's counters). */
  type FlightId = nat
  type TicketId = nat

  /** A city as the admin form's city select submits it. */
  type CityId = string

  /** A point in time in milliseconds since the epoch, as `Date.getTime()` reads it. */
  type Timestamp = int

  datatype Option<+T> = None | Some(value: T)

  datatype Result<+T, +E> = Ok(value: T) | Err(error: E)

  /** The outcome of an operation that returns nothing on success. */
  datatype Outcome<+E> = Pass | Fail(error: E)

  /** One row of the `flight` table. */
  datatype Flight = Flight(
    id: FlightId,
    fromCity: CityId,
    toCity: CityId,
    departure: Timestamp,
    arrival: Timestamp,
    price: int,
    seatsTotal: int,
    seatsAvailable: int)
  {
    /** Seats sold so far, as the dashboard and the conservation invariant count them. */
    function Booked(): int {
      seatsTotal - seatsAvailable
    }
  }

  /** The body of a create or update request. */
  datatype FlightSpec = FlightSpec(
    fromCity: CityId,
    toCity: CityId,
    departure: Timestamp,
    arrival: Timestamp,
    price: int,
    seatsTotal: int)

  /** One row of the `ticket` table; an empty seat number means no seat was chosen. */
  datatype Ticket = Ticket(
    id: TicketId,
    passengerName: string,
    passengerSurname: string,
    passengerEmail: string,
    flightId: FlightId,
    seatNumber: string)

  /** The body of a booking request. */
  datatype TicketRequest = TicketRequest(
    passengerName: string,
    passengerSurname: string,
    passengerEmail: string,
    flightId: FlightId,
    seatNumber: string)
}
