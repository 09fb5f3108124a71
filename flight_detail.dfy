/** The passenger's flight page: the booking form, its required-field guard and payload, and the
    flight duration shown in hours and minutes. */
module FlightDetail {
  import opened Records

  /** The booking form's state; the seat number is optional and may stay empty. */
  datatype BookingForm = BookingForm(
    passengerName: string,
    passengerSurname: string,
    passengerEmail: string,
    seatNumber: string)

  const EmptyBooking := BookingForm("", "", "", "")

  datatype Field = PassengerName | PassengerSurname | PassengerEmail | SeatNumber

  function Get(form: BookingForm, field: Field): string {
    match field
    case PassengerName => form.passengerName
    case PassengerSurname => form.passengerSurname
    case PassengerEmail => form.passengerEmail
    case SeatNumber => form.seatNumber
  }

  /** The input handler: `{...prev, [name]: value}`. Only the named field changes. */
  function SetField(form: BookingForm, field: Field, value: string): (r: BookingForm)
    ensures Get(r, field) == value
    ensures forall other :: other != field ==> Get(r, other) == Get(form, other)
  {
    match field
    case PassengerName => form.(passengerName := value)
    case PassengerSurname => form.(passengerSurname := value)
    case PassengerEmail => form.(passengerEmail := value)
    case SeatNumber => form.(seatNumber := value)
  }

  /** The JSON body posted to the ticket endpoint: the form plus the loaded flight's id
      (`flight?.flight_id`, absent when no flight is loaded). */
  datatype BookingPayload = BookingPayload(
    passengerName: string,
    passengerSurname: string,
    passengerEmail: string,
    seatNumber: string,
    flightId: Option<FlightId>)

  /** `handleBooking`: no request unless the name, surname and email are all filled in. */
  function HandleBooking(form: BookingForm, loaded: Option<FlightId>): (r: Option<BookingPayload>)
    ensures r.None? <==> form.passengerName == "" || form.passengerSurname == "" || form.passengerEmail == ""
    ensures r.Some? ==> && r.value.passengerName == form.passengerName
                        && r.value.passengerSurname == form.passengerSurname
                        && r.value.passengerEmail == form.passengerEmail
                        && r.value.seatNumber == form.seatNumber
                        && r.value.flightId == loaded
  {
    if form.passengerName == "" || form.passengerSurname == "" || form.passengerEmail == "" then None
    else Some(BookingPayload(form.passengerName, form.passengerSurname, form.passengerEmail, form.seatNumber, loaded))
  }

  /** The seat number never decides whether a request is made: an empty seat does not block. */
  lemma {:induction false} SeatNeverBlocks(form: BookingForm, seat: string, loaded: Option<FlightId>)
    ensures HandleBooking(SetField(form, SeatNumber, seat), loaded).Some? == HandleBooking(form, loaded).Some?
  {
    var edited := SetField(form, SeatNumber, seat);
    assert Get(edited, PassengerName) == Get(form, PassengerName);
    assert Get(edited, PassengerSurname) == Get(form, PassengerSurname);
    assert Get(edited, PassengerEmail) == Get(form, PassengerEmail);
  }

  /** The booking form opens empty, so booking straight away sends nothing. */
  lemma EmptyBookingSendsNothing(loaded: Option<FlightId>)
    ensures HandleBooking(EmptyBooking, loaded).None?
  {
  }

  const MillisPerMinute: int := 60_000

  /** `Math.round((arrival - departure) / 60000)`: the flight time rounded to the nearest minute,
      a half minute rounding up. */
  function DurationMinutes(departure: Timestamp, arrival: Timestamp): (d: int)
    ensures arrival - departure - MillisPerMinute / 2 < MillisPerMinute * d <= arrival - departure + MillisPerMinute / 2
  {
    (arrival - departure + MillisPerMinute / 2) / MillisPerMinute
  }

  /** JavaScript's `%`: the remainder takes the sign of the dividend. */
  function JsRemainder(a: int, b: int): int
    requires b > 0
  {
    if a >= 0 then a % b else -((-a) % b)
  }

  /** `hours = Math.floor(duration / 60)`, `minutes = duration % 60`. */
  function SplitDuration(duration: int): (hm: (int, int))
    ensures duration >= 0 ==> hm.0 * 60 + hm.1 == duration && 0 <= hm.1 < 60
    ensures duration < 0 ==> -60 < hm.1 <= 0
    ensures duration < 0 && hm.1 == 0 ==> hm.0 * 60 == duration
    ensures duration < 0 && hm.1 != 0 ==> hm.0 * 60 + hm.1 == duration - 60
  {
    (duration / 60, JsRemainder(duration, 60))
  }
}
