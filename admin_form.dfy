/** The admin flight form, of which the repository holds two copies that differ only in the
    language of their messages (Turkish in the top-level pages, English in the front-end
    pages): the record of six text fields, its field handlers, the guard chain that validates
    it and the request a valid form submits. */
module AdminFlightForm {
  import opened Records

  /** A JavaScript number as the checks see it: an integer, or NaN when parsing failed. Every
      ordering comparison involving NaN is false. */
  datatype Num = Finite(v: int) | NaN

  predicate Less(a: Num, b: Num) {
    a.Finite? && b.Finite? && a.v < b.v
  }

  predicate AtMost(a: Num, b: Num) {
    a.Finite? && b.Finite? && a.v <= b.v
  }

  /** What the browser supplies: `new Date(text).getTime()`, `parseInt(text)` and the current
      time `new Date()`. */
  datatype Browser = Browser(parseDate: string -> Num, parseInt: string -> Num, now: int)

  /** The form's state: every field holds the text the admin typed or selected. */
  datatype FlightForm = FlightForm(
    fromCity: string,
    toCity: string,
    departureTime: string,
    arrivalTime: string,
    price: string,
    seatsTotal: string)

  const EmptyForm := FlightForm("", "", "", "", "", "")

  datatype Field = FromCity | ToCity | DepartureTime | ArrivalTime | Price | SeatsTotal

  function Get(form: FlightForm, field: Field): string {
    match field
    case FromCity => form.fromCity
    case ToCity => form.toCity
    case DepartureTime => form.departureTime
    case ArrivalTime => form.arrivalTime
    case Price => form.price
    case SeatsTotal => form.seatsTotal
  }

  /** The input and select handlers: `{...prev, [name]: value}`. Only the named field changes. */
  function SetField(form: FlightForm, field: Field, value: string): (r: FlightForm)
    ensures Get(r, field) == value
    ensures forall other :: other != field ==> Get(r, other) == Get(form, other)
  {
    match field
    case FromCity => form.(fromCity := value)
    case ToCity => form.(toCity := value)
    case DepartureTime => form.(departureTime := value)
    case ArrivalTime => form.(arrivalTime := value)
    case Price => form.(price := value)
    case SeatsTotal => form.(seatsTotal := value)
  }

  /** The reason a form is refused; each one has its own message. */
  datatype FormError =
    | MissingField
    | SameCity
    | ArrivalNotAfterDeparture
    | DepartureInPast
    | NonPositivePrice
    | NonPositiveSeats

  /** No field is left empty (every one is truthy). */
  predicate AllFilled(form: FlightForm) {
    && form.fromCity != "" && form.toCity != "" && form.departureTime != ""
    && form.arrivalTime != "" && form.price != "" && form.seatsTotal != ""
  }

  /** The four checks on parsed values; each is false when a value it compares is NaN. */
  predicate ArrivalNotAfter(form: FlightForm, env: Browser) {
    AtMost(env.parseDate(form.arrivalTime), env.parseDate(form.departureTime))
  }

  predicate DepartsBeforeNow(form: FlightForm, env: Browser) {
    Less(env.parseDate(form.departureTime), Finite(env.now))
  }

  predicate PriceNotPositive(form: FlightForm, env: Browser) {
    AtMost(env.parseInt(form.price), Finite(0))
  }

  predicate SeatsNotPositive(form: FlightForm, env: Browser) {
    AtMost(env.parseInt(form.seatsTotal), Finite(0))
  }

  /** The guard chain of `validateForm`. The checks run in a fixed order and the first one that
      fails names the error; `Pass` is the `true` the source returns. */
  function ValidateForm(form: FlightForm, env: Browser): (r: Outcome<FormError>)
    // Each check decides the outcome exactly when every earlier check has passed.
    ensures r == Fail(MissingField) <==> !AllFilled(form)
    ensures AllFilled(form) ==> (r == Fail(SameCity) <==> form.fromCity == form.toCity)
    ensures AllFilled(form) && form.fromCity != form.toCity ==>
      (r == Fail(ArrivalNotAfterDeparture) <==> ArrivalNotAfter(form, env))
    ensures AllFilled(form) && form.fromCity != form.toCity && !ArrivalNotAfter(form, env) ==>
      (r == Fail(DepartureInPast) <==> DepartsBeforeNow(form, env))
    ensures AllFilled(form) && form.fromCity != form.toCity && !ArrivalNotAfter(form, env)
            && !DepartsBeforeNow(form, env) ==>
      (r == Fail(NonPositivePrice) <==> PriceNotPositive(form, env))
    ensures AllFilled(form) && form.fromCity != form.toCity && !ArrivalNotAfter(form, env)
            && !DepartsBeforeNow(form, env) && !PriceNotPositive(form, env) ==>
      (r == Fail(NonPositiveSeats) <==> SeatsNotPositive(form, env))
    // A form is accepted exactly when no check fails.
    ensures r == Pass <==>
      && AllFilled(form) && form.fromCity != form.toCity
      && !ArrivalNotAfter(form, env) && !DepartsBeforeNow(form, env)
      && !PriceNotPositive(form, env) && !SeatsNotPositive(form, env)
  {
    var departure := env.parseDate(form.departureTime);
    var arrival := env.parseDate(form.arrivalTime);
    if form.fromCity == "" || form.toCity == "" || form.departureTime == "" || form.arrivalTime == ""
       || form.price == "" || form.seatsTotal == "" then
      Fail(MissingField)
    else if form.fromCity == form.toCity then
      Fail(SameCity)
    else if AtMost(arrival, departure) then
      Fail(ArrivalNotAfterDeparture)
    else if Less(departure, Finite(env.now)) then
      Fail(DepartureInPast)
    else if AtMost(env.parseInt(form.price), Finite(0)) then
      Fail(NonPositivePrice)
    else if AtMost(env.parseInt(form.seatsTotal), Finite(0)) then
      Fail(NonPositiveSeats)
    else
      Pass
  }

  /** Every field parses and satisfies its rule: filled in, distinct cities, arrival strictly
      after departure, departure not before now, positive price and seat count. */
  predicate WellFormed(form: FlightForm, env: Browser) {
    var departure := env.parseDate(form.departureTime);
    var arrival := env.parseDate(form.arrivalTime);
    var price := env.parseInt(form.price);
    var seats := env.parseInt(form.seatsTotal);
    && AllFilled(form)
    && form.fromCity != form.toCity
    && departure.Finite? && arrival.Finite? && price.Finite? && seats.Finite?
    && arrival.v > departure.v
    && departure.v >= env.now
    && price.v > 0
    && seats.v > 0
  }

  /** A well-formed form is accepted, and an accepted form whose numbers all parse is
      well-formed. */
  lemma {:induction false} AcceptsExactlyWellFormed(form: FlightForm, env: Browser)
    ensures WellFormed(form, env) ==> ValidateForm(form, env) == Pass
    ensures ValidateForm(form, env) == Pass
            && env.parseDate(form.departureTime).Finite? && env.parseDate(form.arrivalTime).Finite?
            && env.parseInt(form.price).Finite? && env.parseInt(form.seatsTotal).Finite?
            ==> WellFormed(form, env)
  {
  }

  /** A departure exactly at the current time is allowed: the past check is strict. */
  lemma {:induction false} DepartureAtNowAllowed(form: FlightForm, env: Browser)
    requires AllFilled(form) && form.fromCity != form.toCity
    requires env.parseDate(form.departureTime) == Finite(env.now)
    requires env.parseDate(form.arrivalTime) == Finite(env.now + 1)
    requires env.parseInt(form.price) == Finite(1) && env.parseInt(form.seatsTotal) == Finite(1)
    ensures ValidateForm(form, env) == Pass
  {
  }

  /** A price or seat count that does not parse (NaN) slips past the `<= 0` checks. */
  lemma {:induction false} UnparsedNumbersSlipPast(form: FlightForm, env: Browser)
    requires AllFilled(form) && form.fromCity != form.toCity
    requires !AtMost(env.parseDate(form.arrivalTime), env.parseDate(form.departureTime))
    requires !Less(env.parseDate(form.departureTime), Finite(env.now))
    requires env.parseInt(form.price) == NaN && env.parseInt(form.seatsTotal) == NaN
    ensures ValidateForm(form, env) == Pass
  {
  }

  /** The page opens with every field empty, so submitting it untouched is refused as incomplete
      and sends nothing. */
  lemma EmptyFormRefused(routeId: Option<string>, env: Browser)
    ensures ValidateForm(EmptyForm, env) == Fail(MissingField)
    ensures HandleSubmit(EmptyForm, routeId, env).None?
  {
  }

  datatype Language = Turkish | English

  /** The toast each refusal shows, in the language of the copy. */
  function Message(lang: Language, e: FormError): string {
    match lang
    case Turkish => (
      match e
      case MissingField => "Lütfen tüm alanları doldurun"
      case SameCity => "Kalkış ve varış şehirleri aynı olamaz"
      case ArrivalNotAfterDeparture => "Varış zamanı kalkış zamanından sonra olmalıdır"
      case DepartureInPast => "Kalkış zamanı gelecekte olmalıdır"
      case NonPositivePrice => "Fiyat 0'dan büyük olmalıdır"
      case NonPositiveSeats => "Koltuk sayısı 0'dan büyük olmalıdır")
    case English => (
      match e
      case MissingField => "Please fill out all fields"
      case SameCity => "Departure and arrival cities must be different"
      case ArrivalNotAfterDeparture => "Arrival time must be after departure time"
      case DepartureInPast => "Departure time must be in the future"
      case NonPositivePrice => "Price must be greater than 0"
      case NonPositiveSeats => "Seat count must be greater than 0")
  }

  /** Distinct refusals show distinct messages in either copy, so the message names the first
      failing check. */
  lemma MessagesDistinct(lang: Language, e1: FormError, e2: FormError)
    requires e1 != e2
    ensures Message(lang, e1) != Message(lang, e2)
  {
  }

  const FlightsUrl: string := "http://localhost:3001/api/flights"

  datatype HttpMethod = Post | Put

  /** The JSON body of a create or update: the texts as typed, the numbers as `parseInt` reads
      them. */
  datatype FlightBody = FlightBody(
    fromCity: string,
    toCity: string,
    departureTime: string,
    arrivalTime: string,
    price: Num,
    seatsTotal: Num)

  datatype Request = Request(verb: HttpMethod, url: string, body: FlightBody)

  /** The page edits a flight exactly when its route carries a non-empty id (`!!id`). */
  predicate IsEdit(routeId: Option<string>) {
    routeId.Some? && routeId.value != ""
  }

  /** `handleSubmit`: nothing is sent unless the form validates; an edit PUTs to the flight's
      own URL, a creation POSTs to the collection. */
  function HandleSubmit(form: FlightForm, routeId: Option<string>, env: Browser): (r: Option<Request>)
    ensures r.Some? <==> ValidateForm(form, env) == Pass
    ensures r.Some? ==> (r.value.verb == Put <==> IsEdit(routeId))
    ensures r.Some? && IsEdit(routeId) ==> r.value.url == FlightsUrl + "/" + routeId.value
    ensures r.Some? && !IsEdit(routeId) ==> r.value.url == FlightsUrl
    ensures r.Some? ==> && r.value.body.fromCity == form.fromCity && r.value.body.toCity == form.toCity
                        && r.value.body.departureTime == form.departureTime
                        && r.value.body.arrivalTime == form.arrivalTime
                        && r.value.body.price == env.parseInt(form.price)
                        && r.value.body.seatsTotal == env.parseInt(form.seatsTotal)
  {
    if ValidateForm(form, env).Fail? then None
    else
      var body := FlightBody(form.fromCity, form.toCity, form.departureTime, form.arrivalTime,
                             env.parseInt(form.price), env.parseInt(form.seatsTotal));
      if IsEdit(routeId) then Some(Request(Put, FlightsUrl + "/" + routeId.value, body))
      else Some(Request(Post, FlightsUrl, body))
  }
}
