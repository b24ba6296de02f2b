/** The records exchanged with the fare and airport service and the search
    form state of the client (src/services/types.ts). Prices are integer
    minor units; calendar days on the wire are `yyyy-MM-dd` strings. */
module Types {
  import opened Optional
  import opened Calendar

  datatype Airport = Airport(code: string, name: string, country: string, timezone: string)

  /** A destination as the destinations endpoint lists it (no time zone). */
  datatype Destination = Destination(code: string, name: string, country: string)

  datatype Price = Price(value: int, currencyCode: string)

  /** One day of a fare series (`fares[i]` of `CheapestFarePerDay` and the
      elements of `DailyFareRange[]`): `day` is the ISO day string. */
  datatype DayFare = DayFare(
    day: string,
    departureDate: Option<string>,
    arrivalDate: Option<string>,
    price: Option<Price>,
    soldOut: bool,
    unavailable: bool)

  /** One direction of a cheapest-per-day answer; `minFare` and `maxFare`
      are computed by the server and taken on trust. */
  datatype FareSeries = FareSeries(fares: seq<DayFare>, minFare: Option<DayFare>, maxFare: Option<DayFare>)

  datatype CheapestFarePerDay = CheapestFarePerDay(outbound: FareSeries, inbound: Option<FareSeries>)

  /** One leg of a round-trip option; the legs always carry a price. */
  datatype Leg = Leg(
    day: string,
    departureDate: string,
    arrivalDate: string,
    price: Price,
    soldOut: bool,
    unavailable: bool)

  /** `RoundTripFareOption`: `totalPrice` is the server's figure. */
  datatype RoundTripOption = RoundTripOption(departure: Leg, ret: Leg, totalPrice: Option<Price>)

  datatype FareSearchParams = FareSearchParams(
    from: string, to: string, startDate: string, endDate: Option<string>, currency: Option<string>)

  datatype DailyRangeParams = DailyRangeParams(
    from: string, to: string, startDate: string, endDate: string, currency: Option<string>)

  datatype RoundTripParams = RoundTripParams(
    from: string, to: string, outboundDate: string, inboundDate: string, currency: Option<string>)

  datatype TripType = OneWay | RoundTrip | DailyFares

  /** The search form state. Dates are calendar days. */
  datatype SearchForm = SearchForm(
    origin: Option<Airport>,
    destination: Option<Airport>,
    departureDate: Option<Date>,
    returnDate: Option<Date>,
    tripType: TripType,
    passengers: int,
    currency: string,
    startDate: Option<Date>,
    endDate: Option<Date>)

  /** Every date the form holds is a day of the calendar, as a `Date`
      object built from a picker or a parsed day always is. */
  predicate FormDatesValid(f: SearchForm) {
    (f.departureDate.Some? ==> ValidDate(f.departureDate.value))
    && (f.returnDate.Some? ==> ValidDate(f.returnDate.value))
    && (f.startDate.Some? ==> ValidDate(f.startDate.value))
    && (f.endDate.Some? ==> ValidDate(f.endDate.value))
  }

  /** The form the home page starts with. */
  function InitialForm(): (f: SearchForm)
    ensures f.origin.None? && f.destination.None?
    ensures f.departureDate.None? && f.returnDate.None?
    ensures f.tripType == OneWay && f.passengers == 1 && f.currency == "EUR"
    ensures FormDatesValid(f)
  {
    SearchForm(None, None, None, None, OneWay, 1, "EUR", None, None)
  }
}
