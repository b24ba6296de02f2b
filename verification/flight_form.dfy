/** The search form's handlers (src/components/fare/FlightSearchForm.tsx):
    swapping the airports, editing one field, switching the trip type, and
    the condition that enables the search button. Each handler returns the new
    form the parent receives. */
module FlightForm {
  import opened Optional
  import opened Calendar
  import opened Types
  import opened FareResults

  /** `handleSwapAirports`. */
  function Swap(f: SearchForm): (r: SearchForm)
    ensures r.origin == f.destination && r.destination == f.origin
    ensures r.(origin := f.origin, destination := f.destination) == f
  {
    f.(origin := f.destination, destination := f.origin)
  }

  /** Swapping twice restores the form. */
  lemma SwapInvolutive(f: SearchForm)
    ensures Swap(Swap(f)) == f
  {
  }

  /** `isFormValid`: two airports with different codes, a departure day,
      and a return day unless the trip is one-way. The order of the two
      days is not checked. */
  predicate IsFormValid(f: SearchForm) {
    f.origin.Some? && f.destination.Some?
    && f.origin.value.code != f.destination.value.code
    && f.departureDate.Some?
    && (f.tripType == OneWay || f.returnDate.Some?)
  }

  /** Swapping keeps a valid form valid and an invalid one invalid. */
  lemma SwapPreservesValidity(f: SearchForm)
    ensures IsFormValid(Swap(f)) <==> IsFormValid(f)
  {
  }

  /** A form the button accepts is one the results panel shows results for;
      the panel does not compare the airport codes, so the converse fails. */
  lemma ValidFormShowsResults(f: SearchForm)
    ensures IsFormValid(f) ==> CanShowResults(f)
    ensures var a := Airport("DUB", "Dublin", "Ireland", "Europe/Dublin");
      var g := InitialForm().(origin := Some(a), destination := Some(a), departureDate := Some(Date(2024, 3, 10)));
      CanShowResults(g) && !IsFormValid(g)
  {
  }

  /** The button accepts a round trip that returns before it leaves. */
  lemma ReturnBeforeDepartureAccepted()
    ensures var g := InitialForm().(
        origin := Some(Airport("DUB", "Dublin", "Ireland", "Europe/Dublin")),
        destination := Some(Airport("BCN", "Barcelona", "Spain", "Europe/Madrid")),
        tripType := RoundTrip,
        departureDate := Some(Date(2024, 3, 10)),
        returnDate := Some(Date(2024, 3, 1)));
      IsFormValid(g) && Before(g.returnDate.value, g.departureDate.value)
  {
  }

  /** The fields the form edits, each with its new value. */
  datatype FieldEdit =
    | SetOrigin(origin: Option<Airport>)
    | SetDestination(destination: Option<Airport>)
    | SetDepartureDate(departureDate: Option<Date>)
    | SetReturnDate(returnDate: Option<Date>)
    | SetPassengers(passengers: int)
    | SetCurrency(currency: string)

  /** `handleFieldChange`: sets the field; a different origin also clears
      the destination, so that it is chosen again from the new origin's
      destinations. */
  function ChangeField(f: SearchForm, e: FieldEdit): (r: SearchForm)
    ensures e.SetOrigin? ==> r.origin == e.origin
    ensures e.SetOrigin? && e.origin != f.origin ==> r.destination.None?
    ensures e.SetOrigin? && e.origin == f.origin ==> r == f
    ensures e.SetOrigin? ==> r.(origin := f.origin, destination := f.destination) == f
    ensures !e.SetOrigin? ==> r.origin == f.origin
  {
    match e
    case SetOrigin(o) =>
      var g := f.(origin := o);
      if o != f.origin then g.(destination := None) else g
    case SetDestination(d) => f.(destination := d)
    case SetDepartureDate(d) => f.(departureDate := d)
    case SetReturnDate(d) => f.(returnDate := d)
    case SetPassengers(n) => f.(passengers := n)
    case SetCurrency(c) => f.(currency := c)
  }

  /** The name of the field an edit sets (`field` of the handler). */
  function FieldName(e: FieldEdit): string {
    match e
    case SetOrigin(_) => "origin"
    case SetDestination(_) => "destination"
    case SetDepartureDate(_) => "departureDate"
    case SetReturnDate(_) => "returnDate"
    case SetPassengers(_) => "passengers"
    case SetCurrency(_) => "currency"
  }

  /** The value of one field, in the shape an edit carries. */
  function FieldOf(f: SearchForm, e: FieldEdit): FieldEdit {
    match e
    case SetOrigin(_) => SetOrigin(f.origin)
    case SetDestination(_) => SetDestination(f.destination)
    case SetDepartureDate(_) => SetDepartureDate(f.departureDate)
    case SetReturnDate(_) => SetReturnDate(f.returnDate)
    case SetPassengers(_) => SetPassengers(f.passengers)
    case SetCurrency(_) => SetCurrency(f.currency)
  }

  /** Editing then reading the field back gives the edit; an edit other
      than the origin's leaves every other field as it was, and putting the
      old value back restores the form. */
  lemma ChangeFieldFrame(f: SearchForm, e: FieldEdit, other: FieldEdit)
    ensures FieldOf(ChangeField(f, e), e) == e
    ensures !e.SetOrigin? && FieldName(other) != FieldName(e) ==> FieldOf(ChangeField(f, e), other) == FieldOf(f, other)
    ensures !e.SetOrigin? ==> ChangeField(ChangeField(f, e), FieldOf(f, e)) == f
  {
  }

  /** Choosing a new origin always leaves the form incomplete. */
  lemma NewOriginInvalidates(f: SearchForm, o: Option<Airport>)
    requires o != f.origin
    ensures !IsFormValid(ChangeField(f, SetOrigin(o)))
  {
  }

  /** A date input's text: empty clears the day, otherwise the day it
      names. */
  function DateFromInput(text: string): (r: Option<Date>)
    ensures text == "" ==> r.None?
    ensures r.Some? ==> ValidDate(r.value) && IsoString(r.value) == text
  {
    if text == "" then None
    else
      var d := ParseIso(text);
      if d.Some? then
        IsoStringOfParse(text);
        d
      else d
  }

  /** The input shows a day as `yyyy-MM-dd`; reading that text back gives
      the same day. */
  lemma DateInputRoundTrip(d: Date)
    requires ValidDate(d) && d.year < 10000
    ensures DateFromInput(IsoString(d)) == Some(d)
  {
    ParseIsoString(d);
  }

  /** `handleTripTypeChange`: one-way drops the return day, round trip
      keeps it. */
  function ChangeTripType(f: SearchForm, t: TripType): (r: SearchForm)
    requires t == OneWay || t == RoundTrip
    ensures r.tripType == t
    ensures t == OneWay ==> r.returnDate.None?
    ensures t == RoundTrip ==> r.returnDate == f.returnDate
    ensures r.(tripType := f.tripType, returnDate := f.returnDate) == f
  {
    f.(tripType := t, returnDate := if t == OneWay then None else f.returnDate)
  }

  /** Switching to one-way and back loses the return day: the round trip is
      incomplete again. */
  lemma OneWayRoundTripForgetsReturn(f: SearchForm)
    ensures ChangeTripType(ChangeTripType(f, OneWay), RoundTrip).returnDate.None?
    ensures !IsFormValid(ChangeTripType(ChangeTripType(f, OneWay), RoundTrip))
  {
  }

  /** Validity after a trip-type switch: one-way needs no return day. */
  lemma TripTypeValidity(f: SearchForm)
    ensures IsFormValid(ChangeTripType(f, OneWay)) <==>
      f.origin.Some? && f.destination.Some? && f.origin.value.code != f.destination.value.code
      && f.departureDate.Some?
    ensures IsFormValid(f) && f.tripType == RoundTrip ==> IsFormValid(ChangeTripType(f, OneWay))
  {
  }
}
