/** The results panel (src/components/fare/FareSearchResults.tsx): what it
    shows for a search form and the outcome of the fare search, the fare it
    picks for the requested day, the cheaper alternatives it offers when
    that day has no fare, and the total price line. */
module FareResults {
  import opened Optional
  import opened Seqs
  import opened Calendar
  import opened Types
  import opened PriceSort
  import opened FareQueries
  import FareCard

  /** The fare search the panel starts for a form: airport codes and days
      rendered `yyyy-MM-dd`, the form's currency. */
  function SearchInputOf(form: SearchForm): (i: FareSearchInput)
    requires FormDatesValid(form)
    ensures i.tripType == form.tripType && i.currency == Some(form.currency)
    ensures i.from.Some? <==> form.origin.Some?
    ensures form.origin.Some? ==> i.from == Some(form.origin.value.code)
    ensures i.to.Some? <==> form.destination.Some?
    ensures form.destination.Some? ==> i.to == Some(form.destination.value.code)
    ensures i.departureDate.Some? <==> form.departureDate.Some?
    ensures form.departureDate.Some? ==> i.departureDate == Some(IsoString(form.departureDate.value))
    ensures i.returnDate.Some? <==> form.returnDate.Some?
    ensures form.returnDate.Some? ==> i.returnDate == Some(IsoString(form.returnDate.value))
  {
    FareSearchInput(
      if form.origin.Some? then Some(form.origin.value.code) else None,
      if form.destination.Some? then Some(form.destination.value.code) else None,
      if form.departureDate.Some? then Some(IsoString(form.departureDate.value)) else None,
      if form.returnDate.Some? then Some(IsoString(form.returnDate.value)) else None,
      form.tripType,
      Some(form.currency))
  }

  /** `canShowResults`: both airports, a departure day, and a return day
      unless the trip is one-way. */
  predicate CanShowResults(form: SearchForm) {
    form.origin.Some? && form.destination.Some? && form.departureDate.Some?
    && (form.tripType == OneWay || form.returnDate.Some?)
  }

  /** A complete form with non-empty airport codes starts exactly the query
      its trip type needs. */
  lemma CompleteFormStartsQuery(form: SearchForm)
    requires FormDatesValid(form) && CanShowResults(form)
    requires form.origin.value.code != "" && form.destination.value.code != ""
    ensures form.tripType == OneWay ==> OneWayQueryOf(SearchInputOf(form)).enabled
    ensures form.tripType == RoundTrip ==> RoundTripQueryOf(SearchInputOf(form)).enabled
    ensures form.tripType == DailyFares ==>
      !OneWayQueryOf(SearchInputOf(form)).enabled && !RoundTripQueryOf(SearchInputOf(form)).enabled
  {
    var d := form.departureDate.value;
    assert IsoString(d) != "";
    if form.returnDate.Some? {
      assert IsoString(form.returnDate.value) != "";
    }
  }

  /** A fare that can be booked: not unavailable and priced. */
  predicate Bookable(f: DayFare) {
    !f.unavailable && f.price.Some?
  }

  /** The panel and the calendar card disagree on sold-out fares: a card
      offers exactly the bookable fares that are not sold out, so a sold-out
      fare the panel shows for its day is one the card refuses. */
  lemma CardStricterThanPanel(f: DayFare, d: Date)
    requires ValidDate(d)
    ensures FareCard.HasValidFare(Some(f)) <==> Bookable(f) && !f.soldOut
    ensures Bookable(f) && f.soldOut && f.day == IsoString(d) ==>
      FareForDate([f], d) == Some(f) && !FareCard.HasValidFare(Some(f))
  {
    if Bookable(f) && f.day == IsoString(d) {
      FareForDateIsFirst([f], d, 0);
    }
  }

  /** The bookable fare of a given day. */
  function BookableOn(day: string): DayFare -> bool {
    (f: DayFare) => f.day == day && Bookable(f)
  }

  /** `getFareForDate`: the first bookable fare of the target day. */
  function FareForDate(fares: seq<DayFare>, target: Date): (r: Option<DayFare>)
    requires ValidDate(target)
    ensures r.Some? ==> r.value in fares && r.value.day == IsoString(target) && Bookable(r.value)
    ensures r.None? <==> forall f :: f in fares ==> !(f.day == IsoString(target) && Bookable(f))
  {
    var r := Find(fares, BookableOn(IsoString(target)));
    assert r.Some? ==> r.value in fares && BookableOn(IsoString(target))(r.value) by {
      if r.Some? {
        FindFound(fares, BookableOn(IsoString(target)));
      }
    }
    r
  }

  /** Of several bookable fares for the day, the earliest listed is taken. */
  lemma FareForDateIsFirst(fares: seq<DayFare>, target: Date, i: int)
    requires ValidDate(target)
    requires 0 <= i < |fares| && fares[i].day == IsoString(target) && Bookable(fares[i])
    requires forall j :: 0 <= j < i ==> !(fares[j].day == IsoString(target) && Bookable(fares[j]))
    ensures FareForDate(fares, target) == Some(fares[i])
  {
    var p := BookableOn(IsoString(target));
    assert p(fares[i]);
    var r := Find(fares, p);
    assert r.Some?;
    var k :| FirstMatchAt(fares, p, k) && fares[k] == r.value;
    assert forall j :: 0 <= j < |fares| ==>
      (p(fares[j]) <==> fares[j].day == IsoString(target) && Bookable(fares[j]));
    assert k == i;
  }

  /** At most the first `n` elements. */
  function Take<T>(s: seq<T>, n: nat): (r: seq<T>)
    ensures |r| == Min(n, |s|)
    ensures forall i :: 0 <= i < |r| ==> r[i] == s[i]
  {
    if |s| <= n then s else s[..n]
  }

  /** The alternatives list: the bookable fares, cheapest first (ties in
      listing order), cut to three. */
  function Alternatives(fares: seq<DayFare>): (r: seq<DayFare>)
    ensures |r| == Min(3, |Filter(fares, Bookable)|)
    ensures SortedByPrice(r)
    ensures r == SortByPrice(Filter(fares, Bookable))[..|r|]
    ensures multiset(r) <= multiset(fares)
  {
    var sorted := SortByPrice(Filter(fares, Bookable));
    var r := Take(sorted, 3);
    assert r == sorted[..|r|];
    PrefixSorted(sorted, |r|);
    assert sorted == r + sorted[|r|..];
    FilterMultiset(fares, Bookable);
    r
  }

  /** The alternatives are the first three of any order of the bookable
      fares that is ascending by price and keeps the listing order among
      fares of one price: such an order is unique, so the choice of the
      fares and their order is fixed. */
  lemma AlternativesFromStableOrder(fares: seq<DayFare>, t: seq<DayFare>)
    requires SortedByPrice(t)
    requires forall k :: WithKey(t, k) == WithKey(Filter(fares, Bookable), k)
    ensures Alternatives(fares) == t[..Min(3, |t|)]
  {
    var b := Filter(fares, Bookable);
    forall k ensures WithKey(SortByPrice(b), k) == WithKey(t, k) {
      SortIsStable(b, k);
    }
    StableSortUnique(SortByPrice(b), t);
  }

  /** Among bookable fares of one price the alternatives are the first
      three in listing order. */
  lemma AlternativesOfOnePrice(fares: seq<DayFare>)
    requires forall i :: 0 <= i < |fares| ==> Bookable(fares[i])
    requires forall i :: 0 <= i < |fares| ==> PriceKey(fares[i]) == PriceKey(fares[0])
    ensures Alternatives(fares) == fares[..Min(3, |fares|)]
  {
    FilterAll(fares, Bookable);
    SortedIndices(fares);
    AlternativesFromStableOrder(fares, fares);
  }

  /** A prefix of a sorted sequence is sorted. */
  lemma PrefixSorted(s: seq<DayFare>, n: nat)
    requires SortedByPrice(s) && n <= |s|
    ensures SortedByPrice(s[..n])
  {
    SortedIndices(s);
    SortedIndices(s[..n]);
  }

  /** Every alternative is a bookable fare of the series. */
  lemma AlternativesBookable(fares: seq<DayFare>, x: DayFare)
    requires x in Alternatives(fares)
    ensures x in fares && Bookable(x)
  {
    var sorted := SortByPrice(Filter(fares, Bookable));
    assert x in sorted;
    assert x in multiset(Filter(fares, Bookable));
    FilterMembers(fares, Bookable, x);
  }

  /** The alternatives are the cheapest: a bookable fare left out costs at
      least as much as every fare offered. */
  lemma AlternativesCheapest(fares: seq<DayFare>, x: DayFare, y: DayFare)
    requires x in Alternatives(fares)
    requires y in fares && Bookable(y) && y !in Alternatives(fares)
    ensures PriceKey(x) <= PriceKey(y)
  {
    var sorted := SortByPrice(Filter(fares, Bookable));
    var r := Alternatives(fares);
    FilterMembers(fares, Bookable, y);
    assert y in multiset(sorted);
    var j :| 0 <= j < |sorted| && sorted[j] == y;
    var i :| 0 <= i < |r| && r[i] == x;
    assert r == sorted[..|r|];
    assert j >= |r|;
    SortedIndices(sorted);
    assert sorted[i] == x;
  }

  /** Alternatives are offered exactly when some fare of the series is
      bookable. */
  lemma AlternativesEmptyIff(fares: seq<DayFare>)
    ensures Alternatives(fares) == [] <==> forall f :: f in fares ==> !Bookable(f)
  {
    if exists f :: f in fares && Bookable(f) {
      var f :| f in fares && Bookable(f);
      FilterMembers(fares, Bookable, f);
    } else {
      FilterNone(fares, Bookable);
    }
  }

  /** When the requested day has no bookable fare, none of the alternatives
      falls on that day. */
  lemma AlternativesAvoidRequestedDay(fares: seq<DayFare>, target: Date, x: DayFare)
    requires ValidDate(target) && FareForDate(fares, target).None?
    requires x in Alternatives(fares)
    ensures x.day != IsoString(target)
  {
    AlternativesBookable(fares, x);
  }

  /** The round-trip option's headline: its number, the best-price mark,
      and the sum of the two legs in the outbound leg's currency. */
  datatype OptionHeading = OptionHeading(number: int, best: bool, total: Price)

  function Heading(index: nat, o: RoundTripOption): OptionHeading {
    OptionHeading(index + 1, index == 0,
                  Price(o.departure.price.value + o.ret.price.value, o.departure.price.currencyCode))
  }

  /** The headings of a list of options. */
  function Headings(options: seq<RoundTripOption>): (r: seq<OptionHeading>)
    ensures |r| == |options|
    ensures forall i :: 0 <= i < |r| ==> r[i] == Heading(i, options[i])
  {
    seq(|options|, i requires 0 <= i < |options| => Heading(i, options[i]))
  }

  /** Exactly the first option carries the best-price mark, and the
      numbering runs from 1 without gaps. */
  lemma HeadingsNumbering(options: seq<RoundTripOption>)
    requires |options| > 0
    ensures forall i :: 0 <= i < |options| ==> (Headings(options)[i].best <==> i == 0)
    ensures forall i :: 0 <= i < |options| ==> Headings(options)[i].number == i + 1
  {
  }

  /** The headline adds the two amounts and keeps only the outbound
      currency: legs priced in different currencies are summed as they
      stand. */
  lemma HeadingIgnoresReturnCurrency()
    ensures var o := RoundTripOption(
        Leg("2024-03-10", "2024-03-10T08:00", "2024-03-10T10:00", Price(5000, "EUR"), false, false),
        Leg("2024-03-17", "2024-03-17T08:00", "2024-03-17T10:00", Price(4000, "GBP"), false, false),
        None);
      Heading(0, o).total == Price(9000, "EUR")
  {
  }

  /** An amount with its currency code, as `formatCurrency` receives it. */
  datatype Money = Money(value: int, currency: string)

  /** What the fare card shows. */
  datatype MainView =
    | Searching
    | Failed(message: string)
    | RoundTripList(headings: seq<OptionHeading>)
    | Unavailable(alternatives: seq<DayFare>)
    | FareShown(fare: DayFare)
    | NothingShown

  /** The whole panel: nothing without both airports, a prompt while the
      form is incomplete, otherwise the fare card and the total line. */
  datatype ResultsPanel =
    | Hidden
    | Incomplete
    | Shown(main: MainView, total: Option<Money>)

  /** The error text: the message, or a generic hint when it is empty. */
  function ErrorText(message: string): (r: string)
    ensures r != ""
    ensures message != "" ==> r == message
  {
    if message != "" then message else "Please try different dates or destinations"
  }

  /** The fare card once the search has produced data. */
  function MainViewOf(form: SearchForm, data: FareData): (v: MainView)
    requires FormDatesValid(form) && CanShowResults(form)
    ensures !v.Searching? && !v.Failed?
    ensures v.RoundTripList? <==> form.tripType == RoundTrip && data.RoundTripFares? && |data.options| > 0
    ensures v.RoundTripList? ==> v.headings == Headings(data.options)
    ensures v.Unavailable? <==>
      form.tripType == OneWay && data.OneWayFares?
      && FareForDate(data.fares.outbound.fares, form.departureDate.value).None?
    ensures v.Unavailable? ==> v.alternatives == Alternatives(data.fares.outbound.fares)
    ensures v.FareShown? <==>
      form.tripType == OneWay && data.OneWayFares?
      && FareForDate(data.fares.outbound.fares, form.departureDate.value).Some?
    ensures v.FareShown? ==> Some(v.fare) == FareForDate(data.fares.outbound.fares, form.departureDate.value)
  {
    if form.tripType == RoundTrip then
      match data
      case RoundTripFares(options) =>
        if |options| > 0 then RoundTripList(Headings(options)) else NothingShown
      case OneWayFares(_) => NothingShown
    else
      match data
      case RoundTripFares(_) => NothingShown
      case OneWayFares(cheapest) =>
        var fares := cheapest.outbound.fares;
        var selected := if form.tripType == OneWay then FareForDate(fares, form.departureDate.value) else None;
        if form.tripType == OneWay && selected.None? then Unavailable(Alternatives(fares))
        else
          var display := if selected.Some? then selected
                         else if form.tripType == OneWay then cheapest.outbound.minFare
                         else None;
          if display.None? then NothingShown else FareShown(display.value)
  }

  /** `currencyCode || 'EUR'`. */
  function CurrencyOrEuro(code: string): (r: string)
    ensures r != ""
    ensures code != "" ==> r == code
  {
    if code != "" then code else "EUR"
  }

  /** The total price line: the best option's server total for a round
      trip, the requested day's fare for a one-way trip, each times the
      passenger count. */
  function TotalOf(form: SearchForm, data: FareData): (t: Option<Money>)
    requires FormDatesValid(form) && CanShowResults(form)
    ensures t.Some? <==>
      (form.tripType == RoundTrip && data.RoundTripFares? && |data.options| > 0
       && data.options[0].totalPrice.Some?)
      || (form.tripType == OneWay && data.OneWayFares?
          && FareForDate(data.fares.outbound.fares, form.departureDate.value).Some?)
    ensures form.tripType == RoundTrip && data.RoundTripFares? && |data.options| > 0
            && data.options[0].totalPrice.Some? ==>
      var total := data.options[0].totalPrice.value;
      t == Some(Money(total.value * form.passengers, CurrencyOrEuro(total.currencyCode)))
    ensures form.tripType == OneWay && data.OneWayFares?
            && FareForDate(data.fares.outbound.fares, form.departureDate.value).Some? ==>
      var f := FareForDate(data.fares.outbound.fares, form.departureDate.value).value;
      t == Some(Money(f.price.value.value * form.passengers, CurrencyOrEuro(f.price.value.currencyCode)))
  {
    if form.tripType == RoundTrip && data.RoundTripFares? && |data.options| > 0 then
      var best := data.options[0];
      if best.totalPrice.Some? then
        Some(Money(best.totalPrice.value.value * form.passengers,
                   CurrencyOrEuro(best.totalPrice.value.currencyCode)))
      else None
    else if data.OneWayFares? then
      var selected := if form.tripType == OneWay
                      then FareForDate(data.fares.outbound.fares, form.departureDate.value) else None;
      if selected.Some? then
        Some(Money(selected.value.price.value.value * form.passengers,
                   CurrencyOrEuro(selected.value.price.value.currencyCode)))
      else None
    else None
  }

  /** The panel for a form and the outcome of its fare search. */
  function Panel(form: SearchForm, outcome: FareSearchOutcome): (p: ResultsPanel)
    requires FormDatesValid(form)
    ensures p == Hidden <==> form.origin.None? || form.destination.None?
    ensures p == Incomplete <==> form.origin.Some? && form.destination.Some? && !CanShowResults(form)
    ensures p.Shown? && outcome.isLoading ==> p.main == Searching && p.total.None?
    ensures CanShowResults(form) && !outcome.isLoading && outcome.error.Some? ==>
      p == Shown(Failed(ErrorText(outcome.error.value)), None)
    ensures CanShowResults(form) && !outcome.isLoading && outcome.error.None? && outcome.data.None? ==>
      p == Shown(NothingShown, None)
    ensures CanShowResults(form) && !outcome.isLoading && outcome.error.None? && outcome.data.Some? ==>
      p == Shown(MainViewOf(form, outcome.data.value), TotalOf(form, outcome.data.value))
  {
    if form.origin.None? || form.destination.None? then Hidden
    else if !CanShowResults(form) then Incomplete
    else if outcome.isLoading then Shown(Searching, None)
    else if outcome.error.Some? then Shown(Failed(ErrorText(outcome.error.value)), None)
    else if outcome.data.None? then Shown(NothingShown, None)
    else Shown(MainViewOf(form, outcome.data.value), TotalOf(form, outcome.data.value))
  }

  /** The fare shown is always the requested day's first bookable fare: the
      fallback to the series' `minFare` can never be reached, because a
      missing fare for the day shows the alternatives instead. */
  lemma ShownFareIsRequestedDay(form: SearchForm, data: FareData)
    requires FormDatesValid(form) && CanShowResults(form)
    requires MainViewOf(form, data).FareShown?
    ensures form.tripType == OneWay && data.OneWayFares?
    ensures Some(MainViewOf(form, data).fare) == FareForDate(data.fares.outbound.fares, form.departureDate.value)
  {
  }

  /** A one-way search shows a total exactly when it shows a fare, and the
      total is that fare times the passengers. */
  lemma OneWayTotalMatchesFare(form: SearchForm, data: FareData)
    requires FormDatesValid(form) && CanShowResults(form) && form.tripType == OneWay
    ensures TotalOf(form, data).Some? <==> MainViewOf(form, data).FareShown?
    ensures MainViewOf(form, data).FareShown? ==>
      var f := MainViewOf(form, data).fare;
      TotalOf(form, data) == Some(Money(f.price.value.value * form.passengers,
                                        CurrencyOrEuro(f.price.value.currencyCode)))
  {
  }

  /** A round trip shows a total exactly when the first option carries the
      server's total price; the headline sums of the options play no part. */
  lemma RoundTripTotalFromServer(form: SearchForm, options: seq<RoundTripOption>)
    requires FormDatesValid(form) && CanShowResults(form) && form.tripType == RoundTrip
    ensures TotalOf(form, RoundTripFares(options)).Some?
        <==> |options| > 0 && options[0].totalPrice.Some?
    ensures |options| > 0 && options[0].totalPrice.Some? ==>
      TotalOf(form, RoundTripFares(options)).value.value == options[0].totalPrice.value.value * form.passengers
  {
  }

  /** The day the requested one-way fare is missing for, the panel offers
      the alternatives; otherwise it never does. */
  lemma UnavailableIff(form: SearchForm, cheapest: CheapestFarePerDay)
    requires FormDatesValid(form) && CanShowResults(form)
    ensures MainViewOf(form, OneWayFares(cheapest)).Unavailable?
        <==> form.tripType == OneWay
             && FareForDate(cheapest.outbound.fares, form.departureDate.value).None?
  {
  }

  /** Choosing an alternative moves the departure to its day and changes
      nothing else (`new Date(day)`; a day that does not parse leaves no
      usable date). */
  function PickAlternative(form: SearchForm, fare: DayFare): (f: SearchForm)
    requires FormDatesValid(form)
    ensures FormDatesValid(f)
    ensures f.departureDate == ParseIso(fare.day)
    ensures f.(departureDate := form.departureDate) == form
  {
    form.(departureDate := ParseIso(fare.day))
  }

  /** If the same fare series comes back for the new day, picking an
      alternative shows a fare of exactly that day. */
  lemma PickAlternativeShowsIt(form: SearchForm, cheapest: CheapestFarePerDay, x: DayFare)
    requires FormDatesValid(form) && CanShowResults(form) && form.tripType == OneWay
    requires x in Alternatives(cheapest.outbound.fares)
    requires ParseIso(x.day).Some?
    ensures CanShowResults(PickAlternative(form, x))
    ensures MainViewOf(PickAlternative(form, x), OneWayFares(cheapest)).FareShown?
    ensures MainViewOf(PickAlternative(form, x), OneWayFares(cheapest)).fare.day == x.day
  {
    var fares := cheapest.outbound.fares;
    AlternativesBookable(fares, x);
    var d := ParseIso(x.day).value;
    IsoStringOfParse(x.day);
    var g := PickAlternative(form, x);
    assert g.departureDate == Some(d) && g.tripType == OneWay;
    var found := FareForDate(fares, d);
    assert found.Some? by {
      assert x in fares && x.day == IsoString(d) && Bookable(x);
    }
    assert MainViewOf(g, OneWayFares(cheapest)) == FareShown(found.value);
  }

  /** Choosing a day in the price calendar moves the departure only; the
      return day stays, even when it now comes first. */
  function SelectCalendarDay(form: SearchForm, d: Date): (f: SearchForm)
    requires FormDatesValid(form) && ValidDate(d)
    ensures FormDatesValid(f)
    ensures f.departureDate == Some(d)
    ensures f.(departureDate := form.departureDate) == form
  {
    form.(departureDate := Some(d))
  }

  /** Selecting a departure after the return day is accepted as it is. */
  lemma CalendarDayMayPassReturn()
    ensures var form := InitialForm().(tripType := RoundTrip, returnDate := Some(Date(2024, 3, 5)));
      var f := SelectCalendarDay(form, Date(2024, 3, 20));
      Before(f.returnDate.value, f.departureDate.value)
  {
  }
}
