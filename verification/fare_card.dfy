/** One day of the price calendar (src/components/fare/DailyFareCard.tsx):
    whether the day is past, whether its fare can be booked, whether the
    card reacts to a click, and what the card shows. The current day is a
    parameter (the clock is outside the model). */
module FareCard {
  import opened Optional
  import opened Calendar
  import opened Types

  /** The card's inputs; `disabled`, `selected` and `loading` default to
      false when not passed. */
  datatype Card = Card(
    date: Date,
    fare: Option<DayFare>,
    selected: bool,
    loading: bool,
    disabled: bool)

  /** `isBefore(date, today at midnight)`. */
  predicate IsPast(c: Card, today: Date) {
    Before(c.date, today)
  }

  /** A fare the card offers: present, not unavailable, not sold out, and
      priced. */
  predicate HasValidFare(fare: Option<DayFare>) {
    fare.Some? && !fare.value.unavailable && !fare.value.soldOut && fare.value.price.Some?
  }

  /** The card reacts to clicks only for an enabled, current or future day
      with a valid fare. */
  predicate IsClickable(c: Card, today: Date) {
    !c.disabled && !IsPast(c, today) && HasValidFare(c.fare)
  }

  /** `handleClick`: the day reported to the parent, if the click counts. */
  function Click(c: Card, today: Date): (r: Option<Date>)
    ensures r.Some? <==> IsClickable(c, today)
    ensures r.Some? ==> r.value == c.date && NotAfter(today, c.date)
  {
    if IsClickable(c, today) then Some(c.date) else None
  }

  /** A past day is never reported, whatever its fare. */
  lemma PastDayNeverClicked(c: Card, today: Date)
    requires IsPast(c, today)
    ensures Click(c, today).None?
  {
  }

  /** The day-of-week label is printed on the first seven days of a month. */
  predicate ShowsWeekday(c: Card) {
    c.date.day <= 7
  }

  /** The first seven days of a month carry seven different weekdays, so
      every column of the grid gets exactly one label. */
  lemma FirstWeekCoversAllWeekdays(y: int, m: int, a: int, b: int)
    requires ValidDate(Date(y, m, 1))
    requires 1 <= a < b <= 7
    ensures ValidDate(Date(y, m, a)) && ValidDate(Date(y, m, b))
    ensures Weekday(Date(y, m, a)) != Weekday(Date(y, m, b))
  {
    WeekdayInMonth(y, m, a - 1);
    WeekdayInMonth(y, m, b - 1);
    var w := Weekday(Date(y, m, 1));
    assert (w + a - 1) % 7 != (w + b - 1) % 7 by {
      DistinctShift(w, a - 1, b - 1);
    }
  }

  lemma DistinctShift(w: int, i: int, j: int)
    requires 0 <= w < 7 && 0 <= i < j < 7
    ensures (w + i) % 7 != (w + j) % 7
  {
  }

  /** What fills the card below the day number. */
  datatype Body = LoadingPlaceholder | PriceTag(price: Price) | NoFlights | Blank

  /** The card body: a placeholder while loading, the price of a valid
      fare, "No flights" for a current or future day without one, nothing
      for a past day without one. */
  function BodyOf(c: Card, today: Date): (b: Body)
    ensures b == LoadingPlaceholder <==> c.loading
    ensures b.PriceTag? <==> !c.loading && HasValidFare(c.fare)
    ensures b.PriceTag? ==> b.price == c.fare.value.price.value
    ensures b == NoFlights <==> !c.loading && !HasValidFare(c.fare) && !IsPast(c, today)
  {
    if c.loading then LoadingPlaceholder
    else if HasValidFare(c.fare) then PriceTag(c.fare.value.price.value)
    else if !IsPast(c, today) then NoFlights
    else Blank
  }

  /** A card that reacts to a click shows a price once loading ends; a card
      that shows "No flights" never reacts. */
  lemma ClickableShowsPrice(c: Card, today: Date)
    ensures IsClickable(c, today) && !c.loading ==> BodyOf(c, today).PriceTag?
    ensures BodyOf(c, today) == NoFlights ==> Click(c, today).None?
  {
  }

  /** A past day with a valid fare still shows its price, but cannot be
      chosen. */
  lemma PastFareShownNotClickable()
    ensures var c := Card(Date(2024, 3, 1),
                          Some(DayFare("2024-03-01", None, None, Some(Price(1999, "EUR")), false, false)),
                          false, false, false);
      BodyOf(c, Date(2024, 3, 2)).PriceTag? && Click(c, Date(2024, 3, 2)).None?
  {
  }
}
