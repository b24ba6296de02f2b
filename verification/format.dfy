/** The display helpers of src/utils/format.ts that do not depend on
    `Intl`, `date-fns` or the clock: price and currency labels (the symbol
    choice; the digits are `Intl`'s), airport labels, durations, flight
    numbers, passenger counts, and the relative-time label with the current
    instant as a parameter. */
module Format {
  import opened Optional
  import opened Text
  import opened Seqs
  import opened Types
  import opened Constants

  // ---------------------------------------------------------------------
  // Prices and currencies

  /** The currency symbol for a code: the table's symbol, or the code
      itself when the code is not listed (or its symbol is empty). */
  function SymbolFor(code: string): (r: string)
    ensures (forall i :: 0 <= i < |Currencies()| ==> Currencies()[i].code != code) ==> r == code
  {
    match Find(Currencies(), (c: Currency) => c.code == code)
    case Some(c) => OrElse(Some(c.symbol), code)
    case None => code
  }

  /** A listed code gets exactly its own row's symbol. */
  lemma SymbolOfListed(i: int)
    requires 0 <= i < |Currencies()|
    ensures SymbolFor(Currencies()[i].code) == Currencies()[i].symbol
  {
    CurrencyTableWellFormed();
    var t := Currencies();
    var code := t[i].code;
    var p := (c: Currency) => c.code == code;
    forall j | 0 <= j < |t| && j != i ensures !p(t[j]) {
      assert t[j].code != t[i].code;
    }
    FindUnique(t, p, i);
  }

  /** The three krone/krona currencies share the label `kr`, so the prefix
      alone does not tell them apart. */
  lemma KronaSymbolShared()
    ensures SymbolFor("SEK") == SymbolFor("NOK") == SymbolFor("DKK") == "kr"
  {
    SymbolOfListed(4);
    SymbolOfListed(5);
    SymbolOfListed(6);
  }

  /** A code missing from the table is printed as itself. */
  lemma UnlistedCodeIsItsOwnSymbol()
    ensures SymbolFor("CHF") == "CHF"
  {
    forall i | 0 <= i < |Currencies()| ensures Currencies()[i].code != "CHF" {
      assert Currencies()[i].code[0] != 'C';
    }
  }

  /** A price label: a dash, or a symbol in front of the amount (whose
      digits `Intl.NumberFormat` renders). */
  datatype MoneyLabel = Dash | Amount(symbol: string, value: int)

  /** `formatCurrency`: the symbol for the code (`EUR` when no code is
      passed) before the amount. */
  function FormatCurrency(amount: int, code: Option<string>): (r: MoneyLabel)
    ensures r.Amount? && r.value == amount
    ensures r.symbol == SymbolFor(code.GetOr(DefaultCurrency))
  {
    Amount(SymbolFor(code.GetOr(DefaultCurrency)), amount)
  }

  /** `formatPrice`: a dash for a missing price, otherwise the price's
      amount behind its currency's symbol. */
  function FormatPrice(p: Option<Price>): (r: MoneyLabel)
    ensures r == Dash <==> p.None?
    ensures p.Some? ==> r.value == p.value.value && r.symbol == SymbolFor(p.value.currencyCode)
  {
    match p
    case None => Dash
    case Some(q) => Amount(SymbolFor(q.currencyCode), q.value)
  }

  /** A present price is labelled exactly as its amount in its currency. */
  lemma PriceIsCurrency(p: Price)
    ensures FormatPrice(Some(p)) == FormatCurrency(p.value, Some(p.currencyCode))
  {
  }

  // ---------------------------------------------------------------------
  // Airports

  /** What `formatAirportDisplay` reads: the country is optional. */
  datatype Place = Place(code: string, name: string, country: Option<string>)

  /** Whether the label names the country: it must be present, non-empty
      and different from the name. */
  predicate ShowsCountry(p: Place) {
    Truthy(p.country) && p.country.value != p.name
  }

  /** `formatAirportDisplay`: empty for no airport; otherwise
      `code - name`, followed by `, country` when the country adds
      something. */
  function FormatAirportDisplay(p: Option<Place>): (r: string)
    ensures r == "" <==> p.None?
    ensures p.Some? ==> |r| >= |p.value.code| + 3 && r[..|p.value.code| + 3] == p.value.code + " - "
    ensures p.Some? ==> (r == p.value.code + " - " + p.value.name <==> !ShowsCountry(p.value))
  {
    match p
    case None => ""
    case Some(a) =>
      var parts := if ShowsCountry(a) then [a.name, a.country.value] else [a.name];
      var r := a.code + " - " + Join(parts, ", ");
      assert r[..|a.code| + 3] == a.code + " - ";
      r
  }

  /** With a country shown, the label is the name label with `, country`
      appended. */
  lemma AirportDisplayCountry(p: Place)
    requires ShowsCountry(p)
    ensures FormatAirportDisplay(Some(p)) == p.code + " - " + p.name + ", " + p.country.value
  {
    var parts := [p.name, p.country.value];
    assert Join(parts, ", ") == p.name + ", " + Join(parts[1..], ", ");
  }

  // ---------------------------------------------------------------------
  // Durations

  /** JavaScript's `a % 60`: the remainder takes the sign of the
      dividend, where Dafny's is never negative. */
  function JsRem60(a: int): (r: int)
    ensures a >= 0 ==> r == a % 60
    ensures a < 0 ==> -60 < r <= 0 && (r == 0 || r == a % 60 - 60)
  {
    if a >= 0 then a % 60 else -((-a) % 60)
  }

  /** `formatDuration` for a whole number of minutes: `Math.floor(m / 60)`
      hours and `m % 60` minutes; `Nm` with no hours, `Nh` with no minutes,
      `Nh Nm` otherwise. */
  function FormatDuration(minutes: int): (r: string)
  {
    var hours := minutes / 60;
    var mins := JsRem60(minutes);
    if hours == 0 then IntToString(mins) + "m"
    else if mins == 0 then IntToString(hours) + "h"
    else IntToString(hours) + "h " + IntToString(mins) + "m"
  }

  /** The index of the first character that is not a digit (or the
      length). */
  function FirstNonDigit(s: string): (k: nat)
    ensures k <= |s| && AllDigits(s[..k])
    ensures k < |s| ==> !IsDigit(s[k])
  {
    if |s| == 0 || !IsDigit(s[0]) then 0
    else
      var k := 1 + FirstNonDigit(s[1..]);
      assert s[..k] == [s[0]] + s[1..][..k - 1];
      k
  }

  /** A run of digits ends where the next character is not one. */
  lemma FirstNonDigitAfter(a: string, b: string)
    requires AllDigits(a) && |b| > 0 && !IsDigit(b[0])
    ensures FirstNonDigit(a + b) == |a|
  {
    var s := a + b;
    var k := FirstNonDigit(s);
    assert forall i :: 0 <= i < |a| ==> s[i] == a[i];
    assert s[|a|] == b[0];
    assert forall j :: 0 <= j < k ==> s[..k][j] == s[j];
  }

  /** Reads a duration label back into minutes: the inverse of
      `FormatDuration` on non-negative durations. */
  function ParseDuration(s: string): (r: Option<int>)
  {
    if |s| < 2 then None else ParseBody(s[..|s| - 1], s[|s| - 1])
  }

  /** The label without its final unit letter. */
  function ParseBody(body: string, unit: char): (r: Option<int>)
  {
    var k := FirstNonDigit(body);
    if k == 0 then None
    else if k == |body| then
      if unit == 'h' then Some(60 * ParseNat(body))
      else if unit == 'm' then Some(ParseNat(body))
      else None
    else if unit == 'm' then ParseHoursMinutes(body, k)
    else None
  }

  /** `<hours>h <minutes>` with the hours' digits ending at `k`. */
  function ParseHoursMinutes(body: string, k: nat): (r: Option<int>)
    requires 0 < k < |body| && AllDigits(body[..k])
  {
    if k + 2 < |body| && body[k] == 'h' && body[k + 1] == ' ' && AllDigits(body[k + 2..]) then
      Some(60 * ParseNat(body[..k]) + ParseNat(body[k + 2..]))
    else None
  }

  /** A label with one unit reads back as that many hours or minutes. */
  lemma ParseOneUnit(n: nat, u: char)
    requires u == 'h' || u == 'm'
    ensures ParseDuration(NatToString(n) + [u]) == Some(if u == 'h' then 60 * n else n)
  {
    var d := NatToString(n);
    var s := d + [u];
    assert s[..|s| - 1] == d;
    ParseNatToString(n);
  }

  /** A label with hours and minutes reads back as their total. */
  lemma ParseTwoUnits(h: nat, m: nat)
    ensures ParseDuration(NatToString(h) + "h " + NatToString(m) + "m") == Some(60 * h + m)
  {
    var body := NatToString(h) + "h " + NatToString(m);
    var s := body + "m";
    assert NatToString(h) + "h " + NatToString(m) + "m" == s;
    assert s[..|s| - 1] == body;
    assert s[|s| - 1] == 'm';
    ParseTwoUnitsBody(h, m);
  }

  /** The same, before the final `m`. */
  lemma ParseTwoUnitsBody(h: nat, m: nat)
    ensures ParseBody(NatToString(h) + "h " + NatToString(m), 'm') == Some(60 * h + m)
  {
    var dh := NatToString(h);
    var dm := NatToString(m);
    var body := dh + "h " + dm;
    assert body == dh + ("h " + dm);
    FirstNonDigitAfter(dh, "h " + dm);
    var k := |dh|;
    assert body[..k] == dh;
    assert body[k] == 'h' && body[k + 1] == ' ';
    assert body[k + 2..] == dm;
    ParseNatToString(h);
    ParseNatToString(m);
    HoursMinutesParsed(body, k, h, m);
  }

  lemma HoursMinutesParsed(body: string, k: nat, h: nat, m: nat)
    requires 0 < k && k + 2 < |body| && AllDigits(body[..k]) && AllDigits(body[k + 2..])
    requires body[k] == 'h' && body[k + 1] == ' '
    requires ParseNat(body[..k]) == h && ParseNat(body[k + 2..]) == m
    ensures ParseHoursMinutes(body, k) == Some(60 * h + m)
  {
  }

  /** The label's three shapes for non-negative durations, with the hours
      and minutes of the duration. */
  lemma DurationShapes(m: int)
    requires m >= 0
    ensures m / 60 == 0 ==> FormatDuration(m) == NatToString(m % 60) + "m"
    ensures m / 60 != 0 && m % 60 == 0 ==> FormatDuration(m) == NatToString(m / 60) + "h"
    ensures m / 60 != 0 && m % 60 != 0 ==>
      FormatDuration(m) == NatToString(m / 60) + "h " + NatToString(m % 60) + "m"
  {
  }

  /** Every non-negative duration reads back from its label, so different
      durations get different labels. */
  lemma DurationRoundTrip(m: int)
    requires m >= 0
    ensures ParseDuration(FormatDuration(m)) == Some(m)
  {
    var h := m / 60;
    var r := m % 60;
    var s := FormatDuration(m);
    if h == 0 {
      assert s == NatToString(r) + ['m'] by {
        DurationShapes(m);
      }
      ParseOneUnit(r, 'm');
    } else if r == 0 {
      assert s == NatToString(h) + ['h'] by {
        DurationShapes(m);
      }
      ParseOneUnit(h, 'h');
    } else {
      assert s == NatToString(h) + "h " + NatToString(r) + "m" by {
        DurationShapes(m);
      }
      ParseTwoUnits(h, r);
    }
  }

  /** An example of the mixed shape. */
  lemma DurationExample()
    ensures FormatDuration(90) == "1h 30m"
  {
  }

  /** Negative durations keep JavaScript's mixed rounding: the hours are
      floored and the minutes truncated, so half an hour early reads as
      minus one hour minus thirty minutes. */
  lemma NegativeDuration()
    ensures FormatDuration(-30) == "-1h -30m"
  {
  }

  // ---------------------------------------------------------------------
  // Flight numbers

  /** Exactly two capital letters followed by one or more digits (the
      pattern `^([A-Z]{2})(\d+)$`). */
  predicate IsCarrierCode(u: string) {
    |u| >= 3 && IsUpperLetter(u[0]) && IsUpperLetter(u[1]) && AllDigits(u[2..])
  }

  /** `formatFlightNumber`: upper-case, then a space between the carrier
      letters and the digits when the whole text has that shape. */
  function FormatFlightNumber(s: string): (r: string)
    ensures IsCarrierCode(ToUpper(s)) ==>
      |r| == |s| + 1 && r[2] == ' ' && r[..2] + r[3..] == ToUpper(s)
    ensures !IsCarrierCode(ToUpper(s)) ==> r == ToUpper(s)
  {
    var u := ToUpper(s);
    if IsCarrierCode(u) then
      var r := u[..2] + " " + u[2..];
      assert r[..2] + r[3..] == u;
      r
    else u
  }

  /** Formatting an already formatted flight number changes nothing. */
  lemma FlightNumberIdempotent(s: string)
    ensures FormatFlightNumber(FormatFlightNumber(s)) == FormatFlightNumber(s)
  {
    var r := FormatFlightNumber(s);
    forall i | 0 <= i < |r| ensures !IsLowerLetter(r[i]) {
      var u := ToUpper(s);
      if IsCarrierCode(u) {
        if i < 2 {
          assert r[i] == u[i];
        } else if i > 2 {
          assert r[i] == u[i - 1];
        }
      }
    }
    assert ToUpper(r) == r;
    if IsCarrierCode(r) {
      assert IsDigit(r[2..][0]);
    }
  }

  /** Examples: `fr1234` becomes `FR 1234`; text that is not two letters and
      digits is only upper-cased. */
  lemma FlightNumberExamples()
    ensures FormatFlightNumber("fr1234") == "FR 1234"
    ensures FormatFlightNumber("f1234") == "F1234"
  {
    assert IsCarrierCode(ToUpper("fr1234"));
    assert !IsCarrierCode(ToUpper("f1234")) by {
      assert !IsUpperLetter(ToUpper("f1234")[1]);
    }
  }

  // ---------------------------------------------------------------------
  // Passengers

  /** `formatPassengerCount`: singular only for exactly one. */
  function FormatPassengerCount(n: int): (r: string)
    ensures n == 1 <==> r == "1 Adult"
    ensures n != 1 ==> r == IntToString(n) + " Adults"
  {
    if n == 1 then "1 Adult" else IntToString(n) + " Adults"
  }

  /** The formatter agrees with the labels of the form's passenger list. */
  lemma PassengerCountMatchesTable()
    ensures forall i :: 0 <= i < |PassengerCounts()| ==>
      PassengerCounts()[i].value == i + 1
      && FormatPassengerCount(i + 1) == PassengerCounts()[i].text
  {
    var t := PassengerCounts();
    assert FormatPassengerCount(1) == t[0].text;
    assert FormatPassengerCount(2) == t[1].text by {
      SingleDigitCount(2);
    }
    assert FormatPassengerCount(3) == t[2].text by {
      SingleDigitCount(3);
    }
    assert FormatPassengerCount(4) == t[3].text by {
      SingleDigitCount(4);
    }
    assert FormatPassengerCount(5) == t[4].text by {
      SingleDigitCount(5);
    }
    assert FormatPassengerCount(6) == t[5].text by {
      SingleDigitCount(6);
    }
    assert FormatPassengerCount(7) == t[6].text by {
      SingleDigitCount(7);
    }
    assert FormatPassengerCount(8) == t[7].text by {
      SingleDigitCount(8);
    }
    assert FormatPassengerCount(9) == t[8].text by {
      SingleDigitCount(9);
    }
  }

  /** Two to nine adults: the digit, then ` Adults`. */
  lemma SingleDigitCount(n: int)
    requires 2 <= n <= 9
    ensures FormatPassengerCount(n) == [DigitChar(n)] + " Adults"
  {
  }

  // ---------------------------------------------------------------------
  // Relative time

  const HourMs: int := 3600000

  /** `getRelativeTimeString` with the instants as milliseconds; `None` is
      an unparseable date, whose `NaN` difference fails every comparison. */
  function RelativeTime(target: Option<int>, now: int): (r: string)
  {
    match target
    case None => "In NaN days"
    case Some(t) =>
      var hours := (t - now) / HourMs;
      if hours < 0 then "Past"
      else if hours < 24 then "Today"
      else if hours < 48 then "Tomorrow"
      else "In " + IntToString(hours / 24) + " days"
  }

  /** Flooring twice equals flooring once by the product. */
  lemma FloorTwice(x: int)
    requires x >= 0
    ensures (x / HourMs) / 24 == x / (24 * HourMs)
  {
    var q := x / (24 * HourMs);
    var rem := x % (24 * HourMs);
    assert x == q * (24 * HourMs) + rem;
    assert x == (24 * q) * HourMs + rem;
    assert x / HourMs == 24 * q + rem / HourMs;
  }

  /** The label in terms of the time between now and the target: past
      exactly when it lies before now, today within 24 hours, tomorrow
      within 48, otherwise the number of whole days. */
  lemma RelativeTimeBands(t: int, now: int)
    ensures RelativeTime(Some(t), now) == "Past" <==> t < now
    ensures RelativeTime(Some(t), now) == "Today" <==> now <= t < now + 24 * HourMs
    ensures RelativeTime(Some(t), now) == "Tomorrow" <==> now + 24 * HourMs <= t < now + 48 * HourMs
    ensures t >= now + 48 * HourMs ==>
      RelativeTime(Some(t), now) == "In " + NatToString((t - now) / (24 * HourMs)) + " days"
  {
    var d := t - now;
    if d >= 0 {
      FloorTwice(d);
    }
    var r := RelativeTime(Some(t), now);
    if d >= 48 * HourMs {
      var n := NatToString(d / HourMs / 24);
      assert r == "In " + n + " days";
      assert r[..3] == "In ";
    }
  }

  /** An unparseable date gets neither a band nor a number of days. */
  lemma InvalidDateLabel(now: int)
    ensures forall t :: RelativeTime(None, now) != RelativeTime(Some(t), now)
  {
    forall t ensures RelativeTime(None, now) != RelativeTime(Some(t), now) {
      var r := RelativeTime(Some(t), now);
      var d := t - now;
      if d >= 48 * HourMs {
        var n := NatToString(d / HourMs / 24);
        assert r == "In " + n + " days";
        assert r[3] == n[0];
        assert "In NaN days"[3] == 'N';
      }
    }
  }
}
