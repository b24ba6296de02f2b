/** A small proleptic Gregorian calendar: the part of `date-fns` and of the
    built-in `Date` the components use, on calendar days at local midnight. */
module Calendar {
  import opened Optional
  import opened Text

  /** A calendar day; `month` is 1-based (January is 1). */
  datatype Date = Date(year: int, month: int, day: int)

  predicate IsLeapYear(y: int) {
    y % 4 == 0 && (y % 100 != 0 || y % 400 == 0)
  }

  function DaysInMonth(y: int, m: int): (r: int)
    requires 1 <= m <= 12
    ensures 28 <= r <= 31
    ensures m == 2 ==> (r == 29 <==> IsLeapYear(y))
    ensures m != 2 ==> (r == 30 <==> m in {4, 6, 9, 11})
  {
    if m == 2 then (if IsLeapYear(y) then 29 else 28)
    else if m == 4 || m == 6 || m == 9 || m == 11 then 30
    else 31
  }

  /** A day that exists in the calendar (years from 0 on). */
  predicate ValidDate(d: Date) {
    0 <= d.year && 1 <= d.month <= 12 && 1 <= d.day <= DaysInMonth(d.year, d.month)
  }

  /** Chronological order of two days, as `<` on their `Date` objects. */
  predicate Before(a: Date, b: Date) {
    a.year < b.year
    || (a.year == b.year && (a.month < b.month || (a.month == b.month && a.day < b.day)))
  }

  /** `a <= b` on `Date` objects. */
  predicate NotAfter(a: Date, b: Date) {
    Before(a, b) || a == b
  }

  lemma BeforeIsStrictTotal(a: Date, b: Date)
    ensures !(Before(a, b) && Before(b, a))
    ensures a == b || Before(a, b) || Before(b, a)
  {
  }

  /** Months counted from January of year 0. */
  function MonthIndex(d: Date): int {
    12 * d.year + d.month - 1
  }

  /** The first day of the month with the given index. */
  function MonthStart(i: nat): (r: Date)
    ensures ValidDate(r) && r.day == 1
    ensures MonthIndex(r) == i
  {
    Date(i / 12, i % 12 + 1, 1)
  }

  /** Days in the same month compare like their days; days in earlier
      months come first. */
  lemma MonthIndexOrder(a: Date, b: Date)
    requires ValidDate(a) && ValidDate(b)
    ensures NotAfter(a, b) ==> MonthIndex(a) <= MonthIndex(b)
    ensures MonthIndex(a) < MonthIndex(b) ==> Before(a, b)
    ensures MonthIndex(a) == MonthIndex(b) ==> a.year == b.year && a.month == b.month
  {
  }

  /** `startOfMonth`. */
  function StartOfMonth(d: Date): (r: Date)
    requires ValidDate(d)
    ensures ValidDate(r) && r.day == 1
    ensures MonthIndex(r) == MonthIndex(d)
    ensures NotAfter(r, d)
    ensures r == MonthStart(MonthIndex(d))
  {
    Date(d.year, d.month, 1)
  }

  /** `endOfMonth`, at day granularity. */
  function EndOfMonth(d: Date): (r: Date)
    requires ValidDate(d)
    ensures ValidDate(r) && MonthIndex(r) == MonthIndex(d)
    ensures NotAfter(d, r)
    ensures forall e :: ValidDate(e) && MonthIndex(e) == MonthIndex(d) ==> NotAfter(e, r)
  {
    Date(d.year, d.month, DaysInMonth(d.year, d.month))
  }

  function Min(a: int, b: int): int {
    if a <= b then a else b
  }

  /** `addMonths(d, n)`: the same day `n` months later, clamped to the end
      of a shorter target month (Jan 31 plus one month is Feb 28 or 29). */
  function AddMonths(d: Date, n: nat): (r: Date)
    requires ValidDate(d)
    ensures ValidDate(r)
    ensures MonthIndex(r) == MonthIndex(d) + n
    ensures r.day <= d.day
    ensures d.day <= DaysInMonth(r.year, r.month) ==> r.day == d.day
    ensures d.day > DaysInMonth(r.year, r.month) ==> r.day == DaysInMonth(r.year, r.month)
  {
    var i := MonthIndex(d) + n;
    var y := i / 12;
    var m := i % 12 + 1;
    Date(y, m, Min(d.day, DaysInMonth(y, m)))
  }

  /** Adding one month to a month start gives the next month start. */
  lemma AddMonthToMonthStart(i: nat)
    ensures AddMonths(MonthStart(i), 1) == MonthStart(i + 1)
  {
    var r := AddMonths(MonthStart(i), 1);
    var n := MonthStart(i + 1);
    assert r.day == 1 == n.day;
    MonthIndexOrder(r, n);
  }

  /** The day after `d`. */
  function NextDay(d: Date): (r: Date)
    requires ValidDate(d)
    ensures ValidDate(r) && Before(d, r)
  {
    if d.day < DaysInMonth(d.year, d.month) then Date(d.year, d.month, d.day + 1)
    else if d.month < 12 then Date(d.year, d.month + 1, 1)
    else Date(d.year + 1, 1, 1)
  }

  /** Days in the years before `y`, from year 0. */
  function DaysBeforeYear(y: int): int
    requires y >= 0
  {
    365 * y + (y + 3) / 4 - (y + 99) / 100 + (y + 399) / 400
  }

  /** Days in the months of year `y` before month `m`. */
  function DaysBeforeMonth(y: int, m: int): int
    requires 1 <= m <= 12
  {
    var common := [0, 31, 59, 90, 120, 151, 181, 212, 243, 273, 304, 334][m - 1];
    if m > 2 && IsLeapYear(y) then common + 1 else common
  }

  /** Days elapsed since 0000-01-01. */
  function DayNumber(d: Date): int
    requires ValidDate(d)
  {
    DaysBeforeYear(d.year) + DaysBeforeMonth(d.year, d.month) + d.day - 1
  }

  lemma Step4(y: int)
    requires y >= 0
    ensures (y + 4) / 4 - (y + 3) / 4 == if y % 4 == 0 then 1 else 0
  {
  }

  lemma Step100(y: int)
    requires y >= 0
    ensures (y + 100) / 100 - (y + 99) / 100 == if y % 100 == 0 then 1 else 0
  {
  }

  lemma Step400(y: int)
    requires y >= 0
    ensures (y + 400) / 400 - (y + 399) / 400 == if y % 400 == 0 then 1 else 0
  {
  }

  /** The year `y` has 366 days iff it is a leap year. */
  lemma YearLength(y: int)
    requires y >= 0
    ensures DaysBeforeYear(y + 1) - DaysBeforeYear(y) == if IsLeapYear(y) then 366 else 365
  {
    Step4(y);
    Step100(y);
    Step400(y);
    DivisibilityChain(y);
    assert DaysBeforeYear(y + 1) - DaysBeforeYear(y)
        == 365 + ((y + 4) / 4 - (y + 3) / 4) - ((y + 100) / 100 - (y + 99) / 100)
           + ((y + 400) / 400 - (y + 399) / 400);
  }

  lemma DivisibilityChain(y: int)
    ensures y % 100 == 0 ==> y % 4 == 0
    ensures y % 400 == 0 ==> y % 100 == 0
  {
    if y % 100 == 0 {
      var k := y / 100;
      assert y == 4 * (25 * k);
    }
    if y % 400 == 0 {
      var k := y / 400;
      assert y == 100 * (4 * k);
    }
  }

  /** The day count advances by exactly one from each day to the next,
      across month and year ends. */
  lemma DayNumberNext(d: Date)
    requires ValidDate(d)
    ensures DayNumber(NextDay(d)) == DayNumber(d) + 1
  {
    if d.day == DaysInMonth(d.year, d.month) && d.month == 12 {
      YearLength(d.year);
    }
  }

  /** `getDay`: 0 is Sunday. Day 0000-01-01 (proleptic) was a Saturday. */
  function Weekday(d: Date): (r: int)
    requires ValidDate(d)
    ensures 0 <= r < 7
  {
    (DayNumber(d) + 6) % 7
  }

  /** Consecutive days have consecutive weekdays. */
  lemma WeekdayNext(d: Date)
    requires ValidDate(d)
    ensures Weekday(NextDay(d)) == (Weekday(d) + 1) % 7
  {
    var n := DayNumber(d);
    DayNumberNext(d);
    assert Weekday(NextDay(d)) == (n + 1 + 6) % 7;
    ModSevenShift(n + 6, 1);
  }

  lemma ModSevenShift(a: int, k: int)
    ensures (a + k) % 7 == (a % 7 + k) % 7
  {
  }

  /** Within one month, the weekday moves with the day of the month. */
  lemma WeekdayInMonth(y: int, m: int, k: int)
    requires ValidDate(Date(y, m, 1)) && 0 <= k < DaysInMonth(y, m)
    ensures ValidDate(Date(y, m, 1 + k))
    ensures Weekday(Date(y, m, 1 + k)) == (Weekday(Date(y, m, 1)) + k) % 7
  {
    var n := DayNumber(Date(y, m, 1));
    assert DayNumber(Date(y, m, 1 + k)) == n + k;
    ModSevenShift(n + 6, k);
  }

  /** A fixed point of the calendar: 1 January 2024 was a Monday. */
  lemma KnownWeekday()
    ensures Weekday(Date(2024, 1, 1)) == 1
  {
  }

  /** The year as `yyyy` renders it: at least four digits. */
  function YearString(y: int): (r: string)
    requires y >= 0
    ensures AllDigits(r) && |r| >= 4
    ensures y < 10000 ==> |r| == 4
  {
    if y < 10000 then PadDigits(y, 4)
    else
      NatToStringLength(y, 4);
      NatToString(y)
  }

  /** `format(d, 'yyyy-MM-dd')`. */
  function IsoString(d: Date): (r: string)
    requires ValidDate(d)
    ensures |r| >= 10 && r[|r| - 6] == '-' && r[|r| - 3] == '-'
    ensures d.year < 10000 ==> |r| == 10
  {
    YearString(d.year) + "-" + PadDigits(d.month, 2) + "-" + PadDigits(d.day, 2)
  }

  /** `new Date(s)` for a date-only string: defined for exactly the
      strings `yyyy-MM-dd` that name a day of the calendar. */
  function ParseIso(s: string): (r: Option<Date>)
    ensures r.Some? ==> ValidDate(r.value) && r.value.year < 10000
  {
    if |s| == 10 && s[4] == '-' && s[7] == '-'
       && AllDigits(s[..4]) && AllDigits(s[5..7]) && AllDigits(s[8..])
    then
      PadParsedDigits(s[..4]);
      assert Pow10(4) == 10000;
      var d := Date(ParseNat(s[..4]), ParseNat(s[5..7]), ParseNat(s[8..]));
      if ValidDate(d) then Some(d) else None
    else None
  }

  /** Rendering then parsing gives back the day. */
  lemma ParseIsoString(d: Date)
    requires ValidDate(d) && d.year < 10000
    ensures ParseIso(IsoString(d)) == Some(d)
  {
    var s := IsoString(d);
    assert s[..4] == PadDigits(d.year, 4);
    assert s[5..7] == PadDigits(d.month, 2);
    assert s[8..] == PadDigits(d.day, 2);
    ParsePadDigits(d.year, 4);
    ParsePadDigits(d.month, 2);
    ParsePadDigits(d.day, 2);
  }

  /** Every digit string is the padded rendering of its value. */
  lemma {:induction false} PadParsedDigits(t: string)
    requires AllDigits(t)
    ensures ParseNat(t) < Pow10(|t|)
    ensures PadDigits(ParseNat(t), |t|) == t
  {
    if |t| > 0 {
      var init := t[..|t| - 1];
      PadParsedDigits(init);
      var n := ParseNat(t);
      assert n / 10 == ParseNat(init);
      assert n % 10 == DigitValue(t[|t| - 1]);
      assert t == init + [t[|t| - 1]];
    }
  }

  /** Parsing then rendering gives back the string: the parser accepts only
      canonical renderings. */
  lemma IsoStringOfParse(s: string)
    requires ParseIso(s).Some?
    ensures IsoString(ParseIso(s).value) == s
  {
    var d := ParseIso(s).value;
    PadParsedDigits(s[..4]);
    PadParsedDigits(s[5..7]);
    PadParsedDigits(s[8..]);
    assert s == s[..4] + "-" + s[5..7] + "-" + s[8..];
  }

  /** Two days with the same ISO rendering are the same day. */
  lemma IsoStringInjective(a: Date, b: Date)
    requires ValidDate(a) && ValidDate(b) && a.year < 10000 && b.year < 10000
    ensures IsoString(a) == IsoString(b) <==> a == b
  {
    ParseIsoString(a);
    ParseIsoString(b);
  }
}
