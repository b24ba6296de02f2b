/** The price calendar dialog (src/components/fare/DailyFaresCalendarModal.tsx):
    the day range it asks the daily-fares endpoint for, the months it
    lays out, the grid of each month, and what a chosen day does. The
    current day is a parameter. */
module CalendarModal {
  import opened Optional
  import opened Seqs
  import opened Calendar
  import opened Types
  import opened QueryPolicy
  import opened FareQueries
  import opened FareCard

  /** The dialog's inputs; `currency` is `None` when not passed. */
  datatype ModalProps = ModalProps(
    isOpen: bool,
    origin: Option<Airport>,
    destination: Option<Airport>,
    selectedDate: Option<Date>,
    startDate: Option<Date>,
    endDate: Option<Date>,
    currency: Option<string>)

  predicate PropsDatesValid(p: ModalProps) {
    (p.selectedDate.Some? ==> ValidDate(p.selectedDate.value))
    && (p.startDate.Some? ==> ValidDate(p.startDate.value))
    && (p.endDate.Some? ==> ValidDate(p.endDate.value))
  }

  /** Range mode: both ends of a range were passed in. */
  predicate RangeMode(p: ModalProps) {
    p.startDate.Some? && p.endDate.Some?
  }

  /** The day the single-search layout centres on: the selected day, or
      today. */
  function BaseDate(p: ModalProps, today: Date): (d: Date)
    ensures p.selectedDate.Some? ==> d == p.selectedDate.value
    ensures p.selectedDate.None? ==> d == today
  {
    p.selectedDate.GetOr(today)
  }

  /** The first and last day requested from the endpoint: the given range,
      or the base day's month and the next one, whole. */
  function ApiRange(p: ModalProps, today: Date): (r: (Date, Date))
    requires PropsDatesValid(p) && ValidDate(today)
    ensures ValidDate(r.0) && ValidDate(r.1)
    ensures RangeMode(p) ==> r == (p.startDate.value, p.endDate.value)
    ensures !RangeMode(p) ==>
      r.0 == MonthStart(MonthIndex(BaseDate(p, today)))
      && MonthIndex(r.1) == MonthIndex(BaseDate(p, today)) + 1
      && r.1.day == DaysInMonth(r.1.year, r.1.month)
  {
    if RangeMode(p) then (p.startDate.value, p.endDate.value)
    else
      var base := BaseDate(p, today);
      (StartOfMonth(base), EndOfMonth(AddMonths(base, 1)))
  }

  /** The parameters of the daily-fares query. */
  function RangeParams(p: ModalProps, today: Date): (q: DailyRangeParams)
    requires PropsDatesValid(p) && ValidDate(today)
    ensures q.from == (if p.origin.Some? then p.origin.value.code else "")
    ensures q.to == (if p.destination.Some? then p.destination.value.code else "")
    ensures q.startDate == IsoString(ApiRange(p, today).0)
    ensures q.endDate == IsoString(ApiRange(p, today).1)
    ensures q.currency == Some(p.currency.GetOr("EUR"))
  {
    var r := ApiRange(p, today);
    DailyRangeParams(
      if p.origin.Some? then p.origin.value.code else "",
      if p.destination.Some? then p.destination.value.code else "",
      IsoString(r.0), IsoString(r.1), Some(p.currency.GetOr("EUR")))
  }

  /** The daily-fares query: the dialog's own `enabled` replaces the hook's
      checks. */
  function RangeQuery(p: ModalProps, today: Date): (c: QueryConfig)
    requires PropsDatesValid(p) && ValidDate(today)
    ensures c.key == DailyRangeKey(RangeParams(p, today))
    ensures c.enabled <==> p.isOpen && p.origin.Some? && p.destination.Some?
    ensures c.staleTimeMs == 10 * MinuteMs
  {
    DailyRangeQuery(RangeParams(p, today), EnabledOnly(p.isOpen && p.origin.Some? && p.destination.Some?))
  }

  /** Because of that override, an open dialog in range mode fetches a
      range longer than the six months the hook would allow. */
  lemma LongRangeIsFetched(p: ModalProps, today: Date)
    requires PropsDatesValid(p) && ValidDate(today) && RangeMode(p)
    requires p.isOpen && p.origin.Some? && p.destination.Some?
    requires p.startDate.value.year < 10000 && p.endDate.value.year < 10000
    requires MonthIndex(p.endDate.value) - MonthIndex(p.startDate.value) > 6
    ensures RangeQuery(p, today).enabled
    ensures !DailyRangeEnabled(RangeParams(p, today))
  {
    DateRangeOnDays(p.startDate.value, p.endDate.value);
  }

  /** `getFareForDate` of the dialog: the first entry for the day, bookable
      or not; nothing before data arrives. */
  function FareOfDay(data: Option<seq<DayFare>>, d: Date): (r: Option<DayFare>)
    requires ValidDate(d)
    ensures data.None? ==> r.None?
    ensures r.Some? ==> r.value in data.value && r.value.day == IsoString(d)
    ensures r.Some? ==> exists i :: 0 <= i < |data.value| && data.value[i] == r.value
                                    && forall j :: 0 <= j < i ==> data.value[j].day != IsoString(d)
    ensures data.Some? && r.None? ==> forall f :: f in data.value ==> f.day != IsoString(d)
  {
    if data.None? then None
    else
      var p := (f: DayFare) => f.day == IsoString(d);
      var r := Find(data.value, p);
      if r.Some? then
        FindFound(data.value, p);
        assert exists i :: 0 <= i < |data.value| && data.value[i] == r.value
                           && forall j :: 0 <= j < i ==> data.value[j].day != IsoString(d) by {
          var i :| FirstMatchAt(data.value, p, i) && data.value[i] == r.value;
          assert forall j :: 0 <= j < i ==> !p(data.value[j]);
        }
        r
      else r
  }

  /** Of several entries for the day, the earliest listed is taken, whether
      or not it can be booked. */
  lemma FareOfDayIsFirst(fares: seq<DayFare>, d: Date, i: int)
    requires ValidDate(d)
    requires 0 <= i < |fares| && fares[i].day == IsoString(d)
    requires forall j :: 0 <= j < i ==> fares[j].day != IsoString(d)
    ensures FareOfDay(Some(fares), d) == Some(fares[i])
  {
    var r := FareOfDay(Some(fares), d);
    assert fares[i] in fares;
    var k :| 0 <= k < |fares| && fares[k] == r.value
             && forall j :: 0 <= j < k ==> fares[j].day != IsoString(d);
    assert k == i;
  }

  /** `n` consecutive month starts from month index `first`. */
  function MonthsFrom(first: nat, n: nat): (r: seq<Date>)
    ensures |r| == n
    ensures forall i :: 0 <= i < n ==> r[i] == MonthStart(first + i)
  {
    seq(n, i requires 0 <= i < n => MonthStart(first + i))
  }

  /** One more month appends the next month start. */
  lemma MonthsFromSnoc(first: nat, n: nat)
    ensures MonthsFrom(first, n + 1) == MonthsFrom(first, n) + [MonthStart(first + n)]
  {
  }

  /** The months of range mode, as a reference: every month from the
      start's to the end's. */
  function MonthsInRange(start: Date, end: Date): (r: seq<Date>)
    requires ValidDate(start) && ValidDate(end)
    ensures |r| == if MonthIndex(start) <= MonthIndex(end) then MonthIndex(end) - MonthIndex(start) + 1 else 0
  {
    MonthsFrom(MonthIndex(start), if MonthIndex(start) <= MonthIndex(end) then MonthIndex(end) - MonthIndex(start) + 1 else 0)
  }

  /** The loop of range mode: from the start's month, add a month while not
      past the end's month. */
  method RangeMonths(start: Date, end: Date) returns (months: seq<Date>)
    requires ValidDate(start) && ValidDate(end)
    ensures months == MonthsInRange(start, end)
  {
    var cur := StartOfMonth(start);
    var last := StartOfMonth(end);
    ghost var first := MonthIndex(start);
    months := [];
    while NotAfter(cur, last)
      invariant cur == MonthStart(first + |months|)
      invariant |months| == 0 || first + |months| <= MonthIndex(last) + 1
      invariant months == MonthsFrom(first, |months|)
      decreases MonthIndex(last) + 1 - (first + |months|)
    {
      RangeStep(first, |months|, last);
      months := months + [cur];
      cur := NextMonthStart(cur);
    }
    RangeExit(first, |months|, last);
  }

  /** One turn of the range loop: a month start not after the last one lies
      in the range, extends the list by one, and steps to the next month. */
  lemma RangeStep(first: nat, n: nat, last: Date)
    requires ValidDate(last)
    requires NotAfter(MonthStart(first + n), last)
    ensures first + n <= MonthIndex(last)
    ensures MonthsFrom(first, n) + [MonthStart(first + n)] == MonthsFrom(first, n + 1)
  {
    MonthIndexOrder(MonthStart(first + n), last);
    MonthsFromSnoc(first, n);
  }

  /** `addMonths(cur, 1)` on the first day of a month: the next month's
      first day. */
  function NextMonthStart(cur: Date): (r: Date)
    requires ValidDate(cur) && cur.day == 1
    ensures r == MonthStart(MonthIndex(cur) + 1)
  {
    MonthIndexOrder(cur, MonthStart(MonthIndex(cur)));
    AddMonthToMonthStart(MonthIndex(cur));
    AddMonths(cur, 1)
  }

  /** The range loop stops exactly when every month up to the last one has
      been added, or at once when the first month is already past it. */
  lemma RangeExit(first: nat, n: nat, last: Date)
    requires ValidDate(last)
    requires !NotAfter(MonthStart(first + n), last)
    requires n == 0 || first + n <= MonthIndex(last) + 1
    ensures n == if first <= MonthIndex(last) then MonthIndex(last) - first + 1 else 0
  {
    MonthIndexOrder(last, MonthStart(first + n));
  }

  /** The months of single-search mode: the base day's month and the next. */
  function SingleMonths(base: Date): (r: seq<Date>)
    requires ValidDate(base)
    ensures |r| == 2
    ensures r[0] == MonthStart(MonthIndex(base)) && r[1] == MonthStart(MonthIndex(base) + 1)
  {
    var current := StartOfMonth(base);
    AddMonthToMonthStart(MonthIndex(base));
    [current, AddMonths(current, 1)]
  }

  /** The months laid out: all months of the range, or two months. */
  function Months(p: ModalProps, today: Date): (r: seq<Date>)
    requires PropsDatesValid(p) && ValidDate(today)
  {
    if RangeMode(p) then MonthsInRange(p.startDate.value, p.endDate.value)
    else SingleMonths(BaseDate(p, today))
  }

  /** Every day of a range falls in one of the months laid out. */
  lemma RangeDayIsLaidOut(start: Date, end: Date, d: Date)
    requires ValidDate(start) && ValidDate(end) && ValidDate(d)
    requires NotAfter(start, d) && NotAfter(d, end)
    ensures 0 <= MonthIndex(d) - MonthIndex(start) < |MonthsInRange(start, end)|
    ensures MonthsInRange(start, end)[MonthIndex(d) - MonthIndex(start)] == StartOfMonth(d)
  {
    MonthIndexOrder(start, d);
    MonthIndexOrder(d, end);
  }

  /** In single-search mode the request covers exactly the two months laid
      out: from the first day of the first to the last day of the second. */
  lemma SingleModeRequestMatchesMonths(p: ModalProps, today: Date)
    requires PropsDatesValid(p) && ValidDate(today) && !RangeMode(p)
    ensures ApiRange(p, today).0 == Months(p, today)[0]
    ensures MonthIndex(ApiRange(p, today).1) == MonthIndex(Months(p, today)[1])
    ensures ApiRange(p, today).1 == EndOfMonth(Months(p, today)[1])
  {
    var r := ApiRange(p, today);
    var m := Months(p, today)[1];
    MonthIndexOrder(r.1, m);
  }

  /** A cell of a month grid: a blank before the first day, or a day. */
  function MonthGrid(monthStart: Date): (g: seq<Option<Date>>)
    requires ValidDate(monthStart) && monthStart.day == 1
    ensures |g| == Weekday(monthStart) + DaysInMonth(monthStart.year, monthStart.month)
    ensures forall i :: 0 <= i < Weekday(monthStart) ==> g[i].None?
    ensures forall i :: Weekday(monthStart) <= i < |g| ==>
      g[i] == Some(Date(monthStart.year, monthStart.month, i - Weekday(monthStart) + 1))
  {
    var blanks := seq(Weekday(monthStart), _ => None);
    var n := DaysInMonth(monthStart.year, monthStart.month);
    var days := seq(n, k requires 0 <= k < n => Some(Date(monthStart.year, monthStart.month, k + 1)));
    blanks + days
  }

  /** Each day sits in the column of its weekday, under the matching
      Sun…Sat header. */
  lemma GridColumnIsWeekday(monthStart: Date, i: int)
    requires ValidDate(monthStart) && monthStart.day == 1
    requires 0 <= i < |MonthGrid(monthStart)| && MonthGrid(monthStart)[i].Some?
    ensures ValidDate(MonthGrid(monthStart)[i].value)
    ensures i % 7 == Weekday(MonthGrid(monthStart)[i].value)
  {
    var k := i - Weekday(monthStart);
    WeekdayInMonth(monthStart.year, monthStart.month, k);
  }

  /** `isWithinRange`: in range mode, between the ends inclusive. */
  predicate WithinRange(p: ModalProps, d: Date) {
    RangeMode(p) ==> NotAfter(p.startDate.value, d) && NotAfter(d, p.endDate.value)
  }

  /** `isSelected`: the day renders like the selected day. */
  predicate IsSelectedDay(p: ModalProps, d: Date)
    requires PropsDatesValid(p) && ValidDate(d)
  {
    p.selectedDate.Some? && IsoString(d) == IsoString(p.selectedDate.value)
  }

  /** For days of the four-digit years, comparing renderings is comparing
      days. */
  lemma IsSelectedDayIff(p: ModalProps, d: Date)
    requires PropsDatesValid(p) && ValidDate(d) && d.year < 10000
    requires p.selectedDate.Some? ==> p.selectedDate.value.year < 10000
    ensures IsSelectedDay(p, d) <==> p.selectedDate == Some(d)
  {
    if p.selectedDate.Some? {
      IsoStringInjective(d, p.selectedDate.value);
    }
  }

  /** What a non-blank cell renders. */
  datatype DayCell = OutOfRange(day: Date) | DayCard(card: Card)

  function CellOf(p: ModalProps, data: Option<seq<DayFare>>, loading: bool, d: Date): (c: DayCell)
    requires PropsDatesValid(p) && ValidDate(d)
    ensures c.OutOfRange? <==> !WithinRange(p, d)
    ensures c.DayCard? ==> c.card.date == d && c.card.fare == FareOfDay(data, d)
                           && c.card.loading == loading && !c.card.disabled
                           && (c.card.selected <==> IsSelectedDay(p, d))
  {
    if !WithinRange(p, d) then OutOfRange(d)
    else DayCard(Card(d, FareOfDay(data, d), IsSelectedDay(p, d), loading, false))
  }

  /** Choosing a day: the parent receives it and the dialog closes. */
  datatype Choice = Choice(chosen: Option<Date>, closed: bool)

  function ChooseDay(p: ModalProps, data: Option<seq<DayFare>>, loading: bool, d: Date, today: Date): (r: Choice)
    requires PropsDatesValid(p) && ValidDate(d)
    ensures r.chosen.Some? <==> r.closed
    ensures r.chosen.Some? ==> r.chosen.value == d && WithinRange(p, d) && NotAfter(today, d)
  {
    match CellOf(p, data, loading, d)
    case OutOfRange(_) => Choice(None, false)
    case DayCard(card) =>
      var clicked := Click(card, today);
      Choice(clicked, clicked.Some?)
  }

  /** A day can be chosen only when its first entry is a valid fare, and
      only once the fares have arrived. */
  lemma ChosenDayHasFare(p: ModalProps, data: Option<seq<DayFare>>, loading: bool, d: Date, today: Date)
    requires PropsDatesValid(p) && ValidDate(d)
    requires ChooseDay(p, data, loading, d, today).chosen.Some?
    ensures data.Some? && HasValidFare(FareOfDay(data, d))
  {
  }
}
