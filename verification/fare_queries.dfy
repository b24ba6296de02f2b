/** The fare query hooks (src/hooks/useFares.ts): query keys, enable
    predicates, time budgets, the retry classifier, and `useFareSearch`,
    which picks the one-way or the round-trip query for a search. */
module FareQueries {
  import opened Optional
  import opened Text
  import opened Calendar
  import opened Types
  import opened QueryPolicy

  /** `fareKeys.all`. */
  function FaresRoot(): QueryKey {
    [Word("fares")]
  }

  /** An optional field of a parameter object: present only when defined. */
  function OptionalField(name: string, v: Option<string>): map<string, string> {
    if v.Some? then map[name := v.value] else map[]
  }

  function FareSearchRecord(p: FareSearchParams): map<string, string> {
    map["from" := p.from, "to" := p.to, "startDate" := p.startDate]
      + OptionalField("endDate", p.endDate) + OptionalField("currency", p.currency)
  }

  function DailyRangeRecord(p: DailyRangeParams): map<string, string> {
    map["from" := p.from, "to" := p.to, "startDate" := p.startDate, "endDate" := p.endDate]
      + OptionalField("currency", p.currency)
  }

  function RoundTripRecord(p: RoundTripParams): map<string, string> {
    map["from" := p.from, "to" := p.to, "outboundDate" := p.outboundDate, "inboundDate" := p.inboundDate]
      + OptionalField("currency", p.currency)
  }

  /** `fareKeys.cheapestPerDay(params)`. */
  function CheapestPerDayKey(p: FareSearchParams): (k: QueryKey)
    ensures HasPrefix(k, FaresRoot()) && |k| == 3
  {
    [Word("fares"), Word("cheapest-per-day"), Record(FareSearchRecord(p))]
  }

  /** `fareKeys.dailyRange(params)`. */
  function DailyRangeKey(p: DailyRangeParams): (k: QueryKey)
    ensures HasPrefix(k, FaresRoot()) && |k| == 3
  {
    [Word("fares"), Word("daily-range"), Record(DailyRangeRecord(p))]
  }

  /** `fareKeys.roundTrip(params)`. */
  function RoundTripKey(p: RoundTripParams): (k: QueryKey)
    ensures HasPrefix(k, FaresRoot()) && |k| == 3
  {
    [Word("fares"), Word("round-trip"), Record(RoundTripRecord(p))]
  }

  /** Reading an optional field back out of its map. */
  lemma OptionalFieldBack(name: string, v: Option<string>, rest: map<string, string>)
    requires name !in rest
    ensures name in rest + OptionalField(name, v) <==> v.Some?
    ensures v.Some? ==> (rest + OptionalField(name, v))[name] == v.value
  {
  }

  /** Two one-way keys are equal exactly when their parameters are:
      distinct searches never share a cache entry, equal ones always do. */
  lemma CheapestPerDayKeyInjective(p: FareSearchParams, q: FareSearchParams)
    ensures CheapestPerDayKey(p) == CheapestPerDayKey(q) <==> p == q
  {
    if CheapestPerDayKey(p) == CheapestPerDayKey(q) {
      var m, n := FareSearchRecord(p), FareSearchRecord(q);
      assert m == n;
      var mb := map["from" := p.from, "to" := p.to, "startDate" := p.startDate];
      var nb := map["from" := q.from, "to" := q.to, "startDate" := q.startDate];
      OptionalFieldBack("endDate", p.endDate, mb);
      OptionalFieldBack("endDate", q.endDate, nb);
      var mc, nc := mb + OptionalField("endDate", p.endDate), nb + OptionalField("endDate", q.endDate);
      OptionalFieldBack("currency", p.currency, mc);
      OptionalFieldBack("currency", q.currency, nc);
      assert m["from"] == p.from && n["from"] == q.from;
      assert m["to"] == p.to && n["to"] == q.to;
      assert m["startDate"] == p.startDate && n["startDate"] == q.startDate;
      assert "endDate" in m <==> "endDate" in mc;
      assert "endDate" in n <==> "endDate" in nc;
      assert p.endDate.Some? ==> m["endDate"] == mc["endDate"];
      assert q.endDate.Some? ==> n["endDate"] == nc["endDate"];
    }
  }

  /** Two daily-range keys are equal exactly when their parameters are. */
  lemma DailyRangeKeyInjective(d: DailyRangeParams, e: DailyRangeParams)
    ensures DailyRangeKey(d) == DailyRangeKey(e) <==> d == e
  {
    if DailyRangeKey(d) == DailyRangeKey(e) {
      var m, n := DailyRangeRecord(d), DailyRangeRecord(e);
      assert m == n;
      var mb := map["from" := d.from, "to" := d.to, "startDate" := d.startDate, "endDate" := d.endDate];
      var nb := map["from" := e.from, "to" := e.to, "startDate" := e.startDate, "endDate" := e.endDate];
      OptionalFieldBack("currency", d.currency, mb);
      OptionalFieldBack("currency", e.currency, nb);
      assert m["from"] == d.from && n["from"] == e.from;
      assert m["to"] == d.to && n["to"] == e.to;
      assert m["startDate"] == d.startDate && n["startDate"] == e.startDate;
      assert m["endDate"] == d.endDate && n["endDate"] == e.endDate;
    }
  }

  /** Two round-trip keys are equal exactly when their parameters are. */
  lemma RoundTripKeyInjective(r: RoundTripParams, s: RoundTripParams)
    ensures RoundTripKey(r) == RoundTripKey(s) <==> r == s
  {
    if RoundTripKey(r) == RoundTripKey(s) {
      var m, n := RoundTripRecord(r), RoundTripRecord(s);
      assert m == n;
      var mb := map["from" := r.from, "to" := r.to, "outboundDate" := r.outboundDate, "inboundDate" := r.inboundDate];
      var nb := map["from" := s.from, "to" := s.to, "outboundDate" := s.outboundDate, "inboundDate" := s.inboundDate];
      OptionalFieldBack("currency", r.currency, mb);
      OptionalFieldBack("currency", s.currency, nb);
      assert m["from"] == r.from && n["from"] == s.from;
      assert m["to"] == r.to && n["to"] == s.to;
      assert m["outboundDate"] == r.outboundDate && n["outboundDate"] == s.outboundDate;
      assert m["inboundDate"] == r.inboundDate && n["inboundDate"] == s.inboundDate;
    }
  }

  /** The second component separates the families, even where two parameter
      objects happen to carry the same fields. */
  lemma FareKeyFamiliesDistinct(p: FareSearchParams, d: DailyRangeParams, r: RoundTripParams)
    ensures CheapestPerDayKey(p) != DailyRangeKey(d)
    ensures CheapestPerDayKey(p) != RoundTripKey(r)
    ensures DailyRangeKey(d) != RoundTripKey(r)
  {
    assert CheapestPerDayKey(p)[1] != DailyRangeKey(d)[1];
    assert CheapestPerDayKey(p)[1] != RoundTripKey(r)[1];
    assert DailyRangeKey(d)[1] != RoundTripKey(r)[1];
  }

  /** Default enablement of `useCheapestFarePerDay`. */
  predicate CheapestPerDayEnabled(p: FareSearchParams) {
    p.from != "" && p.to != "" && p.startDate != "" && p.from != p.to
  }

  /** `isValidDateRange` of `useDailyFareRange`: both dates parse, the start
      is not after the end, and the calendar-month difference (day of month
      ignored) is at most six. */
  predicate IsValidDateRange(startDate: string, endDate: string) {
    if startDate == "" || endDate == "" then false
    else
      match (ParseIso(startDate), ParseIso(endDate))
      case (Some(s), Some(e)) =>
        NotAfter(s, e) && (e.year - s.year) * 12 + (e.month - s.month) <= 6
      case _ => false
  }

  /** On rendered days the range check is a statement about months: the
      start is not after the end and at most six calendar months apart. */
  lemma DateRangeOnDays(s: Date, e: Date)
    requires ValidDate(s) && ValidDate(e) && s.year < 10000 && e.year < 10000
    ensures IsValidDateRange(IsoString(s), IsoString(e))
        <==> NotAfter(s, e) && MonthIndex(e) - MonthIndex(s) <= 6
  {
    ParseIsoString(s);
    ParseIsoString(e);
  }

  /** Missing dates never form a valid range. */
  lemma DateRangeNeedsBothDates(startDate: string, endDate: string)
    requires startDate == "" || endDate == ""
    ensures !IsValidDateRange(startDate, endDate)
  {
  }

  /** The six-month rule counts calendar months: from 2024-01-01, the
      range to 2024-06-01 passes and the range to 2024-08-01 fails; because
      the day of month is ignored, the range to 2024-07-31 (seven months
      less a day) passes; a reversed range fails. */
  lemma DateRangeExamples(jan1: Date, jun1: Date, jul31: Date, aug1: Date)
    requires jan1 == Date(2024, 1, 1) && jun1 == Date(2024, 6, 1)
    requires jul31 == Date(2024, 7, 31) && aug1 == Date(2024, 8, 1)
    ensures IsValidDateRange(IsoString(jan1), IsoString(jun1))
    ensures !IsValidDateRange(IsoString(jan1), IsoString(aug1))
    ensures IsValidDateRange(IsoString(jan1), IsoString(jul31))
    ensures !IsValidDateRange(IsoString(jun1), IsoString(jan1))
  {
    DateRangeOnDays(jan1, jun1);
    DateRangeOnDays(jan1, aug1);
    DateRangeOnDays(jan1, jul31);
    DateRangeOnDays(jun1, jan1);
  }

  /** Default enablement of `useDailyFareRange`. */
  predicate DailyRangeEnabled(p: DailyRangeParams) {
    p.from != "" && p.to != "" && p.startDate != "" && p.endDate != ""
    && p.from != p.to && IsValidDateRange(p.startDate, p.endDate)
  }

  /** Default enablement of `useRoundTripFares`: the outbound day must not
      follow the inbound day (a date that does not parse compares false). */
  predicate RoundTripEnabled(p: RoundTripParams) {
    p.from != "" && p.to != "" && p.outboundDate != "" && p.inboundDate != ""
    && p.from != p.to
    && match (ParseIso(p.outboundDate), ParseIso(p.inboundDate))
       case (Some(o), Some(i)) => NotAfter(o, i)
       case _ => false
  }

  /** On rendered days the round-trip predicate is: two distinct airports
      and an outbound day not after the inbound day. */
  lemma RoundTripEnabledOnDays(from: string, to: string, o: Date, i: Date, currency: Option<string>)
    requires ValidDate(o) && ValidDate(i) && o.year < 10000 && i.year < 10000
    ensures RoundTripEnabled(RoundTripParams(from, to, IsoString(o), IsoString(i), currency))
        <==> from != "" && to != "" && from != to && NotAfter(o, i)
  {
    ParseIsoString(o);
    ParseIsoString(i);
  }

  /** The retry classifier of all three fare hooks. */
  function FareRetryRule(): (r: RetryRule)
    ensures r.limit == 2
  {
    RetryUnlessMessageHas(["400", "404"], 2)
  }

  /** A message mentioning 400 or 404 is never retried; anything else is
      retried on the first two failures only. */
  lemma FareRetryClassifies(failureCount: nat, message: string)
    ensures Contains(message, "400") || Contains(message, "404")
        ==> !ShouldRetry(FareRetryRule(), failureCount, message)
    ensures !Contains(message, "400") && !Contains(message, "404")
        ==> (ShouldRetry(FareRetryRule(), failureCount, message) <==> failureCount < 2)
  {
    var needles := FareRetryRule().needles;
    assert needles[0] == "400" && needles[1] == "404";
    if Contains(message, "400") {
      assert MentionsAny(message, needles);
    }
    if Contains(message, "404") {
      assert MentionsAny(message, needles);
    }
  }

  /** The comment beside the classifier speaks of all 4xx errors, but only
      the substrings 400 and 404 are checked: a 403 is retried. */
  lemma ForbiddenIsRetried()
    ensures ShouldRetry(FareRetryRule(), 0, "HTTP 403")
  {
    var m := "HTTP 403";
    forall i | 0 <= i <= |m| - 3
      ensures !OccursAt(m, "400", i) && !OccursAt(m, "404", i)
    {
      assert m[i..i + 3][0] == m[i] && m[i..i + 3][2] == m[i + 2];
    }
    assert !Contains(m, "400");
    assert !Contains(m, "404");
    FareRetryClassifies(0, m);
  }

  /** `useCheapestFarePerDay(params, options)`. */
  function CheapestPerDayQuery(p: FareSearchParams, options: Overrides): (c: QueryConfig)
    ensures c.key == CheapestPerDayKey(p)
    ensures c.enabled == options.enabled.GetOr(CheapestPerDayEnabled(p))
    ensures options == NoOverrides() ==>
      c.staleTimeMs == 5 * MinuteMs && c.gcTimeMs == Some(15 * MinuteMs) && c.retry == Some(FareRetryRule())
  {
    Apply(QueryConfig(CheapestPerDayKey(p), CheapestPerDayEnabled(p), 5 * MinuteMs,
                      Some(15 * MinuteMs), Some(FareRetryRule()), None, None), options)
  }

  /** `useDailyFareRange(params, options)`. */
  function DailyRangeQuery(p: DailyRangeParams, options: Overrides): (c: QueryConfig)
    ensures c.key == DailyRangeKey(p)
    ensures c.enabled == options.enabled.GetOr(DailyRangeEnabled(p))
    ensures options == NoOverrides() ==>
      c.staleTimeMs == 10 * MinuteMs && c.gcTimeMs == Some(30 * MinuteMs) && c.retry == Some(FareRetryRule())
      && c.refetchOnWindowFocus == Some(false) && c.refetchOnMount == Some(false)
  {
    Apply(QueryConfig(DailyRangeKey(p), DailyRangeEnabled(p), 10 * MinuteMs,
                      Some(30 * MinuteMs), Some(FareRetryRule()), Some(false), Some(false)), options)
  }

  /** `useRoundTripFares(params, options)`. */
  function RoundTripQuery(p: RoundTripParams, options: Overrides): (c: QueryConfig)
    ensures c.key == RoundTripKey(p)
    ensures c.enabled == options.enabled.GetOr(RoundTripEnabled(p))
    ensures options == NoOverrides() ==>
      c.staleTimeMs == 5 * MinuteMs && c.gcTimeMs == Some(15 * MinuteMs) && c.retry == Some(FareRetryRule())
  {
    Apply(QueryConfig(RoundTripKey(p), RoundTripEnabled(p), 5 * MinuteMs,
                      Some(15 * MinuteMs), Some(FareRetryRule()), None, None), options)
  }

  /** Fare data is kept in the cache at least as long as it stays fresh. */
  lemma FareCacheOutlivesFreshness(p: FareSearchParams, d: DailyRangeParams, r: RoundTripParams)
    ensures CheapestPerDayQuery(p, NoOverrides()).gcTimeMs.value >= CheapestPerDayQuery(p, NoOverrides()).staleTimeMs
    ensures DailyRangeQuery(d, NoOverrides()).gcTimeMs.value >= DailyRangeQuery(d, NoOverrides()).staleTimeMs
    ensures RoundTripQuery(r, NoOverrides()).gcTimeMs.value >= RoundTripQuery(r, NoOverrides()).staleTimeMs
  {
  }

  /** The arguments of `useFareSearch`; `None` is `undefined`. */
  datatype FareSearchInput = FareSearchInput(
    from: Option<string>,
    to: Option<string>,
    departureDate: Option<string>,
    returnDate: Option<string>,
    tripType: TripType,
    currency: Option<string>)

  /** The currency after the `= 'EUR'` default of the destructuring, which
      replaces `undefined` only. */
  function SearchCurrency(input: FareSearchInput): (c: string)
    ensures input.currency.None? ==> c == "EUR"
    ensures input.currency.Some? ==> c == input.currency.value
  {
    input.currency.GetOr("EUR")
  }

  /** `oneWayParams` of `useFareSearch`. */
  function OneWayParams(input: FareSearchInput): (p: FareSearchParams)
    ensures p.from == OrEmpty(input.from) && p.to == OrEmpty(input.to)
    ensures p.startDate == OrEmpty(input.departureDate)
    ensures p.endDate.None? && p.currency == Some(SearchCurrency(input))
  {
    FareSearchParams(OrEmpty(input.from), OrEmpty(input.to), OrEmpty(input.departureDate),
                     None, Some(SearchCurrency(input)))
  }

  /** `roundTripParams` of `useFareSearch`. */
  function RoundTripParamsOf(input: FareSearchInput): (p: RoundTripParams)
    ensures p.from == OrEmpty(input.from) && p.to == OrEmpty(input.to)
    ensures p.outboundDate == OrEmpty(input.departureDate)
    ensures p.inboundDate == OrEmpty(input.returnDate)
    ensures p.currency == Some(SearchCurrency(input))
  {
    RoundTripParams(OrEmpty(input.from), OrEmpty(input.to), OrEmpty(input.departureDate),
                    OrEmpty(input.returnDate), Some(SearchCurrency(input)))
  }

  /** The one-way query of `useFareSearch`: its `enabled` option replaces
      the hook's own predicate. */
  function OneWayQueryOf(input: FareSearchInput): (c: QueryConfig)
    ensures c.key == CheapestPerDayKey(OneWayParams(input))
    ensures c.enabled <==> (input.tripType == OneWay
                            && Truthy(input.from) && Truthy(input.to) && Truthy(input.departureDate))
  {
    CheapestPerDayQuery(OneWayParams(input), EnabledOnly(
      input.tripType == OneWay && Truthy(input.from) && Truthy(input.to) && Truthy(input.departureDate)))
  }

  /** The round-trip query of `useFareSearch`. */
  function RoundTripQueryOf(input: FareSearchInput): (c: QueryConfig)
    ensures c.key == RoundTripKey(RoundTripParamsOf(input))
    ensures c.enabled <==> (input.tripType == RoundTrip
                            && Truthy(input.from) && Truthy(input.to)
                            && Truthy(input.departureDate) && Truthy(input.returnDate))
  {
    RoundTripQuery(RoundTripParamsOf(input), EnabledOnly(
      input.tripType == RoundTrip && Truthy(input.from) && Truthy(input.to)
      && Truthy(input.departureDate) && Truthy(input.returnDate)))
  }

  /** A search never fetches both kinds of fare at once. */
  lemma AtMostOneSearchQuery(input: FareSearchInput)
    ensures !(OneWayQueryOf(input).enabled && RoundTripQueryOf(input).enabled)
  {
  }

  /** The override drops the hook's own checks: a one-way search from an
      airport to itself is fetched, and so is a round trip returning before
      it leaves. */
  lemma SearchOverrideSkipsChecks()
    ensures var i := FareSearchInput(Some("DUB"), Some("DUB"), Some("2024-03-10"), None, OneWay, None);
      OneWayQueryOf(i).enabled && !CheapestPerDayEnabled(OneWayParams(i))
    ensures var o := IsoString(Date(2024, 3, 10));
      var b := IsoString(Date(2024, 3, 1));
      var i := FareSearchInput(Some("DUB"), Some("BCN"), Some(o), Some(b), RoundTrip, None);
      RoundTripQueryOf(i).enabled && !RoundTripEnabled(RoundTripParamsOf(i))
  {
    var o := IsoString(Date(2024, 3, 10));
    var b := IsoString(Date(2024, 3, 1));
    RoundTripEnabledOnDays("DUB", "BCN", Date(2024, 3, 10), Date(2024, 3, 1), Some("EUR"));
  }

  /** The state of one query as a component sees it. */
  datatype QueryState<T> = QueryState(isLoading: bool, error: Option<string>, data: Option<T>)

  /** What a fare search can return. */
  datatype FareData = OneWayFares(fares: CheapestFarePerDay) | RoundTripFares(options: seq<RoundTripOption>)

  /** The object `useFareSearch` returns, less the two raw queries. */
  datatype FareSearchOutcome = FareSearchOutcome(isLoading: bool, error: Option<string>, data: Option<FareData>)

  /** Combines the two queries of `useFareSearch`. */
  function CombineFareSearch(tripType: TripType,
                             oneWay: QueryState<CheapestFarePerDay>,
                             roundTrip: QueryState<seq<RoundTripOption>>): (r: FareSearchOutcome)
    ensures r.isLoading <==> oneWay.isLoading || roundTrip.isLoading
    ensures oneWay.error.Some? ==> r.error == oneWay.error
    ensures oneWay.error.None? ==> r.error == roundTrip.error
    ensures tripType == OneWay ==>
      (r.data.Some? <==> oneWay.data.Some?) && (r.data.Some? ==> r.data.value == OneWayFares(oneWay.data.value))
    ensures tripType != OneWay ==>
      (r.data.Some? <==> roundTrip.data.Some?) && (r.data.Some? ==> r.data.value == RoundTripFares(roundTrip.data.value))
  {
    FareSearchOutcome(
      oneWay.isLoading || roundTrip.isLoading,
      if oneWay.error.Some? then oneWay.error else roundTrip.error,
      if tripType == OneWay then
        (if oneWay.data.Some? then Some(OneWayFares(oneWay.data.value)) else None)
      else
        (if roundTrip.data.Some? then Some(RoundTripFares(roundTrip.data.value)) else None))
  }
}
