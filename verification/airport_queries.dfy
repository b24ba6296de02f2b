/** The airport query hooks (src/hooks/useAirports.ts): one key family under
    `airports`, enable predicates on airport codes, freshness budgets, and the
    retry classifier of the two geolocation lookups. */
module AirportQueries {
  import opened Optional
  import opened Text
  import opened QueryPolicy

  /** `airportKeys.all`. */
  function AirportsRoot(): QueryKey {
    [Word("airports")]
  }

  /** The endpoints the hooks wrap, each with its arguments. */
  datatype AirportRequest =
    | Active
    | Detail(code: string)
    | Closest
    | Nearby
    | Destinations(code: string)
    | Schedules(code: string)
    | Routes(from: string, to: string)

  /** `airportKeys.active()`, `.detail(code)`, … `.routes(from, to)`. */
  function AirportKey(q: AirportRequest): (k: QueryKey)
    ensures HasPrefix(k, AirportsRoot()) && |k| >= 2
  {
    match q
    case Active => [Word("airports"), Word("active")]
    case Detail(code) => [Word("airports"), Word("detail"), Word(code)]
    case Closest => [Word("airports"), Word("closest")]
    case Nearby => [Word("airports"), Word("nearby")]
    case Destinations(code) => [Word("airports"), Word("destinations"), Word(code)]
    case Schedules(code) => [Word("airports"), Word("schedules"), Word(code)]
    case Routes(from, to) => [Word("airports"), Word("routes"), Word(from), Word(to)]
  }

  /** Different requests never share a cache entry: the key determines the
      endpoint and every argument. */
  lemma AirportKeyInjective(q: AirportRequest, r: AirportRequest)
    ensures AirportKey(q) == AirportKey(r) <==> q == r
  {
    if AirportKey(q) == AirportKey(r) {
      assert AirportKey(q)[1] == AirportKey(r)[1];
      assert |AirportKey(q)| == |AirportKey(r)|;
      if |AirportKey(q)| >= 3 {
        assert AirportKey(q)[2] == AirportKey(r)[2];
      }
      if |AirportKey(q)| >= 4 {
        assert AirportKey(q)[3] == AirportKey(r)[3];
      }
    }
  }

  /** The default `enabled` of each hook; hooks without an `enabled` line
      run whenever mounted, the library's default. */
  predicate AirportEnabled(q: AirportRequest) {
    match q
    case Detail(code) => code != ""
    case Destinations(code) => code != ""
    case Schedules(code) => code != ""
    case Routes(from, to) => from != "" && to != "" && from != to
    case _ => true
  }

  /** The lookups keyed by a code run exactly when the code is non-empty,
      the route lookup exactly for two distinct airports. */
  lemma AirportEnabledCases(code: string, from: string, to: string)
    ensures AirportEnabled(Detail(code)) <==> code != ""
    ensures AirportEnabled(Destinations(code)) <==> code != ""
    ensures AirportEnabled(Schedules(code)) <==> code != ""
    ensures AirportEnabled(Routes(from, to)) <==> from != "" && to != "" && from != to
    ensures AirportEnabled(Active) && AirportEnabled(Closest) && AirportEnabled(Nearby)
  {
  }

  /** How long each answer stays fresh, in minutes. */
  function StaleMinutes(q: AirportRequest): (m: nat)
    ensures 10 <= m <= 60
  {
    match q
    case Active => 30
    case Detail(_) => 30
    case Closest => 10
    case Nearby => 10
    case Destinations(_) => 60
    case Schedules(_) => 15
    case Routes(_, _) => 60
  }

  /** The classifier of the closest and nearby lookups: a message about
      location or permission is final. */
  function GeoRetryRule(): (r: RetryRule)
    ensures r.limit == 2
  {
    RetryUnlessMessageHas(["location", "permission"], 2)
  }

  /** A geolocation refusal is never retried; other failures are retried
      on the first two failures only. */
  lemma GeoRetryClassifies(failureCount: nat, message: string)
    ensures Contains(message, "location") || Contains(message, "permission")
        ==> !ShouldRetry(GeoRetryRule(), failureCount, message)
    ensures !Contains(message, "location") && !Contains(message, "permission")
        ==> (ShouldRetry(GeoRetryRule(), failureCount, message) <==> failureCount < 2)
  {
    var needles := GeoRetryRule().needles;
    assert needles[0] == "location" && needles[1] == "permission";
    if Contains(message, "location") {
      assert MentionsAny(message, needles);
    }
    if Contains(message, "permission") {
      assert MentionsAny(message, needles);
    }
  }

  /** The query each hook builds, with the caller's options spread last. */
  function AirportQuery(q: AirportRequest, options: Overrides): (c: QueryConfig)
    ensures c.key == AirportKey(q)
    ensures c.enabled == options.enabled.GetOr(AirportEnabled(q))
    ensures options.staleTimeMs.None? ==> c.staleTimeMs == StaleMinutes(q) * MinuteMs
    ensures options.gcTimeMs.None? ==> (c.gcTimeMs.Some? <==> q == Active)
    ensures options.gcTimeMs.None? && q == Active ==> c.gcTimeMs == Some(60 * MinuteMs)
    ensures options.retry.None? ==> (c.retry.Some? <==> q == Closest || q == Nearby)
    ensures options.retry.None? && (q == Closest || q == Nearby) ==> c.retry == Some(GeoRetryRule())
  {
    var defaults := QueryConfig(
      AirportKey(q),
      AirportEnabled(q),
      StaleMinutes(q) * MinuteMs,
      if q == Active then Some(60 * MinuteMs) else None,
      if q == Closest || q == Nearby then Some(GeoRetryRule()) else None,
      None,
      None);
    Apply(defaults, options)
  }

  /** The airport list is kept in the cache longer than it stays fresh. */
  lemma ActiveCacheOutlivesFreshness()
    ensures AirportQuery(Active, NoOverrides()).gcTimeMs.value > AirportQuery(Active, NoOverrides()).staleTimeMs
  {
  }
}
