/** What a hook hands to the query cache: a key, an enable flag, time
    budgets and a retry classifier, with the caller's options spread last.
    The cache itself belongs to the query library and is not modelled. */
module QueryPolicy {
  import opened Optional
  import opened Text

  /** One component of a query key: a literal string, or a parameter object
      seen as the field map the library hashes (undefined fields absent). */
  datatype KeyPart = Word(text: string) | Record(fields: map<string, string>)

  type QueryKey = seq<KeyPart>

  /** Keys are compared component by component; a prefix selects a family. */
  predicate HasPrefix(key: QueryKey, prefix: QueryKey) {
    |prefix| <= |key| && key[..|prefix|] == prefix
  }

  /** One minute in the milliseconds the library counts in. */
  const MinuteMs: nat := 60000

  /** The retry classifier both hook files write out by hand: never retry
      when the error message contains one of `needles`, otherwise retry
      while fewer than `limit` failures have been seen. */
  datatype RetryRule = RetryUnlessMessageHas(needles: seq<string>, limit: nat)

  /** Some needle occurs in the message. */
  predicate MentionsAny(message: string, needles: seq<string>) {
    exists i :: 0 <= i < |needles| && Contains(message, needles[i])
  }

  /** The classifier's verdict after `failureCount` failures, the last with
      error message `message`. */
  function ShouldRetry(rule: RetryRule, failureCount: nat, message: string): (r: bool)
    ensures r ==> failureCount < rule.limit
    ensures MentionsAny(message, rule.needles) ==> !r
    ensures !MentionsAny(message, rule.needles) && failureCount < rule.limit ==> r
  {
    if exists i :: 0 <= i < |rule.needles| && Contains(message, rule.needles[i]) then false
    else failureCount < rule.limit
  }

  /** How many retries a run of failures earns, if the `k`-th failure
      (counting from 0) is reported with `failureCount = k` and message
      `messages[k]`, the library's calling convention. */
  function RetriesFrom(rule: RetryRule, messages: seq<string>, k: nat): (n: nat)
    requires k <= |messages|
    ensures k <= rule.limit ==> n <= rule.limit - k
    ensures k > rule.limit ==> n == 0
    decreases |messages| - k
  {
    if k < |messages| && ShouldRetry(rule, k, messages[k]) then 1 + RetriesFrom(rule, messages, k + 1)
    else 0
  }

  /** A query never retries more often than its rule's limit, whatever the
      errors are. */
  lemma RetriesBounded(rule: RetryRule, messages: seq<string>)
    ensures RetriesFrom(rule, messages, 0) <= rule.limit
  {
  }

  /** With enough failures none of which mentions a needle, exactly
      `limit` retries happen. */
  lemma {:induction false} RetriesReachLimit(rule: RetryRule, messages: seq<string>, k: nat)
    requires k <= rule.limit < |messages|
    requires forall i :: 0 <= i < |messages| ==> !MentionsAny(messages[i], rule.needles)
    ensures RetriesFrom(rule, messages, k) == rule.limit - k
    decreases rule.limit - k
  {
    if k < rule.limit {
      RetriesReachLimit(rule, messages, k + 1);
    }
  }

  /** The options a query is created with. `None` leaves a setting to the
      provider's defaults. */
  datatype QueryConfig = QueryConfig(
    key: QueryKey,
    enabled: bool,
    staleTimeMs: nat,
    gcTimeMs: Option<nat>,
    retry: Option<RetryRule>,
    refetchOnWindowFocus: Option<bool>,
    refetchOnMount: Option<bool>)

  /** The caller's `options` object; a field is `None` when absent. The key
      and the fetch function cannot be overridden. */
  datatype Overrides = Overrides(
    enabled: Option<bool>,
    staleTimeMs: Option<nat>,
    gcTimeMs: Option<nat>,
    retry: Option<RetryRule>,
    refetchOnWindowFocus: Option<bool>,
    refetchOnMount: Option<bool>)

  function NoOverrides(): Overrides {
    Overrides(None, None, None, None, None, None)
  }

  /** `{ enabled: b }`, the only option object the components pass. */
  function EnabledOnly(b: bool): Overrides {
    Overrides(Some(b), None, None, None, None, None)
  }

  /** `{ ...defaults, ...options }`. */
  function Apply(defaults: QueryConfig, o: Overrides): (r: QueryConfig)
    ensures r.key == defaults.key
  {
    QueryConfig(
      defaults.key,
      o.enabled.GetOr(defaults.enabled),
      o.staleTimeMs.GetOr(defaults.staleTimeMs),
      if o.gcTimeMs.Some? then o.gcTimeMs else defaults.gcTimeMs,
      if o.retry.Some? then o.retry else defaults.retry,
      if o.refetchOnWindowFocus.Some? then o.refetchOnWindowFocus else defaults.refetchOnWindowFocus,
      if o.refetchOnMount.Some? then o.refetchOnMount else defaults.refetchOnMount)
  }

  /** Without options the hook's own settings stand. */
  lemma ApplyNothing(defaults: QueryConfig)
    ensures Apply(defaults, NoOverrides()) == defaults
  {
  }

  /** A caller's `enabled` replaces the hook's predicate outright and
      changes nothing else. */
  lemma ApplyEnabled(defaults: QueryConfig, b: bool)
    ensures Apply(defaults, EnabledOnly(b)).enabled == b
    ensures Apply(defaults, EnabledOnly(b)) == defaults.(enabled := b)
  {
  }

  /** `{ ...o1, ...o2 }`: later fields win. */
  function Merge(o1: Overrides, o2: Overrides): Overrides {
    Overrides(
      if o2.enabled.Some? then o2.enabled else o1.enabled,
      if o2.staleTimeMs.Some? then o2.staleTimeMs else o1.staleTimeMs,
      if o2.gcTimeMs.Some? then o2.gcTimeMs else o1.gcTimeMs,
      if o2.retry.Some? then o2.retry else o1.retry,
      if o2.refetchOnWindowFocus.Some? then o2.refetchOnWindowFocus else o1.refetchOnWindowFocus,
      if o2.refetchOnMount.Some? then o2.refetchOnMount else o1.refetchOnMount)
  }

  /** Spreading two option objects in turn is spreading their merge. */
  lemma ApplyTwice(defaults: QueryConfig, o1: Overrides, o2: Overrides)
    ensures Apply(Apply(defaults, o1), o2) == Apply(defaults, Merge(o1, o2))
  {
  }
}
