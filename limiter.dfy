/** The rate decision engine, RateLimiter.Allow (internal/limiter/limiter.go).

    Allow picks the policy of the request's credential class, asks the store whether the
    key is blocked, and only then counts the request. Any store error is answered with
    an internal error: the engine fails closed. */
module Limiter {
  import opened Store
  import opened MemoryStore

  const StatusOK: int := 200
  const StatusTooManyRequests: int := 429
  const StatusInternalServerError: int := 500

  const RateLimitMessage: string :=
    "you have reached the maximum number of requests or actions allowed within a certain time frame"
  const InternalErrorMessage: string := "internal error"

  /** The limiter's settings (the integer fields of config.Config). */
  datatype Config = Config(rateLimitIP: int, blockDurationIP: int, rateLimitToken: int, blockDurationToken: int)

  /** A request budget and the length, in seconds, of the block that follows it. */
  datatype Policy = Policy(limit: int, blockSeconds: int)

  /** Allow's (allowed, status, message). */
  datatype Decision = Decision(allowed: bool, status: int, message: string)

  const Admitted: Decision := Decision(true, StatusOK, "")
  const Throttled: Decision := Decision(false, StatusTooManyRequests, RateLimitMessage)
  const InternalError: Decision := Decision(false, StatusInternalServerError, InternalErrorMessage)

  /** Credentialed requests get the token policy, all others the address policy. */
  function SelectPolicy(cfg: Config, isToken: bool): (p: Policy)
    ensures isToken ==> p.limit == cfg.rateLimitToken && p.blockSeconds == cfg.blockDurationToken
    ensures !isToken ==> p.limit == cfg.rateLimitIP && p.blockSeconds == cfg.blockDurationIP
  {
    if isToken then Policy(cfg.rateLimitToken, cfg.blockDurationToken)
    else Policy(cfg.rateLimitIP, cfg.blockDurationIP)
  }

  /** What the IsBlocked reply decides: a final decision, or None to go on and count. */
  function OnIsBlocked(b: Result<BlockReply>): (d: Option<Decision>)
    ensures d.None? <==> b.Ok? && !b.value.blocked
    ensures d.Some? ==> !d.value.allowed
    ensures b.Err? ==> d == Some(InternalError)
    ensures b.Ok? && b.value.blocked ==> d == Some(Throttled)
  {
    match b
    case Err(_) => Some(InternalError)
    case Ok(reply) => if reply.blocked then Some(Throttled) else None
  }

  /** What the Increment reply decides. Only a successful, allowing reply admits. */
  function OnIncrement(r: Result<IncrementReply>): (d: Decision)
    ensures d.allowed <==> r.Ok? && r.value.allowed
    ensures d.allowed <==> d.status == StatusOK
    ensures d.allowed ==> d == Admitted
    ensures r.Err? ==> d == InternalError
    ensures r.Ok? && !r.value.allowed ==> d == Throttled
  {
    match r
    case Err(_) => InternalError
    case Ok(reply) => if reply.allowed then Admitted else Throttled
  }

  /** Allow over the in-process store's tables: the new tables and the decision. */
  function AllowStep(t: Tables, fail: bool, cfg: Config, key: string, isToken: bool, now: int): (Tables, Decision)
  {
    var policy := SelectPolicy(cfg, isToken);
    var (t1, blocked) := IsBlockedStep(t, fail, key, now);
    match OnIsBlocked(blocked)
    case Some(d) => (t1, d)
    case None =>
      var (t2, counted) := IncrementStep(t1, fail, key, policy.limit, policy.blockSeconds, now);
      (t2, OnIncrement(counted))
  }

  /** Successive Allow calls for one key on a working store, at the instants `times`. */
  function AllowRun(t: Tables, cfg: Config, key: string, isToken: bool, times: seq<int>): (Tables, seq<Decision>)
    decreases |times|
  {
    if times == [] then (t, [])
    else
      var (t1, ds) := AllowRun(t, cfg, key, isToken, times[..|times| - 1]);
      var (t2, d) := AllowStep(t1, false, cfg, key, isToken, times[|times| - 1]);
      (t2, ds + [d])
  }

  class RateLimiter {
    const cfg: Config
    const store: MockStore

    /** NewRateLimiter. */
    constructor (cfg: Config, store: MockStore)
      ensures this.cfg == cfg && this.store == store
    {
      this.cfg := cfg;
      this.store := store;
    }

    method Allow(key: string, isToken: bool, now: int) returns (d: Decision)
      requires Valid(store.State())
      modifies store
      ensures Valid(store.State())
      ensures (store.State(), d) == AllowStep(old(store.State()), store.failOnCall, cfg, key, isToken, now)
    {
      var policy := SelectPolicy(cfg, isToken);

      var blocked := store.IsBlocked(key, now);
      if blocked.Err? {
        return InternalError;
      }
      if blocked.value.blocked {
        return Throttled;
      }

      var counted := store.Increment(key, policy.limit, policy.blockSeconds, now);
      if counted.Err? {
        return InternalError;
      }
      if !counted.value.allowed {
        return Throttled;
      }
      return Admitted;
    }
  }

  // ---------------------------------------------------------------------------
  // Properties of Allow over the in-process store

  /** When the store fails, the answer is an internal error and nothing is counted:
      Increment is never reached. */
  lemma StoreFailureFailsClosed(t: Tables, cfg: Config, key: string, isToken: bool, now: int)
    ensures AllowStep(t, true, cfg, key, isToken, now) == (t, InternalError)
  {
  }

  /** A key that IsBlocked reports blocked is throttled without being counted. */
  lemma BlockedKeyThrottledUncounted(t: Tables, cfg: Config, key: string, isToken: bool, now: int)
    requires key in t.blocks && now <= t.blocks[key]
    ensures AllowStep(t, false, cfg, key, isToken, now) == (t, Throttled)
  {
  }

  /** Fail-closed: a request is admitted exactly when IsBlocked succeeds and says "not
      blocked" and Increment, under the selected policy, succeeds and allows; an admitted
      request gets exactly (true, 200, ""), and admitted <==> status 200. */
  lemma AdmittedOnlyWhenIncrementAllows(t: Tables, fail: bool, cfg: Config, key: string, isToken: bool, now: int)
    ensures var (t1, b) := IsBlockedStep(t, fail, key, now);
      var policy := SelectPolicy(cfg, isToken);
      var (_, d) := AllowStep(t, fail, cfg, key, isToken, now);
      && (d.allowed <==>
            b.Ok? && !b.value.blocked
            && IncrementStep(t1, fail, key, policy.limit, policy.blockSeconds, now).1 == Ok(IncrementReply(true, 0)))
      && (d.allowed <==> d.status == StatusOK)
      && (d.allowed ==> d == Admitted)
      && (!d.allowed ==> d == Throttled || d == InternalError)
  {
  }

  /** There is no counting window in the in-process store: once a key's count has reached
      its limit, every Allow for it is throttled, whatever its block says, until a reset. */
  lemma KeyAtLimitAlwaysThrottled(t: Tables, cfg: Config, key: string, isToken: bool, now: int)
    requires CountOf(t.counts, key) >= SelectPolicy(cfg, isToken).limit
    ensures AllowStep(t, false, cfg, key, isToken, now).1 == Throttled
  {
    var (t1, b) := IsBlockedStep(t, false, key, now);
    if b == Ok(BlockReply(false, 0)) {
      var policy := SelectPolicy(cfg, isToken);
      ReblockedAfterExpiry(t1, key, policy.limit, policy.blockSeconds, now);
    }
  }

  /** Calls that stay within the policy's limit, for a key without a block entry, are all
      admitted; each counts one and the key stays without a block entry. */
  lemma {:induction false} AllowsWithinLimit(t: Tables, cfg: Config, key: string, isToken: bool, times: seq<int>)
    requires key !in t.blocks
    requires CountOf(t.counts, key) + |times| <= SelectPolicy(cfg, isToken).limit
    ensures var (t', ds) := AllowRun(t, cfg, key, isToken, times);
      && |ds| == |times|
      && (forall i :: 0 <= i < |ds| ==> ds[i] == Admitted)
      && CountOf(t'.counts, key) == CountOf(t.counts, key) + |times|
      && key !in t'.blocks
  {
    if times != [] {
      var prefix := times[..|times| - 1];
      AllowsWithinLimit(t, cfg, key, isToken, prefix);
      var (t1, _) := AllowRun(t, cfg, key, isToken, prefix);
      var policy := SelectPolicy(cfg, isToken);
      IncrementAllowsWithinLimit(t1, key, policy.limit, policy.blockSeconds, times[|times| - 1]);
    }
  }

  /** On a key the store has never seen, with limit L under the selected policy, the first
      L calls to Allow return (true, 200, "") and the (L+1)-th returns (false, 429, message). */
  lemma {:induction false} FreshKeyAdmitsExactlyLimit(t: Tables, cfg: Config, key: string, isToken: bool, times: seq<int>)
    requires key !in t.counts && key !in t.blocks
    requires SelectPolicy(cfg, isToken).limit >= 0
    requires |times| == SelectPolicy(cfg, isToken).limit + 1
    ensures var (_, ds) := AllowRun(t, cfg, key, isToken, times);
      && |ds| == |times|
      && (forall i :: 0 <= i < |times| - 1 ==> ds[i] == Admitted)
      && ds[|times| - 1] == Throttled
  {
    var policy := SelectPolicy(cfg, isToken);
    var prefix := times[..policy.limit];
    AllowsWithinLimit(t, cfg, key, isToken, prefix);
    var (t1, _) := AllowRun(t, cfg, key, isToken, prefix);
    IncrementBlocksOverLimit(t1, key, policy.limit, policy.blockSeconds, times[policy.limit]);
  }
}
