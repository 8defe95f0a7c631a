/** The in-process counting backend, MockStore (internal/limiter/store/mock_store.go).

    The store keeps two tables: key -> number of requests counted, and key -> the
    instant (in nanoseconds) until which the key is blocked. The clock is the
    parameter `now`, read once per call. Unlike the remote backend, this store has
    no counting window: a count never expires, and only ResetCounter lowers it. */
module MemoryStore {
  import opened Store

  const NanosPerSecond: int := 1_000_000_000

  /** The two tables of a MockStore, as one value. */
  datatype Tables = Tables(counts: map<string, int>, blocks: map<string, int>)

  /** Every count that is present is at least one: counts are created by an increment. */
  predicate Valid(t: Tables)
  {
    forall k :: k in t.counts ==> t.counts[k] >= 1
  }

  /** A missing count reads as zero, as Go's map lookup does. */
  function CountOf(counts: map<string, int>, key: string): int
  {
    if key in counts then counts[key] else 0
  }

  /** The block table after the sweep: entries whose expiry lies strictly before `now` are gone. */
  function Swept(blocks: map<string, int>, now: int): map<string, int>
  {
    map k | k in blocks && now <= blocks[k] :: blocks[k]
  }

  /** Increment as a function of the tables: the new tables and the reply. */
  function IncrementStep(t: Tables, fail: bool, key: string, limit: int, blockSeconds: int, now: int)
    : (Tables, Result<IncrementReply>)
  {
    if fail then (t, Err(StorageFailure))
    else
      var blocks := Swept(t.blocks, now);
      if key in blocks && now < blocks[key] then
        (Tables(t.counts, blocks), Ok(IncrementReply(false, blocks[key] - now)))
      else
        var count := CountOf(t.counts, key) + 1;
        var counts := t.counts[key := count];
        if count > limit then
          var until := now + blockSeconds * NanosPerSecond;
          (Tables(counts, (blocks - {key})[key := until]), Ok(IncrementReply(false, until - now)))
        else
          (Tables(counts, blocks - {key}), Ok(IncrementReply(true, 0)))
  }

  /** IsBlocked as a function of the tables: an expired entry for the key is dropped. */
  function IsBlockedStep(t: Tables, fail: bool, key: string, now: int): (Tables, Result<BlockReply>)
  {
    if fail then (t, Err(StorageFailure))
    else if key in t.blocks then
      if now > t.blocks[key] then (Tables(t.counts, t.blocks - {key}), Ok(BlockReply(false, 0)))
      else (t, Ok(BlockReply(true, t.blocks[key] - now)))
    else (t, Ok(BlockReply(false, 0)))
  }

  /** GetRequestCount's reply. */
  function RequestCount(t: Tables, fail: bool, key: string): Result<int>
  {
    if fail then Err(StorageFailure) else Ok(CountOf(t.counts, key))
  }

  /** ResetCounter as a function of the tables. */
  function ResetStep(t: Tables, fail: bool, key: string): (Tables, Result<()>)
  {
    if fail then (t, Err(StorageFailure))
    else (Tables(t.counts - {key}, t.blocks), Ok(()))
  }

  /** Successive Increment calls on one key of a working store, at the instants `times`. */
  function IncrementRun(t: Tables, key: string, limit: int, blockSeconds: int, times: seq<int>)
    : (Tables, seq<Result<IncrementReply>>)
    decreases |times|
  {
    if times == [] then (t, [])
    else
      var (t1, replies) := IncrementRun(t, key, limit, blockSeconds, times[..|times| - 1]);
      var (t2, r) := IncrementStep(t1, false, key, limit, blockSeconds, times[|times| - 1]);
      (t2, replies + [r])
  }

  class MockStore {
    var requestCounts: map<string, int>
    var blockedKeys: map<string, int>
    const failOnCall: bool

    ghost function State(): Tables
      reads this
    {
      Tables(requestCounts, blockedKeys)
    }

    /** NewMockStore: both tables empty. */
    constructor (failOnCall: bool)
      ensures this.failOnCall == failOnCall
      ensures requestCounts == map[] && blockedKeys == map[]
      ensures Valid(State())
    {
      requestCounts := map[];
      blockedKeys := map[];
      this.failOnCall := failOnCall;
    }

    method Increment(key: string, limit: int, blockSeconds: int, now: int) returns (r: Result<IncrementReply>)
      requires Valid(State())
      modifies this
      ensures (State(), r) == IncrementStep(old(State()), failOnCall, key, limit, blockSeconds, now)
      ensures Valid(State())
    {
      OperationsKeepValid(State(), failOnCall, key, limit, blockSeconds, now);
      if failOnCall {
        return Err(StorageFailure);
      }

      // Sweep out every block whose expiry is already past.
      ghost var before := blockedKeys;
      var pending := blockedKeys.Keys;
      while pending != {}
        invariant pending <= before.Keys
        invariant requestCounts == old(requestCounts)
        invariant forall k :: k in blockedKeys <==> k in before && (k in pending || now <= before[k])
        invariant forall k :: k in blockedKeys ==> blockedKeys[k] == before[k]
        decreases pending
      {
        var k :| k in pending;
        if now > blockedKeys[k] {
          blockedKeys := blockedKeys - {k};
        }
        pending := pending - {k};
      }
      assert blockedKeys == Swept(before, now);

      if key in blockedKeys {
        var blockedUntil := blockedKeys[key];
        if now < blockedUntil {
          return Ok(IncrementReply(false, blockedUntil - now));
        }
        blockedKeys := blockedKeys - {key};
      }
      assert blockedKeys == Swept(before, now) - {key};

      var count := (if key in requestCounts then requestCounts[key] else 0) + 1;
      requestCounts := requestCounts[key := count];

      if count > limit {
        var blockedUntil := now + blockSeconds * NanosPerSecond;
        blockedKeys := blockedKeys[key := blockedUntil];
        return Ok(IncrementReply(false, blockedUntil - now));
      }
      return Ok(IncrementReply(true, 0));
    }

    method IsBlocked(key: string, now: int) returns (r: Result<BlockReply>)
      requires Valid(State())
      modifies this
      ensures (State(), r) == IsBlockedStep(old(State()), failOnCall, key, now)
      ensures Valid(State())
    {
      OperationsKeepValid(State(), failOnCall, key, 0, 0, now);
      if failOnCall {
        return Err(StorageFailure);
      }
      if key in blockedKeys {
        var blockedUntil := blockedKeys[key];
        if now > blockedUntil {
          blockedKeys := blockedKeys - {key};
          return Ok(BlockReply(false, 0));
        }
        return Ok(BlockReply(true, blockedUntil - now));
      }
      return Ok(BlockReply(false, 0));
    }

    /** Reads the count; changes nothing. */
    method GetRequestCount(key: string) returns (r: Result<int>)
      ensures r == RequestCount(State(), failOnCall, key)
      ensures failOnCall ==> r == Err(StorageFailure)
      ensures !failOnCall ==> r.Ok? && (key in requestCounts ==> r.value == requestCounts[key])
      ensures !failOnCall && key !in requestCounts ==> r == Ok(0)
    {
      if failOnCall {
        return Err(StorageFailure);
      }
      if key in requestCounts {
        return Ok(requestCounts[key]);
      }
      return Ok(0);
    }

    method ResetCounter(key: string) returns (r: Result<()>)
      requires Valid(State())
      modifies this
      ensures (State(), r) == ResetStep(old(State()), failOnCall, key)
      ensures Valid(State())
    {
      OperationsKeepValid(State(), failOnCall, key, 0, 0, 0);
      if failOnCall {
        return Err(StorageFailure);
      }
      requestCounts := requestCounts - {key};
      return Ok(());
    }
  }

  // ---------------------------------------------------------------------------
  // Properties of one call

  /** With the failure switch on, every operation reports StorageFailure and neither table changes. */
  lemma FailingStoreChangesNothing(t: Tables, key: string, limit: int, blockSeconds: int, now: int)
    ensures IncrementStep(t, true, key, limit, blockSeconds, now) == (t, Err(StorageFailure))
    ensures IsBlockedStep(t, true, key, now) == (t, Err(StorageFailure))
    ensures RequestCount(t, true, key) == Err(StorageFailure)
    ensures ResetStep(t, true, key) == (t, Err(StorageFailure))
  {
  }

  /** Increment first drops every block, of any key, whose expiry is strictly before `now`,
      and keeps every other block as it was; counts of other keys are untouched. */
  lemma IncrementSweepsExpiredBlocks(t: Tables, key: string, limit: int, blockSeconds: int, now: int, other: string)
    requires other != key
    ensures var (t', _) := IncrementStep(t, false, key, limit, blockSeconds, now);
      && (other in t'.blocks <==> other in t.blocks && now <= t.blocks[other])
      && (other in t'.blocks ==> t'.blocks[other] == t.blocks[other])
      && CountOf(t'.counts, other) == CountOf(t.counts, other)
  {
  }

  /** A key whose block expires strictly after `now` is denied with the remaining time,
      and its count and block stay as they were. */
  lemma BlockedKeyIsDeniedUncounted(t: Tables, key: string, limit: int, blockSeconds: int, now: int)
    requires key in t.blocks && now < t.blocks[key]
    ensures var (t', r) := IncrementStep(t, false, key, limit, blockSeconds, now);
      && r == Ok(IncrementReply(false, t.blocks[key] - now))
      && t'.counts == t.counts
      && key in t'.blocks && t'.blocks[key] == t.blocks[key]
  {
  }

  /** A key that is not blocked at `now` gets its count raised by exactly one. */
  lemma IncrementCountsOnce(t: Tables, key: string, limit: int, blockSeconds: int, now: int)
    requires !(key in t.blocks && now < t.blocks[key])
    ensures var (t', r) := IncrementStep(t, false, key, limit, blockSeconds, now);
      && key in t'.counts
      && t'.counts[key] == CountOf(t.counts, key) + 1
      && t'.counts.Keys == t.counts.Keys + {key}
  {
  }

  /** Within the limit the reply is (true, 0) and no block is left for the key. */
  lemma IncrementAllowsWithinLimit(t: Tables, key: string, limit: int, blockSeconds: int, now: int)
    requires !(key in t.blocks && now < t.blocks[key])
    requires CountOf(t.counts, key) + 1 <= limit
    ensures var (t', r) := IncrementStep(t, false, key, limit, blockSeconds, now);
      r == Ok(IncrementReply(true, 0)) && key !in t'.blocks
  {
  }

  /** Once the new count passes the limit, the key is blocked until now + blockSeconds
      and the reply is a denial carrying the full block duration. */
  lemma IncrementBlocksOverLimit(t: Tables, key: string, limit: int, blockSeconds: int, now: int)
    requires !(key in t.blocks && now < t.blocks[key])
    requires CountOf(t.counts, key) + 1 > limit
    ensures var (t', r) := IncrementStep(t, false, key, limit, blockSeconds, now);
      && r == Ok(IncrementReply(false, blockSeconds * NanosPerSecond))
      && key in t'.blocks && t'.blocks[key] == now + blockSeconds * NanosPerSecond
      && CountOf(t'.counts, key) == CountOf(t.counts, key) + 1
  {
  }

  /** After Increment blocks a key at `now`, IsBlocked at any later instant reports it blocked
      with the time left until now + blockSeconds, and reports it free once that has passed. */
  lemma BlockLastsBlockSeconds(t: Tables, key: string, limit: int, blockSeconds: int, now: int, later: int)
    requires !(key in t.blocks && now < t.blocks[key])
    requires CountOf(t.counts, key) + 1 > limit
    requires now <= later
    ensures var (t', _) := IncrementStep(t, false, key, limit, blockSeconds, now);
      var until := now + blockSeconds * NanosPerSecond;
      IsBlockedStep(t', false, key, later).1
        == if later <= until then Ok(BlockReply(true, until - later)) else Ok(BlockReply(false, 0))
  {
    IncrementBlocksOverLimit(t, key, limit, blockSeconds, now);
  }

  /** IsBlocked: a live entry (now <= expiry) reports the remaining time; an expired one is
      deleted and reported absent; an absent key is not blocked. Counts are never touched. */
  lemma IsBlockedReportsLiveBlocks(t: Tables, key: string, now: int)
    ensures var (t', r) := IsBlockedStep(t, false, key, now);
      && t'.counts == t.counts
      && (key in t.blocks && now <= t.blocks[key] ==> r == Ok(BlockReply(true, t.blocks[key] - now)) && t' == t)
      && (key in t.blocks && now > t.blocks[key] ==> r == Ok(BlockReply(false, 0)) && t'.blocks == t.blocks - {key})
      && (key !in t.blocks ==> r == Ok(BlockReply(false, 0)) && t' == t)
  {
  }

  /** ResetCounter deletes that key's count only; its block entry and other keys are kept. */
  lemma ResetClearsOnlyCount(t: Tables, key: string)
    ensures var (t', r) := ResetStep(t, false, key);
      && r == Ok(())
      && CountOf(t'.counts, key) == 0
      && (forall k :: k != key ==> CountOf(t'.counts, k) == CountOf(t.counts, k))
      && t'.blocks == t.blocks
  {
  }

  /** No operation but ResetCounter lowers any count. */
  lemma CountsNeverDecrease(t: Tables, fail: bool, key: string, limit: int, blockSeconds: int, now: int, k: string)
    ensures CountOf(IncrementStep(t, fail, key, limit, blockSeconds, now).0.counts, k) >= CountOf(t.counts, k)
    ensures CountOf(IsBlockedStep(t, fail, key, now).0.counts, k) == CountOf(t.counts, k)
  {
  }

  /** Every operation keeps all present counts positive. */
  lemma OperationsKeepValid(t: Tables, fail: bool, key: string, limit: int, blockSeconds: int, now: int)
    requires Valid(t)
    ensures Valid(IncrementStep(t, fail, key, limit, blockSeconds, now).0)
    ensures Valid(IsBlockedStep(t, fail, key, now).0)
    ensures Valid(ResetStep(t, fail, key).0)
  {
  }

  /** There is no counting window: a key whose count has reached the limit is denied and
      blocked again by its first Increment after its block has expired, unless it was reset. */
  lemma ReblockedAfterExpiry(t: Tables, key: string, limit: int, blockSeconds: int, now: int)
    requires CountOf(t.counts, key) >= limit
    requires key in t.blocks ==> t.blocks[key] <= now
    ensures var (t', r) := IncrementStep(t, false, key, limit, blockSeconds, now);
      && r == Ok(IncrementReply(false, blockSeconds * NanosPerSecond))
      && key in t'.blocks && t'.blocks[key] == now + blockSeconds * NanosPerSecond
  {
    IncrementBlocksOverLimit(t, key, limit, blockSeconds, now);
  }

  /** After ResetCounter, once the key's block is over, Increment behaves as on a key
      never seen: it is allowed exactly when the limit admits one request, and counts one. */
  lemma ResetThenIncrementIsFresh(t: Tables, key: string, limit: int, blockSeconds: int, now: int)
    requires key in t.blocks ==> t.blocks[key] <= now
    ensures var (t1, _) := ResetStep(t, false, key);
      var (t2, r) := IncrementStep(t1, false, key, limit, blockSeconds, now);
      && (r.Ok? && r.value.allowed <==> 1 <= limit)
      && CountOf(t2.counts, key) == 1
  {
  }

  // ---------------------------------------------------------------------------
  // Properties of a sequence of calls

  /** From a key with no block entry, calls that stay within the limit are all allowed
      with ttl 0, each counts one, and the key stays without a block entry. */
  lemma {:induction false} CallsWithinLimitAllowed(t: Tables, key: string, limit: int, blockSeconds: int, times: seq<int>)
    requires key !in t.blocks
    requires CountOf(t.counts, key) + |times| <= limit
    ensures var (t', replies) := IncrementRun(t, key, limit, blockSeconds, times);
      && |replies| == |times|
      && (forall i :: 0 <= i < |replies| ==> replies[i] == Ok(IncrementReply(true, 0)))
      && CountOf(t'.counts, key) == CountOf(t.counts, key) + |times|
      && key !in t'.blocks
  {
    if times != [] {
      var prefix := times[..|times| - 1];
      CallsWithinLimitAllowed(t, key, limit, blockSeconds, prefix);
      var (t1, _) := IncrementRun(t, key, limit, blockSeconds, prefix);
      IncrementAllowsWithinLimit(t1, key, limit, blockSeconds, times[|times| - 1]);
    }
  }

  /** On a fresh key the first `limit` calls are allowed and the next one is denied with
      the full block duration; the key is then blocked and its count is limit + 1. */
  lemma {:induction false} FreshKeyBlockedAfterLimit(t: Tables, key: string, limit: nat, blockSeconds: int, times: seq<int>)
    requires key !in t.counts && key !in t.blocks
    requires |times| == limit + 1
    ensures var (t', replies) := IncrementRun(t, key, limit, blockSeconds, times);
      && |replies| == limit + 1
      && (forall i :: 0 <= i < limit ==> replies[i] == Ok(IncrementReply(true, 0)))
      && replies[limit] == Ok(IncrementReply(false, blockSeconds * NanosPerSecond))
      && CountOf(t'.counts, key) == limit + 1
      && key in t'.blocks && t'.blocks[key] == times[limit] + blockSeconds * NanosPerSecond
  {
    var prefix := times[..limit];
    CallsWithinLimitAllowed(t, key, limit, blockSeconds, prefix);
    var (t1, _) := IncrementRun(t, key, limit, blockSeconds, prefix);
    IncrementBlocksOverLimit(t1, key, limit, blockSeconds, times[limit]);
  }
}
