# Rate limiter: a Dafny model of the rate-decision core

This project models the request-gating core of a Go rate limiter. The core has three parts:

- The in-process counting backend `MockStore`. It keeps a count table and a block table per identity key. It also has a fail-every-call switch.
- The decision engine `RateLimiter.Allow`. It picks the policy of the credential class, asks the store `IsBlocked` and then `Increment`, and maps the outcome to (allowed, HTTP status, message). Any store error makes it fail closed.
- The gate's classification of a request into an identity key: `"token:" + API_KEY`, or `"ip:" + client address`.

Files:

- `store.dfy`, module `Store`: the reply shapes of the store interface (`IncrementReply`, `BlockReply`) and the `StorageFailure` error, as `Result` values.
- `memory_store.dfy`, module `MemoryStore`:
  - the class `MockStore`, with its two tables as `map` fields that the methods reassign;
  - pure step functions (`IncrementStep`, `IsBlockedStep`, `ResetStep`) that the methods are proved against;
  - lemmas about those step functions, for one call and for runs of calls.
- `limiter.dfy`, module `Limiter`:
  - `Config` and `Policy`, and the policy selection;
  - the backend-independent outcome mapping (`OnIsBlocked`, `OnIncrement`);
  - the class `RateLimiter` with `Allow`, and end-to-end lemmas for `Allow` over the in-process store.
- `middleware.dfy`, module `Middleware`:
  - key classification, with `strings.TrimSpace`, `strings.Split(…)[0]` and the host part of `net.SplitHostPort` written out;
  - the Deny/PassThrough gate, and `Handle`, which runs one request through classification and `Allow`.

Time is an integer count of nanoseconds, passed as `now` and read once per call. A block set at `now` expires at `now + blockSeconds * 1_000_000_000`.

The in-process store behaves as follows, unlike the remote backend:

- The in-process store has no counting window. A count never expires; only `ResetCounter` lowers it. So once a key's count reaches its limit, every later `Allow` for it is throttled until a reset (`Limiter.KeyAtLimitAlwaysThrottled`). After its block ends, the key is blocked again by its first `Increment` (`MemoryStore.ReblockedAfterExpiry`). Only the remote backend sets a one-second expiry on a counter.
- `IsBlocked` is not a pure read in the in-process store: it deletes an expired block entry.
- At the instant a block expires (`now == expiry`), `IsBlocked` still reports the key blocked with ttl 0. `Increment` treats that same block as over, deletes it and counts the request.
- `ResetCounter` exists only on the in-process store, not in the store interface. It clears the count but leaves the block entry.

## Model

| member | source | states |
|---|---|---|
| `MemoryStore.MockStore.constructor` | internal/limiter/store/mock_store.go:18-24 | NewMockStore: both tables start empty and the failure switch is the given one |
| `MemoryStore.MockStore.Increment` | internal/limiter/store/mock_store.go:28-66 | the new tables and the reply are exactly IncrementStep of the old tables, and every present count stays at least one; the sweep loop is proved to keep precisely the unexpired blocks |
| `MemoryStore.MockStore.IsBlocked` | internal/limiter/store/mock_store.go:69-91 | the new tables and the reply are exactly IsBlockedStep of the old tables, and every present count stays at least one |
| `MemoryStore.MockStore.GetRequestCount` | internal/limiter/store/mock_store.go:94-102 | changes nothing; the reply is RequestCount of the tables: StorageFailure when failing, else the stored count, or 0 for an absent key |
| `MemoryStore.MockStore.ResetCounter` | internal/limiter/store/mock_store.go:105-114 | the new tables and the reply are exactly ResetStep of the old tables, and every present count stays at least one |
| `MemoryStore.FailingStoreChangesNothing` | internal/limiter/store/mock_store.go:29-31 | with failOnCall set, Increment, IsBlocked, GetRequestCount and ResetCounter (lines 29-31, 70-72, 95-97, 106-108) all return StorageFailure and leave both tables unchanged |
| `MemoryStore.IncrementSweepsExpiredBlocks` | internal/limiter/store/mock_store.go:37-41 | after Increment, another key keeps its block exactly when its expiry is not before now, with the same expiry; its count is unchanged |
| `MemoryStore.BlockedKeyIsDeniedUncounted` | internal/limiter/store/mock_store.go:44-48 | a key blocked strictly beyond now gets (false, expiry - now); counts and its block are unchanged |
| `MemoryStore.IncrementCountsOnce` | internal/limiter/store/mock_store.go:54-55 | a key not blocked at now has its count raised by exactly one, and no count key appears other than it |
| `MemoryStore.IncrementAllowsWithinLimit` | internal/limiter/store/mock_store.go:58-65 | when the new count is within the limit the reply is (true, 0) and the key has no block entry |
| `MemoryStore.IncrementBlocksOverLimit` | internal/limiter/store/mock_store.go:58-63 | when the new count passes the limit the key is blocked until now + blockSeconds and the reply is (false, blockSeconds) |
| `MemoryStore.BlockLastsBlockSeconds` | internal/limiter/store/mock_store.go:78-87 | after such a block, IsBlocked at any later instant reports (true, time left) up to the expiry and (false, 0) after it |
| `MemoryStore.IsBlockedReportsLiveBlocks` | internal/limiter/store/mock_store.go:78-90 | IsBlocked: a present entry with now <= expiry gives (true, expiry - now), one with now > expiry is deleted and gives (false, 0), an absent key gives (false, 0); counts never change |
| `MemoryStore.ResetClearsOnlyCount` | internal/limiter/store/mock_store.go:105-113 | ResetCounter zeroes that key's count only and leaves every block entry |
| `MemoryStore.CountsNeverDecrease` | internal/limiter/store/mock_store.go:54-55 | no Increment or IsBlocked lowers any key's count |
| `MemoryStore.OperationsKeepValid` | internal/limiter/store/mock_store.go:54-55 | every operation keeps every present count at least one |
| `MemoryStore.ReblockedAfterExpiry` | internal/limiter/store/mock_store.go:54-63 | with no counting window, a key whose count has reached the limit is denied and blocked again on its first Increment after its block ends |
| `MemoryStore.ResetThenIncrementIsFresh` | internal/limiter/store/store_test.go:124-130 | after ResetCounter and once the block is over, Increment allows exactly when the limit admits one request, and the count is 1 |
| `MemoryStore.CallsWithinLimitAllowed` | internal/limiter/store/store_test.go:22-28 | Increment calls at any instants that stay within the limit, on a key without a block entry, all return (true, 0) and each counts one |
| `MemoryStore.FreshKeyBlockedAfterLimit` | internal/limiter/store/store_test.go:22-45 | on a fresh key the first limit calls return (true, 0), the next returns (false, blockSeconds), the count is limit + 1 and the key is blocked |
| `Limiter.SelectPolicy` | internal/limiter/limiter.go:23-30 | a credentialed request uses (RateLimitToken, BlockDurationToken), any other (RateLimitIP, BlockDurationIP) |
| `Limiter.OnIsBlocked` | internal/limiter/limiter.go:32-38 | for any backend: an IsBlocked error gives (false, 500, "internal error"), blocked gives (false, 429, message), and only not-blocked goes on to Increment |
| `Limiter.OnIncrement` | internal/limiter/limiter.go:40-48 | for any backend: admitted exactly when Increment succeeds and allows; then the decision is (true, 200, ""); admitted iff status 200; an error gives 500, a denial 429 |
| `Limiter.RateLimiter.constructor` | internal/limiter/limiter.go:15-20 | NewRateLimiter keeps the given configuration and store |
| `Limiter.RateLimiter.Allow` | internal/limiter/limiter.go:22-49 | the decision and the store's new tables are exactly AllowStep of the old tables |
| `Limiter.StoreFailureFailsClosed` | internal/limiter/limiter.go:32-35 | a failing store gives (false, 500, "internal error") and the tables are unchanged, so Increment never ran |
| `Limiter.BlockedKeyThrottledUncounted` | internal/limiter/limiter.go:36-38 | a key blocked at now gives (false, 429, message) and the tables, counts included, are unchanged |
| `Limiter.AdmittedOnlyWhenIncrementAllows` | internal/limiter/limiter.go:22-49 | fail-closed: admitted exactly when IsBlocked succeeds with "not blocked" and Increment under the selected policy returns (true, 0); admitted iff status 200; admitted means exactly (true, 200, ""), otherwise 429 or 500 |
| `Limiter.KeyAtLimitAlwaysThrottled` | internal/limiter/limiter.go:32-46 | over the in-process store, a key whose count has reached its policy limit is throttled by every Allow, whatever its block says |
| `Limiter.AllowsWithinLimit` | internal/limiter/limiter.go:40-48 | Allow calls that stay within the policy limit, for a key without a block entry, are all (true, 200, "") and each counts one |
| `Limiter.FreshKeyAdmitsExactlyLimit` | internal/limiter/limiter.go:32-48 | on a fresh key with limit L, the first L calls to Allow give (true, 200, "") and the (L+1)-th gives (false, 429, message) |
| `Middleware.TrimSpace` | internal/limiter/middleware.go:25 | the result is the slice of the input left after removing all leading and all trailing white space: its ends are not white space, everything cut off is, a string with no outer white space is kept, and only all-space input gives "" |
| `Middleware.FirstField` | internal/limiter/middleware.go:24-25 | the first comma-separated segment: a prefix of the input with no comma, ending at the first comma or at the end |
| `Middleware.SplitHostOfJoin` | internal/limiter/middleware.go:18-21 | a peer address written as host:port, or [host]:port for a host with colons, yields exactly its host |
| `Middleware.ClientAddress` | internal/limiter/middleware.go:18-26 | a non-empty X-Forwarded-For gives its first segment, trimmed, with no comma and no outer white space; otherwise the host part of RemoteAddr, or all of RemoteAddr when it does not split |
| `Middleware.ForwardedForOverridesPeer` | internal/limiter/middleware.go:23-26 | with X-Forwarded-For present the client address does not depend on RemoteAddr |
| `Middleware.Classify` | internal/limiter/middleware.go:11-28 | credentialed exactly when API_KEY is non-empty; key "token:" + API_KEY then, else "ip:" + client address |
| `Middleware.TokenKeyIgnoresAddresses` | internal/limiter/middleware.go:15-16 | with an API_KEY, neither RemoteAddr nor X-Forwarded-For affects the classification |
| `Middleware.ClassesNeverShareKey` | internal/limiter/middleware.go:16-27 | a credentialed request and an anonymous one never get the same backend key |
| `Middleware.SameClassKeysInjective` | internal/limiter/middleware.go:16-27 | within one class, two requests share a key exactly when they share the API key, or the client address |
| `Middleware.Gate` | internal/limiter/middleware.go:30-36 | passes through exactly when Allow admits, handing on the unchanged request; otherwise answers with Allow's status and message |
| `Middleware.Handle` | internal/limiter/middleware.go:9-38 | one request: the store's new tables and the outcome are AllowStep on the classified key followed by Gate |

## Left out

- The remote backend (internal/limiter/store/redis.go) is not modelled. It is network I/O through a foreign client library. Its interesting behaviour, the race between separate round-trips, is concurrency. Its one-second counter expiry therefore appears nowhere in the model.
- The store interface is not an abstract type with several implementations. Its reply shapes are the `Store` datatypes, and the engine's outcome mapping (`OnIsBlocked`, `OnIncrement`) holds for any backend's replies. `RateLimiter` holds a concrete `MockStore`, so the end-to-end lemmas are about that backend only.
- The mutex in `MockStore` is left out. It only serialises calls, and the methods are modelled as sequential steps.
- Real clocks and sleeps are left out. The source reads the clock several times within one call; the model reads `now` once per call, so the ttl of a fresh block is exactly `blockSeconds` seconds.
- Configuration loading from environment variables (internal/config/config.go) is left out, defaults included. `Config` holds the four integer settings. The Redis address, password and database fields are left out with the remote backend.
- Server setup (cmd/server/main.go) and the concurrency and benchmark tests are left out.
- HTTP plumbing is left out: `http.Error` writing the response, and the downstream handler's own work. The gate's result is a value, `Deny(status, message)` or `PassThrough(request)`.
- Headers are single strings, and an absent header reads as "". Header canonicalisation and multiple values are not modelled.
- MemoryStore.MockStore.Increment: Go's 64-bit arithmetic is not modelled. Counts are unbounded integers, not `int64`. The product `blockSeconds * time.Second` and the expiry instant do not wrap around. A count would need 2^63 requests to overflow.
- Middleware.SplitHost: models only the host part of `net.SplitHostPort` and whether it fails. The port and the error messages are not modelled.
- Middleware.TrimSpace: works on Unicode characters with Go's `unicode.IsSpace` set. Invalid UTF-8 byte sequences, which Go's strings may hold, are not modelled.
