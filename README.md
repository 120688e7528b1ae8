# Rate limiter admission rules, in Dafny

This project models the admission core of a Java rate-limiting service. For
every (endpoint, client) pair the service decides whether a request is allowed
or denied. It can use four algorithms:

- **Fixed window.** A count and a window start per client. The window is
  anchored at the request that opens it. There are four implementations:
  `ComputeRateLimiter` with immutable records replaced inside `compute`;
  `SimpleRateLimiter` and `ReentrantLockRateLimiter` with mutable records in a
  plain map; and `AtomicRateLimiter`, which increments an atomic counter in
  place and decides afterwards.
- **Sliding-window log.** A queue of admitted timestamps per client. It is
  pruned from the front, and a request is admitted while fewer than the limit
  remain.
- **Token bucket.** Whole tokens that start full and are refilled in
  proportion to elapsed time.
- **Leaky bucket.** Whole units of volume that start empty and leak in
  proportion to elapsed time.

Around these sit the algorithm-to-strategy factory, a settable fake clock, the
configuration defaults and setters, and the pure parts of the service:

- endpoint normalisation and per-endpoint configuration lookup;
- client identity from IP address, API key or user header, and proxy-header
  IP extraction;
- the create-once registry of limiters per endpoint;
- the fail-safe result.

The interceptor's skip-path predicate and its allow/deny/fail-open outcome are
modelled too.

Each `allowRequest` is one atomic step that takes `now`, the time the injected
clock reads. Mutable Java records (the fixed-window `ClientData` of
Simple/ReentrantLock/Atomic, `TokenBucket`, `LeakyBucket`) are Dafny classes
held in a map. Every such class method is proved against a pure transition
function over value snapshots (`Transition`, `Step`, `Refill`, `Leak`,
`Pruned`). The properties are then proved about those functions: decision
sequences, bounds, bursts, recovery, independence of clients, and the
equivalence of the four fixed-window implementations.

Across algorithms, a limiter's records form one `State` value, and `Transit`
is one `allowRequest` on it. Each limiter call and each service check is
proved to move the limiter to the `Transit` of its state before and to leave
every other endpoint's limiter as it was. A sequence of checks on one URI
(`Serve`) therefore gets the decisions of `Replay`, provided the
`getRemainingRequests` call each check makes after its decision
(`RateLimitService.java:77`) reads the clock at the same `now`. At the same
reading that call changes nothing; at a later one a leaky bucket leaks in
place and its later decisions can differ (see "## Left out"). This is how the
fixed-window integration scenarios of `RateLimiterIntegrationTest.java` are
derived; a fixed-window `getRemainingRequests` is not part of this model.

Behaviour of the code worth knowing:

- **Fixed window anchor.** The window starts at the client's first request
  (`ComputeRateLimiter.java:36-38`); it is not aligned to the clock. Ten
  requests at t=9900 and ten at t=10100 (limit 10, window 10000) therefore
  give 10 admissions (`ComputeRateLimiter.AnchoredWindowAcrossClockBoundary`).
  The boundary burst that `AlgorithmComparisonTest.java:103` mentions ("may
  allow burst at boundary") is 2 x limit within window + 1 ms
  (`ComputeRateLimiter.BoundaryBurst`).
- **Whole units in both buckets.** Tokens and volume are whole numbers.
  `lastRefillTime` and `lastLeakTime` move only when at least one whole unit
  was earned or leaked, so fractions are not accumulated but re-derived from
  the older timestamp.
- **Token-bucket remaining count.** `getRemainingRequests` of the token bucket
  returns 0 for every client (`TokenBucketStrategy.java:117-119`).
- **Limit 0 in the fixed window.** `ComputeRateLimiter`, `SimpleRateLimiter`
  and `ReentrantLockRateLimiter` admit the first request of a window even with
  limit 0. `AtomicRateLimiter` denies it.
- **No validation.** Limits and windows are not checked at construction. The
  model takes any integers, including a window of 0 (an infinite or NaN rate
  in the source's double arithmetic).
- **Fail-safe default.** An unset fail-safe setting denies, although the
  comment at `RateLimitService.java:140` says it defaults to allow.
- **Fail open in the interceptor.** The `try` of `preHandle` covers the header
  writes and the 429 response as well as the check
  (`RateLimitInterceptor.java:46-68`). The 429 status is set before the body
  is serialised and written (`RateLimitInterceptor.java:129`, `:159-161`), so
  a denial whose body write throws proceeds with status 429 already set.

## Model

| member | source | states |
|---|---|---|
| `Clock.FakeTimeProvider.constructor` | src/main/java/com/learning/ratelimiter/core/FakeTimeProvider.java:4 | the fake clock starts at 0 |
| `Clock.FakeTimeProvider.GetCurrentTimeMillis` | src/main/java/com/learning/ratelimiter/core/FakeTimeProvider.java:5-8 | returns the current time and modifies nothing |
| `Clock.FakeTimeProvider.SetCurrentTime` | src/main/java/com/learning/ratelimiter/core/FakeTimeProvider.java:9-11 | any value is stored, including one before the current time |
| `Clock.FakeClockReadsLastSetValue` | src/main/java/com/learning/ratelimiter/core/FakeTimeProvider.java:4-11 | reads 0 first, then the last value set even when the clock moved backwards; two reads in a row agree |
| `Clock.CurrentTimeMillis` | src/main/java/com/learning/ratelimiter/core/SystemTimeProvider.java:5-7 | the wall clock reads the host time given as a parameter; a fake clock reads its stored time |
| `Rates.WholeUnits` | src/main/java/com/learning/ratelimiter/strategy/TokenBucketStrategy.java:86 | `(long)(delta * max/window)`: for a positive window and a non-negative limit it is the floor of delta*max/window, saturated at the bounds of `long`; a unit is earned only at a positive (or infinite) rate |
| `Rates.FullWindowEarnsLimit` | src/main/java/com/learning/ratelimiter/strategy/TokenBucketStrategy.java:48 | after a whole window has elapsed, at least the limit is earned |
| `JavaStrings.RemoveAll` | src/main/java/com/learning/ratelimiter/service/RateLimitService.java:38 | `replaceAll("/", "")` leaves no slash, keeps every other character, and is the identity on a slash-free string |
| `JavaStrings.ToUpper` | src/main/java/com/learning/ratelimiter/service/RateLimitService.java:187 | `toUpperCase` keeps the length and maps each character by itself |
| `JavaStrings.SameUpperWhenEqualIgnoringCase` | src/main/java/com/learning/ratelimiter/service/RateLimitService.java:187 | names equal ignoring case have the same upper-case form, so they select the same `switch` branch |
| `JavaStrings.Trim` | src/main/java/com/learning/ratelimiter/service/RateLimitService.java:193 | `trim()` is no longer than its input, keeps only its characters, and starts and ends with a character above space |
| `JavaStrings.TrimEmptyIffAllTrimmed` | src/main/java/com/learning/ratelimiter/service/RateLimitService.java:193 | `trim().isEmpty()` holds iff every character is at most a space |
| `JavaStrings.BeforeFirst` | src/main/java/com/learning/ratelimiter/service/RateLimitService.java:257 | `split(",")[0]`, for a value that is not all commas, is the comma-free prefix before the first comma |
| `JavaStrings.BeforeFirstOfJoin` | src/main/java/com/learning/ratelimiter/service/RateLimitService.java:257 | the first entry of `a,rest` is `a` when `a` has no comma |
| `RateLimitService.PrefixedIdentityInjective` | src/main/java/com/learning/ratelimiter/service/RateLimitService.java:194 | two identities with the same prefix are equal iff what follows the prefix is equal |
| `RateLimitService.DoubledAddressPrefix` | src/main/java/com/learning/ratelimiter/service/RateLimitService.java:206-208 | a prefix before an address identity is followed by `IP_` or `UNKNOWN_IP_` |
| `RateLimiterProperties.EndpointValues` | src/main/java/com/learning/ratelimiter/config/RateLimiterProperties.java:47 | the override map read as values has the same keys and each key's current settings |
| `ComputeRateLimiter.Transition` | src/main/java/com/learning/ratelimiter/algorithms/ComputeRateLimiter.java:32-48 | admitted iff there is no record, its window has expired, or its count is below the limit; a new or expired client becomes (1, now); a denial happens only in a live window and returns the record unchanged; an admission is either (1, now) or (count+1, same start); the start moves only on expiry; 1 <= count <= max(1, limit) is kept |
| `ComputeRateLimiter.ExpiredWindowRestarts` | src/main/java/com/learning/ratelimiter/algorithms/ComputeRateLimiter.java:79-81 | once `now - windowStart >= window` the state becomes (1, now) and the request is admitted |
| `ComputeRateLimiter.BurstInLiveWindow` | src/main/java/com/learning/ratelimiter/algorithms/ComputeRateLimiter.java:41-48 | inside a live window holding `count` requests, exactly the first max(1,limit) - count requests are admitted and the rest denied |
| `ComputeRateLimiter.BurstFromNewClient` | src/main/java/com/learning/ratelimiter/algorithms/ComputeRateLimiter.java:36-48 | a new client admits exactly min(n, max(1, limit)) of n requests within its first window |
| `ComputeRateLimiter.DecisionsAppend` | src/main/java/com/learning/ratelimiter/algorithms/ComputeRateLimiter.java:32-49 | the decisions for two batches are those for the first followed by those for the second, from the state the first left |
| `ComputeRateLimiter.BoundaryBurst` | src/main/java/com/learning/ratelimiter/algorithms/ComputeRateLimiter.java:36-44 | 2 x limit requests spread over window + 1 ms are all admitted (the fixed-window boundary burst) |
| `ComputeRateLimiter.SecondBatchInSameWindowDenied` | src/main/java/com/learning/ratelimiter/algorithms/ComputeRateLimiter.java:42-47 | a full limit at t1 and another at t2 inside the same window: the first batch is admitted and the second is all denied |
| `ComputeRateLimiter.AnchoredWindowAcrossClockBoundary` | src/main/java/com/learning/ratelimiter/algorithms/ComputeRateLimiter.java:79-81 | limit 10, window 10000: ten at 9900 are admitted and ten at 10100 are denied |
| `ComputeRateLimiter.OneRequestPerSecond` | src/test/java/com/learning/ratelimiter/core/RateLimiterTest.java:46-67 | limit 1, window 1000: allow at 0, deny at 500, allow at 1100 |
| `ComputeRateLimiter.Admit` | src/main/java/com/learning/ratelimiter/algorithms/ComputeRateLimiter.java:32 | only the requesting client's entry is created or changed; every other entry is kept |
| `ComputeRateLimiter.Run` | src/main/java/com/learning/ratelimiter/algorithms/ComputeRateLimiter.java:28-56 | every call receives exactly one decision (allowed + denied = calls) |
| `ComputeRateLimiter.ClientsAreIndependent` | src/main/java/com/learning/ratelimiter/algorithms/ComputeRateLimiter.java:32 | whatever other clients do and however calls interleave, a client gets exactly the decisions its own calls would get alone |
| `ComputeRateLimiter.ComputeRateLimiter.constructor` | src/main/java/com/learning/ratelimiter/algorithms/ComputeRateLimiter.java:17-21 | stores the limit, window and clock; no client is known |
| `ComputeRateLimiter.ComputeRateLimiter.AllowRequest` | src/main/java/com/learning/ratelimiter/algorithms/ComputeRateLimiter.java:28-56 | the decision and the new map are those of `Admit` on the old map |
| `ComputeRateLimiter.TwentyCallsOneClient` | src/test/java/com/learning/ratelimiter/concurrent/ConcurrentRateLimiterTest.java:29-71 | limit 10: twenty calls by one client in one window give exactly 10 allowed and 10 denied |
| `ComputeRateLimiter.ClientsAreLimitedSeparately` | src/test/java/com/learning/ratelimiter/core/RateLimiterTest.java:26-44 | limit 1: a second immediate request is denied while another client is still admitted |
| `SimpleRateLimiter.SimpleRateLimiter.constructor` | src/main/java/com/learning/ratelimiter/core/SimpleRateLimiter.java:25-29 | stores the limit, window and clock; the map is empty |
| `SimpleRateLimiter.SimpleRateLimiter.AllowRequest` | src/main/java/com/learning/ratelimiter/core/SimpleRateLimiter.java:32-56 | with the in-place increment, the decision and the resulting records are exactly those of the fixed-window rule |
| `SimpleRateLimiter.SimpleRateLimiter.OpenWindow` | src/main/java/com/learning/ratelimiter/core/SimpleRateLimiter.java:38-41 | a new or expired client is stored as a fresh record (1, now), even with limit 0 |
| `SimpleRateLimiter.SimpleRateLimiter.CountRequest` | src/main/java/com/learning/ratelimiter/core/SimpleRateLimiter.java:47-49 | the client's count goes up by one in place; no other record changes |
| `ReentrantLockRateLimiter.ReentrantLockRateLimiter.constructor` | src/main/java/com/learning/ratelimiter/algorithms/ReentrantLockRateLimiter.java:19-23 | stores the limit, window and clock; the map is empty |
| `ReentrantLockRateLimiter.ReentrantLockRateLimiter.AllowRequest` | src/main/java/com/learning/ratelimiter/algorithms/ReentrantLockRateLimiter.java:30-59 | run sequentially under the lock, the decision and resulting records are those of the fixed-window rule |
| `ReentrantLockRateLimiter.ReentrantLockRateLimiter.OpenWindow` | src/main/java/com/learning/ratelimiter/algorithms/ReentrantLockRateLimiter.java:38-41 | a new or expired client is stored as (1, now) |
| `ReentrantLockRateLimiter.ReentrantLockRateLimiter.CountRequest` | src/main/java/com/learning/ratelimiter/algorithms/ReentrantLockRateLimiter.java:47-49 | the count goes up by one in place; no other record changes |
| `AtomicRateLimiter.IncrementAndGet` | src/main/java/com/learning/ratelimiter/algorithms/AtomicRateLimiter.java:45 | `incrementAndGet` on a 32-bit int: one more, modulo 2^32 |
| `AtomicRateLimiter.AtomicTransition` | src/main/java/com/learning/ratelimiter/algorithms/AtomicRateLimiter.java:35-61 | a new or expired client gets (1, now); any other call increments the count, admitted or not; a call is allowed iff the updated count is at most the limit |
| `AtomicRateLimiter.AtomicAdmit` | src/main/java/com/learning/ratelimiter/algorithms/AtomicRateLimiter.java:35 | only the requesting client's entry is created or changed |
| `AtomicRateLimiter.AtomicRun` | src/main/java/com/learning/ratelimiter/algorithms/AtomicRateLimiter.java:32-62 | every call receives exactly one decision |
| `AtomicRateLimiter.AgreesWithFixedWindow` | src/main/java/com/learning/ratelimiter/algorithms/AtomicRateLimiter.java:41-54 | with limit >= 1 and before a counter could wrap, the atomic limiter gives every call the fixed-window decision; its count, capped at the limit, is the fixed-window count |
| `AtomicRateLimiter.AgreesWithFixedWindowFromStart` | src/main/java/com/learning/ratelimiter/algorithms/AtomicRateLimiter.java:41-54 | the same agreement from empty maps, for fewer than 2^31 calls |
| `AtomicRateLimiter.NonPositiveLimitDeniesAll` | src/main/java/com/learning/ratelimiter/algorithms/AtomicRateLimiter.java:51-54 | with limit <= 0 (before wrap-around) every call is denied, even the first of a window |
| `AtomicRateLimiter.ZeroLimitDiverges` | src/main/java/com/learning/ratelimiter/algorithms/AtomicRateLimiter.java:41-54 | with limit 0 a new client's first call is denied here and admitted by the fixed-window rule |
| `AtomicRateLimiter.CounterWrapReadmits` | src/main/java/com/learning/ratelimiter/algorithms/AtomicRateLimiter.java:45-51 | after 2^31-1 calls in one window the counter wraps to the most negative int and the next call is admitted |
| `AtomicRateLimiter.ClientData.constructor` | src/main/java/com/learning/ratelimiter/algorithms/AtomicRateLimiter.java:68-72 | the counter starts at the given count with a fixed window start |
| `AtomicRateLimiter.AtomicRateLimiter.constructor` | src/main/java/com/learning/ratelimiter/algorithms/AtomicRateLimiter.java:18-22 | stores the limit, window and clock; the map is empty |
| `AtomicRateLimiter.AtomicRateLimiter.AllowRequest` | src/main/java/com/learning/ratelimiter/algorithms/AtomicRateLimiter.java:32-62 | with the in-place increment of a shared counter, the decision and counters are those of `AtomicAdmit` |
| `FixedWindowReplay.ReplayCompute` | src/main/java/com/learning/ratelimiter/algorithms/ComputeRateLimiter.java:28-56 | replaying any call sequence through a fresh limiter yields `ComputeRateLimiter.Run` |
| `FixedWindowReplay.ReplaySimple` | src/main/java/com/learning/ratelimiter/core/SimpleRateLimiter.java:32-56 | the same call sequence yields the same decisions as `ComputeRateLimiter` |
| `FixedWindowReplay.ReplayReentrantLock` | src/main/java/com/learning/ratelimiter/algorithms/ReentrantLockRateLimiter.java:30-59 | the same call sequence yields the same decisions as `SimpleRateLimiter` and `ComputeRateLimiter` |
| `FixedWindowReplay.ReplayAtomic` | src/main/java/com/learning/ratelimiter/algorithms/AtomicRateLimiter.java:32-62 | yields `AtomicRun`, and the fixed-window decisions whenever the limit is at least 1 and there are fewer than 2^31 calls |
| `SlidingWindowStrategy.Pruned` | src/main/java/com/learning/ratelimiter/strategy/SlidingWindowStrategy.java:66-72 | what remains of the log is empty or starts strictly after `now - window` |
| `SlidingWindowStrategy.PrunedSplit` | src/main/java/com/learning/ratelimiter/strategy/SlidingWindowStrategy.java:66-72 | pruning removes a prefix of the log, every removed time is <= `now - window`, and it stops at the first time still inside |
| `SlidingWindowStrategy.PrunedKeepsLive` | src/main/java/com/learning/ratelimiter/strategy/SlidingWindowStrategy.java:69 | a log whose every time is inside the window is not pruned |
| `SlidingWindowStrategy.Step` | src/main/java/com/learning/ratelimiter/strategy/SlidingWindowStrategy.java:33-57 | admitted iff the pruned log has fewer than `maxRequests` times; on admit `now` is appended and the log holds at most the limit; on deny the log is only pruned; an unseen client starts empty and is admitted iff the limit is >= 1 |
| `SlidingWindowStrategy.CountValid` | src/main/java/com/learning/ratelimiter/strategy/SlidingWindowStrategy.java:96-98 | the number of logged times with `now - t < window` is at most the log length |
| `SlidingWindowStrategy.SortedPruneKeepsLive` | src/main/java/com/learning/ratelimiter/strategy/SlidingWindowStrategy.java:96-98 | for a log in time order, the pruned log's length equals the count of times still inside the window |
| `SlidingWindowStrategy.StepKeepsWindow` | src/main/java/com/learning/ratelimiter/strategy/SlidingWindowStrategy.java:42-49 | a request keeps the log equal to the admitted times still in the window, and bounded by the limit |
| `SlidingWindowStrategy.RunKeepsWindow` | src/main/java/com/learning/ratelimiter/strategy/SlidingWindowStrategy.java:29-64 | over any call sequence at a non-decreasing clock, the log is the suffix of admitted times still in the window |
| `SlidingWindowStrategy.AtMostLimitInAnyWindow` | src/main/java/com/learning/ratelimiter/strategy/SlidingWindowStrategy.java:42-49 | at a non-decreasing clock, the admitted requests within the window ending at any request never exceed the limit |
| `SlidingWindowStrategy.AdmittedIffRoomInWindow` | src/main/java/com/learning/ratelimiter/strategy/SlidingWindowStrategy.java:45-49 | a request is admitted iff fewer than `maxRequests` earlier admissions lie inside the window ending at it |
| `SlidingWindowStrategy.BurstWithinOneWindow` | src/main/java/com/learning/ratelimiter/strategy/SlidingWindowStrategy.java:45-53 | requests inside one window are admitted until the log holds the limit, and every later one is denied |
| `SlidingWindowStrategy.NoBurstAcrossClockBoundary` | src/main/java/com/learning/ratelimiter/strategy/SlidingWindowStrategy.java:67-69 | limit 10, window 10000: ten at 9900 are admitted and ten at 10100 are denied |
| `SlidingWindowStrategy.AdmitsAgainAfterQuietWindow` | src/main/java/com/learning/ratelimiter/strategy/SlidingWindowStrategy.java:66-72 | once every logged time is a window old, a positive limit admits again |
| `SlidingWindowStrategy.SlidingWindowStrategy.constructor` | src/main/java/com/learning/ratelimiter/strategy/SlidingWindowStrategy.java:18-22 | stores the limit, window and clock; no log exists |
| `SlidingWindowStrategy.SlidingWindowStrategy.AllowRequest` | src/main/java/com/learning/ratelimiter/strategy/SlidingWindowStrategy.java:28-64 | the decision is `Step`'s; only this client's log is replaced by `Step`'s log; no log exceeds the limit |
| `SlidingWindowStrategy.SlidingWindowStrategy.RemoveExpiredTimestamps` | src/main/java/com/learning/ratelimiter/strategy/SlidingWindowStrategy.java:66-76 | the polling loop leaves exactly `Pruned(log, now - window)` |
| `SlidingWindowStrategy.SlidingWindowStrategy.Reset` | src/main/java/com/learning/ratelimiter/strategy/SlidingWindowStrategy.java:78-84 | removes the client's entry and nothing else, so the client is unseen; an unseen client changes nothing |
| `SlidingWindowStrategy.SlidingWindowStrategy.GetRemainingRequests` | src/main/java/com/learning/ratelimiter/strategy/SlidingWindowStrategy.java:86-104 | the limit for an unseen client, otherwise max(0, limit - live times); reads the log without changing it |
| `SlidingWindowStrategy.SlidingWindowStrategy.GetCurrentWindowSize` | src/main/java/com/learning/ratelimiter/strategy/SlidingWindowStrategy.java:108-117 | 0 with nothing stored for an unseen client; otherwise prunes the log in place and returns its size |
| `SlidingWindowStrategy.RemainingReportsRoom` | src/main/java/com/learning/ratelimiter/strategy/SlidingWindowStrategy.java:86-104 | for a log in time order, remaining > 0 iff a request at the same instant would be admitted |
| `SlidingWindowStrategy.LimitOfThree` | src/test/java/com/learning/ratelimiter/integration/RateLimiterIntegrationTest.java:55-76 | limit 3: three requests leave 2, 1, 0 remaining; the fourth is denied with 0 remaining |
| `TokenBucketStrategy.Refill` | src/main/java/com/learning/ratelimiter/strategy/TokenBucketStrategy.java:80-97 | if no time passed or no whole token was earned, the bucket is unchanged; otherwise earned tokens are added up to the capacity and the refill time becomes `now`; bounds are kept and a second refill at the same instant changes nothing |
| `TokenBucketStrategy.Step` | src/main/java/com/learning/ratelimiter/strategy/TokenBucketStrategy.java:61-71 | a new bucket starts full at `now`; allowed iff tokens > 0 after refill; allow removes exactly one token, deny leaves the tokens; 0 <= tokens <= capacity is kept |
| `TokenBucketStrategy.Admit` | src/main/java/com/learning/ratelimiter/strategy/TokenBucketStrategy.java:61 | only the requesting client's bucket is created or changed |
| `TokenBucketStrategy.Decisions` | src/main/java/com/learning/ratelimiter/strategy/TokenBucketStrategy.java:56-79 | every call receives exactly one decision |
| `TokenBucketStrategy.Final` | src/main/java/com/learning/ratelimiter/strategy/TokenBucketStrategy.java:56-79 | after at least one request the client has a well-formed bucket |
| `TokenBucketStrategy.QuietStep` | src/main/java/com/learning/ratelimiter/strategy/TokenBucketStrategy.java:98-109 | when nothing is earned, a request takes a token if there is one and otherwise leaves the bucket as it is |
| `TokenBucketStrategy.BurstAtOneInstant` | src/main/java/com/learning/ratelimiter/strategy/TokenBucketStrategy.java:98-109 | at one instant, exactly the first `tokens` requests are admitted |
| `TokenBucketStrategy.BurstLeavesBucket` | src/main/java/com/learning/ratelimiter/strategy/TokenBucketStrategy.java:98-109 | the burst leaves the untaken tokens and does not move the refill time |
| `TokenBucketStrategy.BurstFromNewClient` | src/main/java/com/learning/ratelimiter/strategy/TokenBucketStrategy.java:63-66 | a new client's burst at one instant admits exactly min(n, max(0, limit)) |
| `TokenBucketStrategy.RefillAfterFullWindow` | src/main/java/com/learning/ratelimiter/strategy/TokenBucketStrategy.java:85-95 | after a whole window without refill the bucket is full again and admits when the limit is positive |
| `TokenBucketStrategy.FifteenThenRecovery` | src/test/java/com/learning/ratelimiter/comparison/AlgorithmComparisonTest.java:157-178 | limit 10: fifteen calls at one instant give 10 allowed and 5 denied, and a call a window plus 1000 ms later is allowed |
| `TokenBucketStrategy.TokenBucket.constructor` | src/main/java/com/learning/ratelimiter/strategy/TokenBucketStrategy.java:25-30 | stores tokens, refill time and capacity |
| `TokenBucketStrategy.TokenBucketStrategy.constructor` | src/main/java/com/learning/ratelimiter/strategy/TokenBucketStrategy.java:41-50 | the capacity is the limit; no bucket exists |
| `TokenBucketStrategy.TokenBucketStrategy.AllowRequest` | src/main/java/com/learning/ratelimiter/strategy/TokenBucketStrategy.java:56-79 | the decision and the bucket contents are those of `Admit`; new buckets are fresh objects |
| `TokenBucketStrategy.TokenBucketStrategy.EnsureBucket` | src/main/java/com/learning/ratelimiter/strategy/TokenBucketStrategy.java:63-64 | an unseen client gets a full bucket last refilled at `now`; a known client keeps its bucket |
| `TokenBucketStrategy.TokenBucketStrategy.RefillAndConsume` | src/main/java/com/learning/ratelimiter/strategy/TokenBucketStrategy.java:65-66 | refills and consumes in place on this client's bucket only, as `Step` says |
| `TokenBucketStrategy.TokenBucketStrategy.RefillTokens` | src/main/java/com/learning/ratelimiter/strategy/TokenBucketStrategy.java:80-97 | the in-place refill leaves exactly `Refill` of the old bucket |
| `TokenBucketStrategy.TokenBucketStrategy.TryConsumeToken` | src/main/java/com/learning/ratelimiter/strategy/TokenBucketStrategy.java:98-109 | consumed iff tokens > 0; one token less on success, unchanged otherwise |
| `TokenBucketStrategy.TokenBucketStrategy.Reset` | src/main/java/com/learning/ratelimiter/strategy/TokenBucketStrategy.java:110-114 | removes the bucket, so the next request sees a full one |
| `TokenBucketStrategy.TokenBucketStrategy.GetRemainingRequests` | src/main/java/com/learning/ratelimiter/strategy/TokenBucketStrategy.java:116-119 | returns 0 for every client, whatever its bucket holds |
| `TokenBucketStrategy.FifteenCallsThenRecovery` | src/test/java/com/learning/ratelimiter/comparison/AlgorithmComparisonTest.java:193-215 | through the class: fifteen calls give 10 allowed and 5 denied, and after window + 1000 ms a call is allowed |
| `LeakyBucketStrategy.Leak` | src/main/java/com/learning/ratelimiter/strategy/LeakyBucketStrategy.java:91-117 | if no time passed or no whole unit leaked, the bucket is untouched; otherwise the leaked units are removed, never below 0, and the leak time becomes `now` |
| `LeakyBucketStrategy.Step` | src/main/java/com/learning/ratelimiter/strategy/LeakyBucketStrategy.java:54-82 | a new bucket starts empty at `now`; allowed iff volume after the leak is below capacity; allow adds exactly 1, deny leaves the volume; 0 <= volume <= capacity is kept |
| `LeakyBucketStrategy.Admit` | src/main/java/com/learning/ratelimiter/strategy/LeakyBucketStrategy.java:54 | only the requesting client's bucket is created or changed |
| `LeakyBucketStrategy.Remaining` | src/main/java/com/learning/ratelimiter/strategy/LeakyBucketStrategy.java:127-143 | the limit for an unseen client, otherwise max(0, capacity - leaked volume); positive iff a request now would be admitted |
| `LeakyBucketStrategy.RemainingAtSameInstantKeepsBucket` | src/main/java/com/learning/ratelimiter/strategy/LeakyBucketStrategy.java:127-143 | `getRemainingRequests` at the instant of the request it follows leaves that request's bucket as it is |
| `LeakyBucketStrategy.LaterRemainingChangesDecisions` | src/main/java/com/learning/ratelimiter/strategy/LeakyBucketStrategy.java:127-143 | at a later instant it leaks in place, and the lost fraction of a unit changes later decisions: a full bucket of 10 read at 1500 ms admits two of three requests at 3000 ms, the unread one all three |
| `LeakyBucketStrategy.Decisions` | src/main/java/com/learning/ratelimiter/strategy/LeakyBucketStrategy.java:50-85 | every call receives exactly one decision |
| `LeakyBucketStrategy.LeakMirrorsRefill` | src/main/java/com/learning/ratelimiter/strategy/LeakyBucketStrategy.java:91-117 | a leak and a token refill at the same instant keep volume = capacity - tokens |
| `LeakyBucketStrategy.StepMirrors` | src/main/java/com/learning/ratelimiter/strategy/LeakyBucketStrategy.java:54-82 | mirrored buckets decide a request alike and stay mirrored |
| `LeakyBucketStrategy.SameDecisionsAsTokenBucket` | src/main/java/com/learning/ratelimiter/strategy/LeakyBucketStrategy.java:50-85 | for any call times, the leaky and token buckets with the same limit and window make the same decisions |
| `LeakyBucketStrategy.BurstFromNewClient` | src/main/java/com/learning/ratelimiter/strategy/LeakyBucketStrategy.java:59-79 | a new client's burst at one instant admits exactly min(n, max(0, limit)) |
| `LeakyBucketStrategy.DrainsAfterFullWindow` | src/main/java/com/learning/ratelimiter/strategy/LeakyBucketStrategy.java:95-109 | after a whole window the bucket is empty and admits when the limit is positive |
| `LeakyBucketStrategy.LeakyBucket.constructor` | src/main/java/com/learning/ratelimiter/strategy/LeakyBucketStrategy.java:35-40 | a bucket starts empty, last leaked at the given time, with the given capacity |
| `LeakyBucketStrategy.LeakyBucketStrategy.constructor` | src/main/java/com/learning/ratelimiter/strategy/LeakyBucketStrategy.java:18-23 | stores the limit, window and clock; no bucket exists |
| `LeakyBucketStrategy.LeakyBucketStrategy.AllowRequest` | src/main/java/com/learning/ratelimiter/strategy/LeakyBucketStrategy.java:50-85 | the decision and bucket contents are those of `Admit` |
| `LeakyBucketStrategy.LeakyBucketStrategy.EnsureBucket` | src/main/java/com/learning/ratelimiter/strategy/LeakyBucketStrategy.java:59-61 | an unseen client gets an empty bucket last leaked at `now`; a known client keeps its bucket |
| `LeakyBucketStrategy.LeakyBucketStrategy.LeakAndFill` | src/main/java/com/learning/ratelimiter/strategy/LeakyBucketStrategy.java:64-79 | leaks and fills in place on this client's bucket only, as `Step` says |
| `LeakyBucketStrategy.LeakyBucketStrategy.Fill` | src/main/java/com/learning/ratelimiter/strategy/LeakyBucketStrategy.java:64-79 | one bucket leaks, then is admitted iff below capacity and takes one unit: exactly `Step` on its old contents |
| `LeakyBucketStrategy.LeakyBucketStrategy.LeakWater` | src/main/java/com/learning/ratelimiter/strategy/LeakyBucketStrategy.java:91-117 | the in-place leak leaves exactly `Leak` of the old bucket |
| `LeakyBucketStrategy.LeakyBucketStrategy.Reset` | src/main/java/com/learning/ratelimiter/strategy/LeakyBucketStrategy.java:119-125 | removes the bucket; doing it twice is doing it once |
| `LeakyBucketStrategy.LeakyBucketStrategy.GetRemainingRequests` | src/main/java/com/learning/ratelimiter/strategy/LeakyBucketStrategy.java:127-143 | returns `Remaining`; an unseen client gets no entry, a seen client's bucket is leaked in place |
| `LeakyBucketStrategy.LeakyBucketStrategy.GetCurrentVolume` | src/main/java/com/learning/ratelimiter/strategy/LeakyBucketStrategy.java:148-157 | 0 for an unseen client with nothing stored; otherwise the volume after leaking in place |
| `RateLimitingStrategy.Name` | src/main/java/com/learning/ratelimiter/strategy/RateLimitingAlgorithm.java:3-8 | the window algorithms' names end in `_WINDOW`, the bucket algorithms' in `_BUCKET`, and no other way round |
| `RateLimitingStrategy.NamesAreDistinct` | src/main/java/com/learning/ratelimiter/strategy/RateLimitingAlgorithm.java:3-8 | the four algorithms have four distinct names |
| `RateLimitingStrategy.Strategy.AllowRequest` | src/main/java/com/learning/ratelimiter/strategy/RateLimitingStrategy.java:4 | whichever algorithm the limiter has, the decision and the state it leaves (all of its clients' records, as a `State` value) are `Transit` of the state before; per algorithm the records are those of `Admit`/`Step`; it stays valid and any record it takes on is new |
| `RateLimitingStrategy.Strategy.Decide` | src/main/java/com/learning/ratelimiter/strategy/RateLimitingStrategy.java:4 | the same call seen from a caller that owns the limiter: the decision and the new state are `Transit` of the state before; the limiter stays valid, and any record it takes on is new |
| `RateLimitingStrategy.FirstDecision` | src/main/java/com/learning/ratelimiter/factory/RateLimiterFactory.java:20-28 | a limiter that has seen no client is in the initial state of its algorithm, and admits a first request iff its limit is positive, or always for the fixed window |
| `RateLimitingStrategy.Strategy.Reset` | src/main/java/com/learning/ratelimiter/strategy/RateLimitingStrategy.java:5 | for a sliding-window, leaky-bucket or token-bucket limiter, the client's entry is removed; the limiter stays valid and owns no new object |
| `RateLimitingStrategy.Transit` | src/main/java/com/learning/ratelimiter/strategy/RateLimitingStrategy.java:4 | one `allowRequest` of the algorithm the state belongs to: the new state is of the same algorithm, still well formed (every sliding-window log holds at most the limit), and records exactly the clients before plus this one |
| `RateLimitingStrategy.FirstTransit` | src/main/java/com/learning/ratelimiter/factory/RateLimiterFactory.java:20-28 | from the empty state of any algorithm, a first request is admitted iff the limit is positive, or always for the fixed window |
| `RateLimitingStrategy.Replay` | src/main/java/com/learning/ratelimiter/strategy/RateLimitingStrategy.java:4 | a sequence of calls on one limiter gets exactly one decision per call |
| `RateLimitingStrategy.FixedReplayIsRun` | src/main/java/com/learning/ratelimiter/algorithms/ComputeRateLimiter.java:32-48 | a fixed-window limiter replaying calls gives exactly the decisions of the map-level fixed-window rule `Run` |
| `RateLimitingStrategy.FixedWindowBurstPerClient` | src/test/java/com/learning/ratelimiter/integration/RateLimiterIntegrationTest.java:25-50 | on a fresh fixed-window limiter, a client whose requests all fall in the window its first one opens gets the first `limit` admitted and the rest denied, whatever other clients send in between |
| `RateLimitingStrategy.Strategy.State` | src/main/java/com/learning/ratelimiter/strategy/RateLimitingStrategy.java:4 | the records of all clients of the limiter, as a value of the limiter's own algorithm |
| `RateLimitingStrategy.Strategy.StateIsSound` | src/main/java/com/learning/ratelimiter/strategy/SlidingWindowStrategy.java:45-47 | a valid limiter's state is well formed; in particular no sliding-window log is longer than the limit |
| `RateLimiterFactory.WithSystemClock` | src/main/java/com/learning/ratelimiter/factory/RateLimiterFactory.java:12-14 | the two-argument constructor supplies the system clock |
| `RateLimiterFactory.CreateStrategy` | src/main/java/com/learning/ratelimiter/factory/RateLimiterFactory.java:20-28 | each algorithm maps to its own strategy, which gets exactly the configured limit and window and the factory's clock; the result is new and has seen no client; every enum value is covered |
| `RateLimiterFactory.FirstRequestIsAllowed` | src/test/java/com/learning/ratelimiter/factory/RateLimiterFactoryTest.java:30-34 | a fresh strategy admits a new client's first request when the limit is positive (the fixed window whatever the limit); two creations give distinct objects |
| `RateLimiterProperties.EndpointConfig.constructor` | src/main/java/com/learning/ratelimiter/config/RateLimiterProperties.java:51-54 | an override defaults to 100, 60000 ms, FIXED_WINDOW, enabled |
| `RateLimiterProperties.EndpointConfig.SetMaxRequests` | src/main/java/com/learning/ratelimiter/config/RateLimiterProperties.java:58 | changes only the limit |
| `RateLimiterProperties.EndpointConfig.SetTimeWindowMs` | src/main/java/com/learning/ratelimiter/config/RateLimiterProperties.java:61 | changes only the window |
| `RateLimiterProperties.EndpointConfig.SetAlgorithm` | src/main/java/com/learning/ratelimiter/config/RateLimiterProperties.java:64 | changes only the algorithm |
| `RateLimiterProperties.EndpointConfig.SetEnabled` | src/main/java/com/learning/ratelimiter/config/RateLimiterProperties.java:67 | changes only the enabled flag |
| `RateLimiterProperties.RateLimiterProperties.constructor` | src/main/java/com/learning/ratelimiter/config/RateLimiterProperties.java:15-25 | defaults 100, 60000 ms, FIXED_WINDOW, IP_ADDRESS, X-API-Key, X-User-ID, no overrides |
| `RateLimiterProperties.RateLimiterProperties.SetDefaultMaxRequests` | src/main/java/com/learning/ratelimiter/config/RateLimiterProperties.java:29 | changes only the default limit |
| `RateLimiterProperties.RateLimiterProperties.SetDefaultTimeWindowMs` | src/main/java/com/learning/ratelimiter/config/RateLimiterProperties.java:32 | changes only the default window |
| `RateLimiterProperties.RateLimiterProperties.SetDefaultAlgorithm` | src/main/java/com/learning/ratelimiter/config/RateLimiterProperties.java:35 | changes only the default algorithm |
| `RateLimiterProperties.RateLimiterProperties.SetClientIdStrategy` | src/main/java/com/learning/ratelimiter/config/RateLimiterProperties.java:38 | changes only the client-ID strategy |
| `RateLimiterProperties.RateLimiterProperties.SetApiKeyHeader` | src/main/java/com/learning/ratelimiter/config/RateLimiterProperties.java:41 | changes only the API-key header name |
| `RateLimiterProperties.RateLimiterProperties.SetUserIdHeader` | src/main/java/com/learning/ratelimiter/config/RateLimiterProperties.java:44 | changes only the user header name |
| `RateLimiterProperties.RateLimiterProperties.SetEndpoints` | src/main/java/com/learning/ratelimiter/config/RateLimiterProperties.java:47 | changes only the override map |
| `RateLimitService.FirstMatch` | src/main/java/com/learning/ratelimiter/service/RateLimitService.java:332-338 | the index of the first key whose slash-free form equals the endpoint's, none iff no key matches |
| `RateLimitService.FirstMatchIsEarliest` | src/main/java/com/learning/ratelimiter/service/RateLimitService.java:332-338 | a matching index with no earlier match is the one the loop stops at |
| `RateLimitService.MatchedSettings` | src/main/java/com/learning/ratelimiter/service/RateLimitService.java:323-338 | an override is found iff some key equals the endpoint after both are normalised, and it is that key's override |
| `RateLimitService.Resolve` | src/main/java/com/learning/ratelimiter/service/RateLimitService.java:346-358 | a matched, enabled override supplies limit, window and algorithm; otherwise all three are the defaults |
| `RateLimitService.OrderIrrelevantWhenUnambiguous` | src/main/java/com/learning/ratelimiter/service/RateLimitService.java:332-338 | when at most one key matches, the iteration order of the map does not matter |
| `RateLimitService.AmbiguousKeysDependOnOrder` | src/main/java/com/learning/ratelimiter/service/RateLimitService.java:332-338 | keys `/k` and `k` both match, and the iteration order decides which override wins |
| `RateLimitService.ReportedMatchesBuiltWithoutSlashes` | src/main/java/com/learning/ratelimiter/service/RateLimitService.java:166-174 | when no key contains a slash, the reported algorithm is the one the limiter is built with |
| `RateLimitService.ReportedCanDisagreeWithBuilt` | src/main/java/com/learning/ratelimiter/service/RateLimitService.java:166-174 | a key written with a slash gives a limiter with its own algorithm, while the default algorithm is reported |
| `RateLimitService.FirstUsable` | src/main/java/com/learning/ratelimiter/service/RateLimitService.java:252-255 | the first header in order that is present, non-empty and not `unknown` in any case; none iff no header is usable |
| `RateLimitService.FromHeader` | src/main/java/com/learning/ratelimiter/service/RateLimitService.java:255-259 | a value without a comma gives `IP_` + value; a list gives `IP_` + its trimmed first entry; a value of only commas fails and gives `UNKNOWN_IP_` + the host time |
| `RateLimitService.ListGivesFirstEntry` | src/main/java/com/learning/ratelimiter/service/RateLimitService.java:256-257 | `a,b…` with a non-empty `a` gives `IP_` + trim(a) |
| `RateLimitService.IpAddressOf` | src/main/java/com/learning/ratelimiter/service/RateLimitService.java:241-268 | the address identity always starts with `IP_` or `UNKNOWN_IP_` |
| `RateLimitService.ExtractIpAddress` | src/main/java/com/learning/ratelimiter/service/RateLimitService.java:241-268 | the header loop returns exactly `IpAddressOf` |
| `RateLimitService.ForwardedForWins` | src/main/java/com/learning/ratelimiter/service/RateLimitService.java:243-255 | a usable X-Forwarded-For header decides over every other source |
| `RateLimitService.FallsBackToRemoteAddress` | src/main/java/com/learning/ratelimiter/service/RateLimitService.java:263-264 | with no usable proxy header the identity is `IP_` + remote address |
| `RateLimitService.FirstHopOfForwardedList` | src/main/java/com/learning/ratelimiter/service/RateLimitService.java:255-259 | a forwarded list gives its first hop, trimmed |
| `RateLimitService.UnknownHeaderIsSkipped` | src/main/java/com/learning/ratelimiter/service/RateLimitService.java:254 | a header spelled `Unknown` is skipped |
| `RateLimitService.StrategyNameIgnoresCase` | src/main/java/com/learning/ratelimiter/service/RateLimitService.java:187 | strategy names equal ignoring case give the same client ID |
| `RateLimitService.ClientIdOf` | src/main/java/com/learning/ratelimiter/service/RateLimitService.java:179-236 | by the strategy compared ignoring case: `API_KEY` with a non-blank key gives `API_` + key; `COMBINED` gives `API_` + key + `_IP_` + address with a key and `IP_` + address without; `USER_ID` with a non-blank user gives `USER_` + user; `IP_ADDRESS`, a missing key or user, and an unknown strategy give the address identity |
| `RateLimitService.IdentityKinds` | src/main/java/com/learning/ratelimiter/service/RateLimitService.java:187-223 | every identity starts with `API_`, `USER_`, `IP_` or `UNKNOWN_IP_`, so its kind can be read off it |
| `RateLimitService.KeyedClientsAreSeparate` | src/main/java/com/learning/ratelimiter/service/RateLimitService.java:191-199 | under API_KEY a non-blank key gives `API_` + key untrimmed; it equals another request's ID iff that one has the same non-blank key |
| `RateLimitService.UserClientsAreSeparate` | src/main/java/com/learning/ratelimiter/service/RateLimitService.java:211-219 | under USER_ID a non-blank user gives `USER_` + user; it equals another request's ID iff that one has the same non-blank user |
| `RateLimitService.CombinedRepeatsAddressPrefix` | src/main/java/com/learning/ratelimiter/service/RateLimitService.java:201-209 | COMBINED prefixes the address identity again: `API_k_IP_IP_…` with a key, `IP_IP_…` without |
| `RateLimitService.UnknownStrategyUsesAddress` | src/main/java/com/learning/ratelimiter/service/RateLimitService.java:221-223 | an unknown strategy gives the address identity |
| `RateLimitService.CreateFailSafeResult` | src/main/java/com/learning/ratelimiter/service/RateLimitService.java:136-146 | remaining -1, the error type as algorithm, allowed iff the setting equals `ALLOW` ignoring case; unset denies |
| `RateLimitService.FailSafeSettings` | src/main/java/com/learning/ratelimiter/service/RateLimitService.java:138-140 | `allow` and `Allow` admit; `DENY` and no setting deny |
| `RateLimitService.RateLimitService.constructor` | src/main/java/com/learning/ratelimiter/service/RateLimitService.java:26-34 | stores the properties; no limiter and no cached endpoint; the service owns only itself |
| `RateLimitService.RateLimitService.GetNormalizedEndpoint` | src/main/java/com/learning/ratelimiter/service/RateLimitService.java:36-39 | returns the endpoint without any slash and caches it under the raw endpoint |
| `RateLimitService.RateLimitService.MatchConfig` | src/main/java/com/learning/ratelimiter/service/RateLimitService.java:332-338 | the loop finds the override at `FirstMatch` |
| `RateLimitService.RateLimitService.GetMaxRequestsForEndpoint` | src/main/java/com/learning/ratelimiter/service/RateLimitService.java:147-161 | the limit the endpoint's limiter is built with |
| `RateLimitService.RateLimitService.GetAlgorithmForEndpoint` | src/main/java/com/learning/ratelimiter/service/RateLimitService.java:166-174 | a direct lookup of the normalised endpoint among the raw keys, else the default |
| `RateLimitService.RateLimitService.CreateRateLimiterForEndpoint` | src/main/java/com/learning/ratelimiter/service/RateLimitService.java:323-366 | a new, unused limiter on the system clock with the resolved algorithm, limit and window |
| `RateLimitService.RateLimitService.GetRateLimiterForEndpoint` | src/main/java/com/learning/ratelimiter/service/RateLimitService.java:275-277 | returns the registered limiter for a known raw endpoint and changes nothing; otherwise creates, registers and returns a new one; in both cases the returned limiter is valid and owned by the service, which stays valid, and every limiter registered before keeps its state |
| `RateLimitService.RateLimitService.Register` | src/main/java/com/learning/ratelimiter/service/RateLimitService.java:277 | `computeIfAbsent` stores a limiter owned by nobody else under the endpoint; every registered limiter stays valid and no two share an object |
| `RateLimitService.RateLimitService.AllowRequestFor` | src/main/java/com/learning/ratelimiter/service/RateLimitService.java:65-72 | the URI's registered limiter decides and moves to its next state by `Transit` from the state before the call; a limiter created for the call has the resolved algorithm, limit and window, takes its first step from that algorithm's initial state, and admits iff the resolved limit is positive or the algorithm is the fixed window; every other URI's limiter keeps its state; the service stays valid and registers at most this URI |
| `RateLimitService.RateLimitService.Decide` | src/main/java/com/learning/ratelimiter/service/RateLimitService.java:72 | the registered limiter's decision and new state are its `Transit` from the state before the call; the other limiters keep their state and stay owned, so the service stays valid |
| `RateLimitService.RateLimitService.ResetRateLimitForClient` | src/main/java/com/learning/ratelimiter/service/RateLimitService.java:372-378 | resets the client on the limiter registered under exactly this endpoint, if any; the service stays valid |
| `RateLimitService.SameLimiterOnSecondLookup` | src/main/java/com/learning/ratelimiter/service/RateLimitService.java:275-277 | a second lookup returns the same limiter and registers nothing new |
| `RateLimitService.RateLimitService.Adopt` | src/main/java/com/learning/ratelimiter/service/RateLimitService.java:72 | after the limiter registered under the endpoint has grown, the service owns its new records and is valid again |
| `RateLimitService.RateLimitService.Serve` | src/main/java/com/learning/ratelimiter/service/RateLimitService.java:65-72 | with the remaining-count call after each check reading the same `now` (so changing nothing), a sequence of checks on one URI gets the decisions its limiter gives by replaying them from the state it held, or, for a URI not seen before, from the initial state of its resolved algorithm, limit and window; the service stays valid |
| `RateLimitService.RateLimitService.ServeRegistered` | src/main/java/com/learning/ratelimiter/service/RateLimitService.java:65-72 | under the same reading of the remaining-count call as `Serve`, checks on a URI whose limiter exists get, one after another, the decisions of that limiter's replay; no URI is registered |
| `RateLimitService.FixedWindowOfTenScenario` | src/test/java/com/learning/ratelimiter/integration/RateLimiterIntegrationTest.java:79-121 | on a fresh URI with a fixed window of 10, a client sending 11 requests inside its first window gets 10 admissions then a denial, and another client's single request is admitted, in any interleaving |
| `RateLimitInterceptor.ShouldSkipRateLimiting` | src/main/java/com/learning/ratelimiter/web/RateLimitInterceptor.java:74-99 | skipped iff the URI is `/health`, `/ping` or `/favicon.ico`, or starts with `/actuator/`, `/static/`, `/css/`, `/js/` or `/images/`; a skipped URI starts with `/` |
| `RateLimitInterceptor.ApiPathsAreLimited` | src/main/java/com/learning/ratelimiter/web/RateLimitInterceptor.java:74-99 | `/api/…` and `/actuator` without the trailing slash are not skipped |
| `RateLimitInterceptor.SkippedPrefixes` | src/main/java/com/learning/ratelimiter/web/RateLimitInterceptor.java:76-91 | anything under `/actuator/`, `/static/`, `/css/`, `/js/` or `/images/` is skipped |
| `RateLimitInterceptor.PreHandle` | src/main/java/com/learning/ratelimiter/web/RateLimitInterceptor.java:36-69 | stops the request iff the path is not skipped, the check returned a denial, and the headers and the 429 response were written without error; anything that throws inside the `try` (the check, the headers, the response) lets it through; 429 is set iff a denial got past the header writes, so a denial whose body write fails proceeds with 429 already set |
| `RateLimitInterceptor.SkippedPathIgnoresCheck` | src/main/java/com/learning/ratelimiter/web/RateLimitInterceptor.java:40-44 | a skipped path proceeds whatever the check would say |
| `RateLimitInterceptor.ServiceFailsClosedInterceptorFailsOpen` | src/main/java/com/learning/ratelimiter/web/RateLimitInterceptor.java:46-68 | the service's unset fail-safe blocks an API request with 429; an exception from the check lets it through; a failure writing that 429 body lets it through with the status already 429 |

## Left out

- Concurrency: `ConcurrentHashMap.compute`, the global `ReentrantLock` and the `AtomicLong` compare-and-set loops. Each `allowRequest` is one sequential atomic step, and a CAS loop is "if positive, decrement". Interleavings are not modelled.
- Floating-point rates: `refillRate` and `leakRate` are doubles. The model uses the exact fraction limit/window with truncation toward zero and saturation to `long`. Double rounding may differ from it at edge values.
- `TokenBucketStrategy.TokenBucketStrategy.AllowRequest`: `refillTokens` reads the clock a second time; the model uses one reading `now` for both.
- Arithmetic on `long` times (`now - lastRefill` and the like) is unbounded in the model; overflow at extreme clock values is not modelled. The 32-bit wrap of the atomic counter is modelled.
- Logging: `System.out.println` tracing, SLF4J and MDC, and `LoggingFilter`.
- Metrics, health, resilience and web plumbing: `RateLimitMetricsService`, `RateLimiterHealthIndicator`, `ResilientRateLimitService`, `ResilienceConfig`, response headers and JSON bodies, `ApiController` and `WebConfig`. These are framework glue.
- The wall clock (`SystemTimeProvider`) is a foreign call. Its reading enters as a parameter (`now`, `hostMillis`).
- `FixedWindowStrategy`, `SynchronizedRateLimiter`, `RateLimiter` and `TimeProvider` are not part of this model. The FIXED_WINDOW target of the factory is modelled by the `ComputeRateLimiter` rule, and its `reset` and `getRemainingRequests` are not modelled.
- `RateLimitingStrategy.Strategy.Reset`: requires a non-fixed-window limiter, because the fixed-window target's `reset` is not part of this model.
- `RateLimitService.RateLimitService.ResetRateLimitForClient`: requires that a limiter registered under the endpoint is not a fixed window, because `FixedWindowStrategy.reset` is not part of this model.
- `checkRateLimit`: only its lookup and decision (`RateLimitService.RateLimitService.AllowRequestFor`) are modelled. Its timers, metrics, remaining count, result record and exception mapping are not, and its results enter the interceptor model as a given outcome.
- `createDefaultRateLimiter` and the emergency limiter are not modelled: creating a limiter cannot fail in the model, so the fallback path of `getRateLimiterForEndpoint` never runs.
- `initializeRateLimiters`, `getStatistics` and `debugConfiguration` are start-up and monitoring code.
- `getClientTimestamps` is a debugging accessor and is not modelled.
- The fail-safe setting (`getFailSafeStrategy`) has no counterpart in the properties class. It is an optional string parameter.
- The service constructor drops the metrics service, which only feeds metrics.
- The iteration order of the endpoint map is unspecified in Java. It is a parameter `order` that lists every key once.
- `extractClientId`: the null-properties branch and the `UNKNOWN_CLIENT_` fallback are not modelled, because the properties and the strategy name are never null here. The one exception the model can raise (a header of only commas) is modelled inside `extractIpAddress`.
- HTTP header names are matched exactly, where servlet containers match them ignoring case. Case mapping covers ASCII letters only.
- Getters of the properties classes are plain field reads and have no members of their own.
- The integration test's `X-RateLimit-Remaining` and `X-RateLimit-Algorithm` header values, and its `/api/limited` case (a sliding window of 3), are not derived through the service. `RateLimitService.FixedWindowOfTenScenario` covers the fixed-window decisions only; the sliding window's decision sequences are stated at the strategy level.
- `RateLimitService.RateLimitService.Serve`: between two checks the source calls `getRemainingRequests` (`RateLimitService.java:77`), which reads the clock again. The model takes that reading to be the same `now`, where it changes nothing (`LeakyBucketStrategy.RemainingAtSameInstantKeepsBucket`). A later reading leaks a leaky bucket in place and can change its later decisions (`LeakyBucketStrategy.LaterRemainingChangesDecisions`); that is not captured.
- `RateLimitService.RateLimitService.ServeRegistered`: the same assumption as `Serve` about the remaining-count call between checks.
