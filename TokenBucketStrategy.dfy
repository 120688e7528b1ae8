/** The token-bucket strategy. Every client owns a bucket of whole tokens that
    starts full, is topped up in proportion to the time since its last refill
    (never beyond its capacity, which is the limit), and gives up one token per
    admitted request. The buckets are mutable records in a map; each request is
    one atomic step (the map's `compute` in the source). */
module TokenBucketStrategy {
  import opened Rates
  import opened Optional
  import opened Clock
  import opened Sequences
  import MW = MutableWindows

  /** What a bucket holds: whole tokens and the time of its last refill. */
  datatype Bucket = Bucket(tokens: int, lastRefillTime: int)

  /** Nothing is earned at `now` by a bucket last refilled at `lastRefillTime`:
      no time has passed, or too little for one whole token. */
  predicate Quiet(lastRefillTime: int, now: int, maxRequests: int, timeWindowMillis: int)
  {
    now - lastRefillTime <= 0 || WholeUnits(now - lastRefillTime, maxRequests, timeWindowMillis) <= 0
  }

  /** The bounds a bucket keeps: between 0 and its capacity, or, for a negative
      capacity, stuck at the capacity it started with. */
  predicate WellFormed(b: Bucket, capacity: int)
  {
    Min(0, capacity) <= b.tokens <= capacity
  }

  predicate AllWellFormed(buckets: map<string, Bucket>, capacity: int)
  {
    forall c | c in buckets :: WellFormed(buckets[c], capacity)
  }

  /** `refillTokens` (the capacity is the limit, the rate limit / window per ms):
      a quiet bucket is left exactly as it is; otherwise the earned tokens are
      added up to the capacity (a bucket already at or above it keeps its
      tokens) and the refill time moves to `now`, even when nothing could be
      added. Afterwards the bucket is quiet at `now`, so a second refill at the
      same instant changes nothing. */
  function Refill(b: Bucket, now: int, maxRequests: int, timeWindowMillis: int): (r: Bucket)
    ensures Quiet(b.lastRefillTime, now, maxRequests, timeWindowMillis) ==> r == b
    ensures !Quiet(b.lastRefillTime, now, maxRequests, timeWindowMillis) ==>
              r.lastRefillTime == now &&
              r.tokens == Max(b.tokens, Min(b.tokens + WholeUnits(now - b.lastRefillTime, maxRequests, timeWindowMillis), maxRequests))
    ensures WellFormed(b, maxRequests) ==> WellFormed(r, maxRequests)
    ensures Quiet(r.lastRefillTime, now, maxRequests, timeWindowMillis)
  {
    var timeDelta := now - b.lastRefillTime;
    if timeDelta > 0 then
      var newTokens := WholeUnits(timeDelta, maxRequests, timeWindowMillis);
      if newTokens > 0 then
        var maxNewTokens := Min(newTokens, maxRequests - b.tokens);
        Bucket(if maxNewTokens > 0 then b.tokens + maxNewTokens else b.tokens, now)
      else b
    else b
  }

  /** `allowRequest` for one client: an unseen client gets a full bucket
      refilled at `now`; the bucket is refilled, and the request is admitted
      exactly when a token is left, which it then takes. */
  function Step(existing: Option<Bucket>, now: int, maxRequests: int, timeWindowMillis: int): (r: (bool, Bucket))
    requires existing.Some? ==> WellFormed(existing.value, maxRequests)
    ensures WellFormed(r.1, maxRequests)
    ensures existing.Some? ==>
              var refilled := Refill(existing.value, now, maxRequests, timeWindowMillis);
              (r.0 <==> refilled.tokens > 0) &&
              r.1.lastRefillTime == refilled.lastRefillTime &&
              r.1.tokens == (if r.0 then refilled.tokens - 1 else refilled.tokens)
    // a new client starts full: it is admitted exactly when the limit is positive
    ensures existing.None? ==>
              (r.0 <==> maxRequests > 0) &&
              r.1 == Bucket(if r.0 then maxRequests - 1 else maxRequests, now)
  {
    var bucket := if existing.Some? then existing.value else Bucket(maxRequests, now);
    var refilled := Refill(bucket, now, maxRequests, timeWindowMillis);
    if refilled.tokens > 0 then (true, refilled.(tokens := refilled.tokens - 1))
    else (false, refilled)
  }

  /** One request by `clientId` at `now` against all buckets: only that client's
      bucket is created or changed. */
  function Admit(buckets: map<string, Bucket>, clientId: string, now: int, maxRequests: int, timeWindowMillis: int): (r: (bool, map<string, Bucket>))
    requires AllWellFormed(buckets, maxRequests)
    ensures AllWellFormed(r.1, maxRequests)
    ensures r.1.Keys == buckets.Keys + {clientId}
    ensures forall c | c in buckets && c != clientId :: r.1[c] == buckets[c]
    ensures (r.0, r.1[clientId]) == Step(Get(buckets, clientId), now, maxRequests, timeWindowMillis)
  {
    var step := Step(Get(buckets, clientId), now, maxRequests, timeWindowMillis);
    (step.0, buckets[clientId := step.1])
  }

  /** The decisions one client receives for requests at the given times. */
  function Decisions(existing: Option<Bucket>, times: seq<int>, maxRequests: int, timeWindowMillis: int): (r: seq<bool>)
    requires existing.Some? ==> WellFormed(existing.value, maxRequests)
    ensures |r| == |times|
    decreases |times|
  {
    if times == [] then []
    else
      var step := Step(existing, times[0], maxRequests, timeWindowMillis);
      [step.0] + Decisions(Some(step.1), times[1..], maxRequests, timeWindowMillis)
  }

  /** The client's bucket after requests at the given times. */
  function Final(existing: Option<Bucket>, times: seq<int>, maxRequests: int, timeWindowMillis: int): (r: Option<Bucket>)
    requires existing.Some? ==> WellFormed(existing.value, maxRequests)
    ensures r.Some? ==> WellFormed(r.value, maxRequests)
    ensures times != [] ==> r.Some?
    decreases |times|
  {
    if times == [] then existing
    else
      var step := Step(existing, times[0], maxRequests, timeWindowMillis);
      Final(Some(step.1), times[1..], maxRequests, timeWindowMillis)
  }

  lemma {:induction false} DecisionsAppend(existing: Option<Bucket>, a: seq<int>, b: seq<int>, maxRequests: int, timeWindowMillis: int)
    requires existing.Some? ==> WellFormed(existing.value, maxRequests)
    ensures Decisions(existing, a + b, maxRequests, timeWindowMillis)
            == Decisions(existing, a, maxRequests, timeWindowMillis)
               + Decisions(Final(existing, a, maxRequests, timeWindowMillis), b, maxRequests, timeWindowMillis)
    decreases |a|
  {
    if a == [] {
      assert a + b == b;
    } else {
      var step := Step(existing, a[0], maxRequests, timeWindowMillis);
      assert (a + b)[0] == a[0] && (a + b)[1..] == a[1..] + b;
      DecisionsAppend(Some(step.1), a[1..], b, maxRequests, timeWindowMillis);
    }
  }

  /** At an instant a bucket earns nothing, a request takes a token if there
      is one and otherwise leaves the bucket as it is. */
  lemma QuietStep(b: Bucket, now: int, maxRequests: int, timeWindowMillis: int)
    requires WellFormed(b, maxRequests) && Quiet(b.lastRefillTime, now, maxRequests, timeWindowMillis)
    ensures Step(Some(b), now, maxRequests, timeWindowMillis)
            == (b.tokens > 0, b.(tokens := if b.tokens > 0 then b.tokens - 1 else b.tokens))
  {
    assert Refill(b, now, maxRequests, timeWindowMillis) == b;
  }

  /** Requests arriving at one instant at a bucket that earns nothing then: the
      first `tokens` are admitted and the rest denied. */
  lemma {:induction false} BurstAtOneInstant(b: Bucket, n: nat, now: int, maxRequests: int, timeWindowMillis: int)
    requires WellFormed(b, maxRequests) && Quiet(b.lastRefillTime, now, maxRequests, timeWindowMillis)
    ensures forall i | 0 <= i < n ::
              Decisions(Some(b), Repeat(now, n), maxRequests, timeWindowMillis)[i] <==> i < Max(0, b.tokens)
    decreases n
  {
    if n > 0 {
      QuietStep(b, now, maxRequests, timeWindowMillis);
      var next := b.(tokens := if b.tokens > 0 then b.tokens - 1 else b.tokens);
      assert Repeat(now, n)[0] == now && Repeat(now, n)[1..] == Repeat(now, n - 1);
      BurstAtOneInstant(next, n - 1, now, maxRequests, timeWindowMillis);
      var ds := Decisions(Some(b), Repeat(now, n), maxRequests, timeWindowMillis);
      var rest := Decisions(Some(next), Repeat(now, n - 1), maxRequests, timeWindowMillis);
      assert ds == [b.tokens > 0] + rest;
      forall i | 1 <= i < n
        ensures ds[i] <==> i < Max(0, b.tokens)
      {
        assert ds[i] == rest[i - 1];
        assert rest[i - 1] <==> i - 1 < Max(0, next.tokens);
      }
    }
  }

  /** ...and the bucket ends with the tokens the burst did not take (or as it
      was, when it held none), its refill time unmoved. */
  lemma {:induction false} BurstLeavesBucket(b: Bucket, n: nat, now: int, maxRequests: int, timeWindowMillis: int)
    requires WellFormed(b, maxRequests) && Quiet(b.lastRefillTime, now, maxRequests, timeWindowMillis)
    ensures Final(Some(b), Repeat(now, n), maxRequests, timeWindowMillis)
            == Some(Bucket(if n < Max(0, b.tokens) then b.tokens - n else Min(0, b.tokens), b.lastRefillTime))
    decreases n
  {
    if n > 0 {
      QuietStep(b, now, maxRequests, timeWindowMillis);
      var next := b.(tokens := if b.tokens > 0 then b.tokens - 1 else b.tokens);
      assert Repeat(now, n)[0] == now && Repeat(now, n)[1..] == Repeat(now, n - 1);
      BurstLeavesBucket(next, n - 1, now, maxRequests, timeWindowMillis);
    }
  }

  /** A client's first burst at one instant: exactly the first `maxRequests`
      are admitted (none for a limit of zero or less), and as many are counted. */
  lemma BurstFromNewClient(n: nat, now: int, maxRequests: int, timeWindowMillis: int)
    requires n >= 1
    ensures var ds := Decisions(None, Repeat(now, n), maxRequests, timeWindowMillis);
            (forall i | 0 <= i < n :: ds[i] <==> i < Max(0, maxRequests)) &&
            CountTrue(ds) == Min(n, Max(0, maxRequests))
    ensures Final(None, Repeat(now, n), maxRequests, timeWindowMillis)
            == Some(Bucket(if n < Max(0, maxRequests) then maxRequests - n else Min(0, maxRequests), now))
  {
    var full := Bucket(maxRequests, now);
    assert Step(None, now, maxRequests, timeWindowMillis) == Step(Some(full), now, maxRequests, timeWindowMillis);
    assert Repeat(now, n)[0] == now && Repeat(now, n)[1..] == Repeat(now, n - 1);
    assert Decisions(None, Repeat(now, n), maxRequests, timeWindowMillis)
           == Decisions(Some(full), Repeat(now, n), maxRequests, timeWindowMillis);
    BurstAtOneInstant(full, n, now, maxRequests, timeWindowMillis);
    BurstLeavesBucket(full, n, now, maxRequests, timeWindowMillis);
    var ds := Decisions(None, Repeat(now, n), maxRequests, timeWindowMillis);
    var k := Min(n, Max(0, maxRequests));
    var expected := Repeat(true, k) + Repeat(false, n - k);
    forall i | 0 <= i < n
      ensures ds[i] == expected[i]
    {
      assert ds[i] <==> i < Max(0, maxRequests);
      if i < k {
        assert expected[i] == Repeat(true, k)[i];
      } else {
        assert expected[i] == Repeat(false, n - k)[i - k];
      }
    }
    assert ds == expected;
    CountTrueAppend(Repeat(true, k), Repeat(false, n - k));
    CountTrueRepeat(true, k);
    CountTrueRepeat(false, n - k);
  }

  /** Once a whole window has passed since the last refill, a bucket of a
      non-negative limit is full again and, for a positive limit, admits. */
  lemma RefillAfterFullWindow(b: Bucket, now: int, maxRequests: int, timeWindowMillis: int)
    requires WellFormed(b, maxRequests)
    requires 0 < timeWindowMillis <= now - b.lastRefillTime
    requires 0 <= maxRequests <= LONG_MAX
    ensures Refill(b, now, maxRequests, timeWindowMillis).tokens == maxRequests
    ensures Step(Some(b), now, maxRequests, timeWindowMillis).0 <==> maxRequests > 0
  {
    FullWindowEarnsLimit(now - b.lastRefillTime, maxRequests, timeWindowMillis);
    if maxRequests > 0 {
      assert !Quiet(b.lastRefillTime, now, maxRequests, timeWindowMillis);
    }
  }

  /** Limit 10: fifteen requests at one instant give ten admissions and five
      denials, and a request a window plus a second later is admitted again. */
  lemma FifteenThenRecovery(t: int, timeWindowMillis: int)
    requires timeWindowMillis > 0
    ensures var ds := Decisions(None, Repeat(t, 15) + [t + timeWindowMillis + 1000], 10, timeWindowMillis);
            CountTrue(ds[..15]) == 10 && 15 - CountTrue(ds[..15]) == 5 && ds[15]
  {
    var times := Repeat(t, 15) + [t + timeWindowMillis + 1000];
    BurstFromNewClient(15, t, 10, timeWindowMillis);
    DecisionsAppend(None, Repeat(t, 15), [t + timeWindowMillis + 1000], 10, timeWindowMillis);
    var after := Bucket(0, t);
    RefillAfterFullWindow(after, t + timeWindowMillis + 1000, 10, timeWindowMillis);
    var ds := Decisions(None, times, 10, timeWindowMillis);
    assert ds[..15] == Decisions(None, Repeat(t, 15), 10, timeWindowMillis);
  }

  /** A bucket held in place by the strategy. Every bucket gets the strategy's
      capacity; the refill rate is the strategy's too and is left implicit. */
  class TokenBucket {
    var tokens: int
    var lastRefillTime: int
    const capacity: int

    constructor (tokens: int, lastRefillTime: int, capacity: int)
      ensures this.tokens == tokens && this.lastRefillTime == lastRefillTime && this.capacity == capacity
    {
      this.tokens := tokens;
      this.lastRefillTime := lastRefillTime;
      this.capacity := capacity;
    }
  }

  class TokenBucketStrategy {
    const maxRequests: int
    const timeWindowMillis: int
    const timeProvider: TimeProvider
    const capacity: int
    var clientBuckets: map<string, TokenBucket>

    ghost predicate Valid()
      reads this, clientBuckets.Values
    {
      MW.Distinct(clientBuckets) && capacity == maxRequests &&
      (forall c | c in clientBuckets :: clientBuckets[c].capacity == capacity) &&
      AllWellFormed(Snapshot(), maxRequests)
    }

    /** The buckets' contents as values. */
    ghost function Snapshot(): (r: map<string, Bucket>)
      reads this, clientBuckets.Values
      ensures r.Keys == clientBuckets.Keys
    {
      map c | c in clientBuckets :: Bucket(clientBuckets[c].tokens, clientBuckets[c].lastRefillTime)
    }

    /** The capacity is the limit; no client has a bucket yet. */
    constructor (maxRequests: int, timeWindowMillis: int, timeProvider: TimeProvider)
      ensures Valid()
      ensures this.maxRequests == maxRequests && this.timeWindowMillis == timeWindowMillis
      ensures this.timeProvider == timeProvider && capacity == maxRequests
      ensures clientBuckets == map[]
    {
      this.maxRequests := maxRequests;
      this.timeWindowMillis := timeWindowMillis;
      this.timeProvider := timeProvider;
      capacity := maxRequests;
      clientBuckets := map[];
    }

    /** One request by `clientId` at `now`: the strategy's buckets move exactly
        as the token-bucket rule says. */
    method AllowRequest(clientId: string, now: int) returns (allowed: bool)
      requires Valid()
      modifies this, clientBuckets.Values
      ensures Valid()
      ensures fresh(clientBuckets.Values - old(clientBuckets.Values))
      ensures (allowed, Snapshot()) == Admit(old(Snapshot()), clientId, now, maxRequests, timeWindowMillis)
    {
      ghost var before := Snapshot();
      EnsureBucket(clientId, now);
      // a new client's full bucket takes the step `Step` takes for an unseen one
      assert Step(Get(before, clientId), now, maxRequests, timeWindowMillis)
             == Step(Some(Snapshot()[clientId]), now, maxRequests, timeWindowMillis);
      ghost var mid := Snapshot();
      allowed := RefillAndConsume(clientId, now);
      ghost var step := Step(Get(before, clientId), now, maxRequests, timeWindowMillis);
      assert mid[clientId := step.1] == before[clientId := step.1];
    }

    /** The `compute` step for an unseen client: it gets a full bucket refilled
        at `now`; a known client keeps the bucket it has. */
    method EnsureBucket(clientId: string, now: int)
      requires Valid()
      modifies this
      ensures Valid() && clientId in clientBuckets
      ensures fresh(clientBuckets.Values - old(clientBuckets.Values))
      ensures Snapshot() == if clientId in old(Snapshot()) then old(Snapshot()) else old(Snapshot())[clientId := Bucket(maxRequests, now)]
    {
      if clientId !in clientBuckets {
        var bucket := new TokenBucket(maxRequests, now, capacity);
        clientBuckets := clientBuckets[clientId := bucket];
      }
    }

    /** The client's bucket is refilled and gives up a token if it has one, in
        place; no other bucket moves. */
    method RefillAndConsume(clientId: string, now: int) returns (allowed: bool)
      requires Valid() && clientId in clientBuckets
      modifies clientBuckets[clientId]
      ensures Valid()
      ensures var step := Step(Some(old(Snapshot())[clientId]), now, maxRequests, timeWindowMillis);
              allowed == step.0 && Snapshot() == old(Snapshot())[clientId := step.1]
    {
      var bucket := clientBuckets[clientId];
      RefillTokens(bucket, now);
      allowed := TryConsumeToken(bucket);
      // the bucket belongs to this client alone, so no other entry moved
      assert forall c | c in clientBuckets && c != clientId :: clientBuckets[c] != bucket;
    }

    /** Tops the bucket up in place as `Refill` says. */
    method RefillTokens(bucket: TokenBucket, now: int)
      requires bucket.capacity == maxRequests
      modifies bucket
      ensures Bucket(bucket.tokens, bucket.lastRefillTime)
              == Refill(old(Bucket(bucket.tokens, bucket.lastRefillTime)), now, maxRequests, timeWindowMillis)
    {
      var lastRefill := bucket.lastRefillTime;
      var timeDelta := now - lastRefill;
      if timeDelta > 0 {
        var newTokens := WholeUnits(timeDelta, maxRequests, timeWindowMillis);
        if newTokens > 0 {
          var currentTokens := bucket.tokens;
          var maxNewTokens := Min(newTokens, bucket.capacity - currentTokens);
          if maxNewTokens > 0 {
            bucket.tokens := bucket.tokens + maxNewTokens;
          }
          bucket.lastRefillTime := now;
        }
      }
    }

    /** Takes one token when there is one; an empty (or negative) bucket is
        left as it is and the request refused. */
    method TryConsumeToken(bucket: TokenBucket) returns (consumed: bool)
      modifies bucket
      ensures consumed <==> old(bucket.tokens) > 0
      ensures bucket.tokens == old(bucket.tokens) - (if consumed then 1 else 0)
      ensures bucket.lastRefillTime == old(bucket.lastRefillTime)
    {
      var currentTokens := bucket.tokens;
      if currentTokens <= 0 {
        return false;
      }
      bucket.tokens := currentTokens - 1;
      return true;
    }

    /** Forgets the client's bucket; its next request finds a full one. */
    method Reset(clientId: string)
      modifies this
      ensures clientBuckets == old(clientBuckets) - {clientId}
      ensures Get(clientBuckets, clientId).None?
    {
      clientBuckets := clientBuckets - {clientId};
    }

    /** Not implemented by this strategy: 0 for every client, whatever its bucket holds. */
    function GetRemainingRequests(clientId: string): (r: int)
      ensures r == 0
    {
      0
    }
  }

  /** Limit 10: fifteen requests from one client at one instant give ten
      admissions and five denials; a request a window plus a second later is
      admitted again. */
  method FifteenCallsThenRecovery(t: int, timeWindowMillis: int) returns (allowedCount: int, deniedCount: int, later: bool)
    requires timeWindowMillis > 0
    ensures allowedCount == 10 && deniedCount == 5
    ensures later
  {
    var strategy := new TokenBucketStrategy(10, timeWindowMillis, SystemTimeProvider);
    allowedCount, deniedCount := 0, 0;
    var i := 0;
    while i < 15
      invariant 0 <= i <= 15 && strategy.Valid()
      invariant fresh(strategy) && fresh(strategy.clientBuckets.Values)
      invariant strategy.maxRequests == 10 && strategy.timeWindowMillis == timeWindowMillis
      invariant i == 0 ==> strategy.Snapshot() == map[]
      invariant i > 0 ==> strategy.Snapshot() == map["client" := Bucket(Max(0, 10 - i), t)]
      invariant allowedCount == Min(i, 10) && deniedCount == i - Min(i, 10)
    {
      var allowed := strategy.AllowRequest("client", t);
      if allowed {
        allowedCount := allowedCount + 1;
      } else {
        deniedCount := deniedCount + 1;
      }
      i := i + 1;
    }
    later := strategy.AllowRequest("client", t + timeWindowMillis + 1000);
    RefillAfterFullWindow(Bucket(0, t), t + timeWindowMillis + 1000, 10, timeWindowMillis);
  }
}
