/** The leaky-bucket strategy. Every client owns a bucket of whole units of
    "water" that starts empty, leaks in proportion to the time since its last
    leak (never below empty), and takes one unit per admitted request while it
    is below its capacity, the limit. The buckets are mutable records in a map;
    each request is one atomic step (the map's `compute` in the source). Even
    the two queries leak the bucket they look at. */
module LeakyBucketStrategy {
  import opened Rates
  import opened Optional
  import opened Clock
  import opened Sequences
  import MW = MutableWindows
  import TB = TokenBucketStrategy

  /** What a bucket holds: whole units of water and the time of its last leak. */
  datatype Bucket = Bucket(volume: int, lastLeakTime: int)

  /** The bounds a bucket keeps: never below empty, never above a non-negative
      capacity (and empty for a negative one). */
  predicate WellFormed(b: Bucket, capacity: int)
  {
    0 <= b.volume <= Max(0, capacity)
  }

  predicate AllWellFormed(buckets: map<string, Bucket>, capacity: int)
  {
    forall c | c in buckets :: WellFormed(buckets[c], capacity)
  }

  /** `leakWater` (the rate is limit / window per ms): when nothing leaks at
      `now` (no time has passed, or too little for a whole unit) the bucket is
      left exactly as it is; otherwise the leaked units are taken out, never
      below empty, and the leak time moves to `now`, even when the bucket was
      already empty. */
  function Leak(b: Bucket, now: int, maxRequests: int, timeWindowMillis: int): (r: Bucket)
    ensures TB.Quiet(b.lastLeakTime, now, maxRequests, timeWindowMillis) ==> r == b
    ensures !TB.Quiet(b.lastLeakTime, now, maxRequests, timeWindowMillis) ==>
              r.lastLeakTime == now &&
              r.volume == Max(0, b.volume - WholeUnits(now - b.lastLeakTime, maxRequests, timeWindowMillis))
    ensures b.volume >= 0 ==> 0 <= r.volume <= b.volume
    ensures WellFormed(b, maxRequests) ==> WellFormed(r, maxRequests)
  {
    var timeDelta := now - b.lastLeakTime;
    if timeDelta > 0 then
      var volumeToLeak := WholeUnits(timeDelta, maxRequests, timeWindowMillis);
      if volumeToLeak > 0 then Bucket(Max(0, b.volume - volumeToLeak), now)
      else b
    else b
  }

  /** `allowRequest` for one client: an unseen client gets an empty bucket that
      last leaked at `now`; the bucket leaks, and the request is admitted
      exactly when the bucket is below its capacity, and then adds one unit. */
  function Step(existing: Option<Bucket>, now: int, maxRequests: int, timeWindowMillis: int): (r: (bool, Bucket))
    requires existing.Some? ==> WellFormed(existing.value, maxRequests)
    ensures WellFormed(r.1, maxRequests)
    ensures existing.Some? ==>
              var leaked := Leak(existing.value, now, maxRequests, timeWindowMillis);
              (r.0 <==> leaked.volume < maxRequests) &&
              r.1.lastLeakTime == leaked.lastLeakTime &&
              r.1.volume == (if r.0 then leaked.volume + 1 else leaked.volume)
    // a new client starts empty: it is admitted exactly when the limit is positive
    ensures existing.None? ==>
              (r.0 <==> maxRequests > 0) &&
              r.1 == Bucket(if r.0 then 1 else 0, now)
  {
    var bucket := if existing.Some? then existing.value else Bucket(0, now);
    var leaked := Leak(bucket, now, maxRequests, timeWindowMillis);
    if leaked.volume < maxRequests then (true, leaked.(volume := leaked.volume + 1))
    else (false, leaked)
  }

  /** One request by `clientId` at `now` against all buckets: only that client's
      bucket is created or changed. */
  function Admit(buckets: map<string, Bucket>, clientId: string, now: int, maxRequests: int, timeWindowMillis: int): (r: (bool, map<string, Bucket>))
    requires AllWellFormed(buckets, maxRequests)
    ensures AllWellFormed(r.1, maxRequests)
    ensures r.1.Keys == buckets.Keys + {clientId}
    ensures forall c | c in buckets && c != clientId :: r.1[c] == buckets[c]
    ensures (r.0, r.1[clientId]) == Step(Get(buckets, clientId), now, maxRequests, timeWindowMillis)
  {
    var step := Step(Get(buckets, clientId), now, maxRequests, timeWindowMillis);
    (step.0, buckets[clientId := step.1])
  }

  /** What `getRemainingRequests` reports at `now`: the limit for an unseen
      client; otherwise the room left in the bucket once it has leaked, never
      negative. It is positive exactly when a request at `now` would be admitted. */
  function Remaining(buckets: map<string, Bucket>, clientId: string, now: int, maxRequests: int, timeWindowMillis: int): (r: int)
    requires AllWellFormed(buckets, maxRequests)
    ensures clientId !in buckets ==> r == maxRequests
    ensures clientId in buckets ==> 0 <= r <= Max(0, maxRequests)
    ensures clientId in buckets ==>
              r == Max(0, maxRequests - Leak(buckets[clientId], now, maxRequests, timeWindowMillis).volume)
    ensures r > 0 <==> Admit(buckets, clientId, now, maxRequests, timeWindowMillis).0
  {
    if clientId !in buckets then maxRequests
    else Max(0, maxRequests - Leak(buckets[clientId], now, maxRequests, timeWindowMillis).volume)
  }

  /** Asking for the remaining count at the instant of a request changes
      nothing: the bucket a request leaves has already leaked up to `now`. */
  lemma RemainingAtSameInstantKeepsBucket(existing: Option<Bucket>, now: int, maxRequests: int, timeWindowMillis: int)
    requires existing.Some? ==> WellFormed(existing.value, maxRequests)
    ensures var after := Step(existing, now, maxRequests, timeWindowMillis).1;
            Leak(after, now, maxRequests, timeWindowMillis) == after
  {
  }

  /** Asking for the remaining count at a later instant leaks the bucket in
      place, and the fraction of a unit lost then changes later decisions:
      a full bucket (limit 10, window 10000 ms) read at 1500 ms admits two of
      three requests at 3000 ms, where the unread bucket admits all three. */
  lemma LaterRemainingChangesDecisions()
    ensures Leak(Bucket(10, 0), 1500, 10, 10000) == Bucket(9, 1500)
    ensures Decisions(Some(Bucket(9, 1500)), [3000, 3000, 3000], 10, 10000) == [true, true, false]
    ensures Decisions(Some(Bucket(10, 0)), [3000, 3000, 3000], 10, 10000) == [true, true, true]
  {
    assert WholeUnits(1500, 10, 10000) == 1;
    assert WholeUnits(3000, 10, 10000) == 3;
    var ts := [3000, 3000, 3000];
    assert ts[1..] == [3000, 3000] && ts[1..][1..] == [3000] && ts[1..][1..][1..] == [];
  }

  /** The decisions one client receives for requests at the given times. */
  function Decisions(existing: Option<Bucket>, times: seq<int>, maxRequests: int, timeWindowMillis: int): (r: seq<bool>)
    requires existing.Some? ==> WellFormed(existing.value, maxRequests)
    ensures |r| == |times|
    decreases |times|
  {
    if times == [] then []
    else
      var step := Step(existing, times[0], maxRequests, timeWindowMillis);
      [step.0] + Decisions(Some(step.1), times[1..], maxRequests, timeWindowMillis)
  }

  /** A leaky bucket and a token bucket of the same limit mirror each other when
      the water in one is the room missing from the other, and they last leaked
      and last refilled at the same time. */
  predicate Mirrors(b: Bucket, t: TB.Bucket, capacity: int)
  {
    b.volume == capacity - t.tokens && b.lastLeakTime == t.lastRefillTime
  }

  /** A leak and a refill at the same time keep two mirrored buckets mirrored:
      both happen under the same condition and by the same whole amount. */
  lemma LeakMirrorsRefill(b: Bucket, t: TB.Bucket, now: int, maxRequests: int, timeWindowMillis: int)
    requires Mirrors(b, t, maxRequests) && TB.WellFormed(t, maxRequests)
    ensures Mirrors(Leak(b, now, maxRequests, timeWindowMillis), TB.Refill(t, now, maxRequests, timeWindowMillis), maxRequests)
  {
    if !TB.Quiet(b.lastLeakTime, now, maxRequests, timeWindowMillis) {
      var n := WholeUnits(now - b.lastLeakTime, maxRequests, timeWindowMillis);
      assert n > 0;
      assert Max(t.tokens, Min(t.tokens + n, maxRequests)) == Min(t.tokens + n, maxRequests);
    }
  }

  /** Mirrored buckets, or two unseen clients, decide a request alike and stay
      mirrored. */
  lemma StepMirrors(existing: Option<Bucket>, mirror: Option<TB.Bucket>, now: int, maxRequests: int, timeWindowMillis: int)
    requires existing.Some? <==> mirror.Some?
    requires existing.Some? ==>
               TB.WellFormed(mirror.value, maxRequests) && Mirrors(existing.value, mirror.value, maxRequests)
    ensures existing.Some? ==> WellFormed(existing.value, maxRequests)
    ensures var step := Step(existing, now, maxRequests, timeWindowMillis);
            var other := TB.Step(mirror, now, maxRequests, timeWindowMillis);
            step.0 == other.0 && Mirrors(step.1, other.1, maxRequests)
  {
    if existing.Some? {
      LeakMirrorsRefill(existing.value, mirror.value, now, maxRequests, timeWindowMillis);
    }
  }

  /** Whatever the call times, the leaky bucket and the token bucket with the
      same limit and window make the same decisions for a client, from mirrored
      buckets or from its first request on. */
  lemma {:induction false} SameDecisionsAsTokenBucket(existing: Option<Bucket>, mirror: Option<TB.Bucket>, times: seq<int>, maxRequests: int, timeWindowMillis: int)
    requires existing.Some? <==> mirror.Some?
    requires existing.Some? ==>
               TB.WellFormed(mirror.value, maxRequests) && Mirrors(existing.value, mirror.value, maxRequests)
    ensures existing.Some? ==> WellFormed(existing.value, maxRequests)
    ensures Decisions(existing, times, maxRequests, timeWindowMillis)
            == TB.Decisions(mirror, times, maxRequests, timeWindowMillis)
    decreases |times|
  {
    if times != [] {
      StepMirrors(existing, mirror, times[0], maxRequests, timeWindowMillis);
      var step := Step(existing, times[0], maxRequests, timeWindowMillis);
      var other := TB.Step(mirror, times[0], maxRequests, timeWindowMillis);
      SameDecisionsAsTokenBucket(Some(step.1), Some(other.1), times[1..], maxRequests, timeWindowMillis);
    }
  }

  /** A client's first burst at one instant: exactly the first `maxRequests`
      are admitted (none for a limit of zero or less), as with the token bucket. */
  lemma BurstFromNewClient(n: nat, now: int, maxRequests: int, timeWindowMillis: int)
    requires n >= 1
    ensures var ds := Decisions(None, Repeat(now, n), maxRequests, timeWindowMillis);
            (forall i | 0 <= i < n :: ds[i] <==> i < Max(0, maxRequests)) &&
            CountTrue(ds) == Min(n, Max(0, maxRequests))
  {
    SameDecisionsAsTokenBucket(None, None, Repeat(now, n), maxRequests, timeWindowMillis);
    TB.BurstFromNewClient(n, now, maxRequests, timeWindowMillis);
  }

  /** Once a whole window has passed since the last leak, a bucket of a
      non-negative limit is empty again and, for a positive limit, admits. */
  lemma DrainsAfterFullWindow(b: Bucket, now: int, maxRequests: int, timeWindowMillis: int)
    requires WellFormed(b, maxRequests)
    requires 0 < timeWindowMillis <= now - b.lastLeakTime
    requires 0 <= maxRequests <= LONG_MAX
    ensures Leak(b, now, maxRequests, timeWindowMillis).volume == 0
    ensures Step(Some(b), now, maxRequests, timeWindowMillis).0 <==> maxRequests > 0
  {
    FullWindowEarnsLimit(now - b.lastLeakTime, maxRequests, timeWindowMillis);
  }

  /** A bucket held in place by the strategy. Every bucket gets the strategy's
      limit as its capacity; the leak rate is the strategy's too and is left
      implicit. */
  class LeakyBucket {
    var currentVolume: int
    var lastLeakTime: int
    const capacity: int

    /** A new bucket is empty. */
    constructor (capacity: int, currentTime: int)
      ensures currentVolume == 0 && lastLeakTime == currentTime && this.capacity == capacity
    {
      currentVolume := 0;
      lastLeakTime := currentTime;
      this.capacity := capacity;
    }
  }

  class LeakyBucketStrategy {
    const maxRequests: int
    const timeWindowMillis: int
    const timeProvider: TimeProvider
    var clientBuckets: map<string, LeakyBucket>

    ghost predicate Valid()
      reads this, clientBuckets.Values
    {
      MW.Distinct(clientBuckets) &&
      (forall c | c in clientBuckets :: clientBuckets[c].capacity == maxRequests) &&
      AllWellFormed(Snapshot(), maxRequests)
    }

    /** The buckets' contents as values. */
    ghost function Snapshot(): (r: map<string, Bucket>)
      reads this, clientBuckets.Values
      ensures r.Keys == clientBuckets.Keys
    {
      map c | c in clientBuckets :: Bucket(clientBuckets[c].currentVolume, clientBuckets[c].lastLeakTime)
    }

    constructor (maxRequests: int, timeWindowMillis: int, timeProvider: TimeProvider)
      ensures Valid()
      ensures this.maxRequests == maxRequests && this.timeWindowMillis == timeWindowMillis
      ensures this.timeProvider == timeProvider
      ensures clientBuckets == map[]
    {
      this.maxRequests := maxRequests;
      this.timeWindowMillis := timeWindowMillis;
      this.timeProvider := timeProvider;
      clientBuckets := map[];
    }

    /** One request by `clientId` at `now`: the strategy's buckets move exactly
        as the leaky-bucket rule says. */
    method AllowRequest(clientId: string, now: int) returns (allowed: bool)
      requires Valid()
      modifies this, clientBuckets.Values
      ensures Valid()
      ensures fresh(clientBuckets.Values - old(clientBuckets.Values))
      ensures (allowed, Snapshot()) == Admit(old(Snapshot()), clientId, now, maxRequests, timeWindowMillis)
    {
      ghost var before := Snapshot();
      EnsureBucket(clientId, now);
      // a new client's empty bucket takes the step `Step` takes for an unseen one
      assert Step(Get(before, clientId), now, maxRequests, timeWindowMillis)
             == Step(Some(Snapshot()[clientId]), now, maxRequests, timeWindowMillis);
      ghost var mid := Snapshot();
      allowed := LeakAndFill(clientId, now);
      ghost var step := Step(Get(before, clientId), now, maxRequests, timeWindowMillis);
      assert mid[clientId := step.1] == before[clientId := step.1];
    }

    /** An unseen client gets an empty bucket that last leaked at `now`; a
        known client keeps its bucket. */
    method EnsureBucket(clientId: string, now: int)
      requires Valid()
      modifies this
      ensures Valid() && clientId in clientBuckets
      ensures fresh(clientBuckets.Values - old(clientBuckets.Values))
      ensures Snapshot() == if clientId in old(Snapshot()) then old(Snapshot()) else old(Snapshot())[clientId := Bucket(0, now)]
    {
      if clientId !in clientBuckets {
        var bucket := new LeakyBucket(maxRequests, now);
        clientBuckets := clientBuckets[clientId := bucket];
      }
    }

    /** The body of the `compute` call on the client's bucket, in place: it
        leaks, and takes one unit when it is below its capacity; no other
        bucket moves. */
    method LeakAndFill(clientId: string, now: int) returns (allowed: bool)
      requires Valid() && clientId in clientBuckets
      modifies clientBuckets[clientId]
      ensures Valid()
      ensures var step := Step(Some(old(Snapshot())[clientId]), now, maxRequests, timeWindowMillis);
              allowed == step.0 && Snapshot() == old(Snapshot())[clientId := step.1]
    {
      var bucket := clientBuckets[clientId];
      allowed := Fill(bucket, now);
      // the bucket belongs to this client alone, so no other entry moved
      assert forall c | c in clientBuckets && c != clientId :: clientBuckets[c] != bucket;
    }

    /** One bucket leaks, then takes one unit when it is below its capacity. */
    method Fill(bucket: LeakyBucket, now: int) returns (allowed: bool)
      requires bucket.capacity == maxRequests
      requires WellFormed(Bucket(bucket.currentVolume, bucket.lastLeakTime), maxRequests)
      modifies bucket
      ensures (allowed, Bucket(bucket.currentVolume, bucket.lastLeakTime))
              == Step(Some(old(Bucket(bucket.currentVolume, bucket.lastLeakTime))), now, maxRequests, timeWindowMillis)
    {
      LeakWater(bucket, now);
      var currentVolume := bucket.currentVolume;
      if currentVolume < bucket.capacity {
        bucket.currentVolume := currentVolume + 1;
        allowed := true;
      } else {
        allowed := false;
      }
    }

    /** Leaks the bucket in place as `Leak` says. */
    method LeakWater(bucket: LeakyBucket, now: int)
      modifies bucket
      ensures Bucket(bucket.currentVolume, bucket.lastLeakTime)
              == Leak(old(Bucket(bucket.currentVolume, bucket.lastLeakTime)), now, maxRequests, timeWindowMillis)
    {
      var lastLeak := bucket.lastLeakTime;
      var timeDelta := now - lastLeak;
      if timeDelta > 0 {
        var volumeToLeak := WholeUnits(timeDelta, maxRequests, timeWindowMillis);
        if volumeToLeak > 0 {
          var currentVolume := bucket.currentVolume;
          bucket.currentVolume := Max(0, currentVolume - volumeToLeak);
          bucket.lastLeakTime := now;
        }
      }
    }

    /** Forgets the client's bucket, if it has one; doing it twice is doing it once. */
    method Reset(clientId: string)
      modifies this
      ensures clientBuckets == old(clientBuckets) - {clientId}
      ensures Get(clientBuckets, clientId).None?
    {
      clientBuckets := clientBuckets - {clientId};
    }

    /** The room left for the client at `now`: an unseen client gets the limit
        and no bucket; a seen client's bucket is leaked in place first. */
    method GetRemainingRequests(clientId: string, now: int) returns (remaining: int)
      requires Valid()
      modifies clientBuckets.Values
      ensures Valid()
      ensures remaining == Remaining(old(Snapshot()), clientId, now, maxRequests, timeWindowMillis)
      ensures clientId !in clientBuckets ==> Snapshot() == old(Snapshot())
      ensures clientId in clientBuckets ==>
                Snapshot() == old(Snapshot())[clientId := Leak(old(Snapshot())[clientId], now, maxRequests, timeWindowMillis)]
    {
      if clientId !in clientBuckets {
        return maxRequests;
      }
      var bucket := clientBuckets[clientId];
      ghost var before := Snapshot();
      LeakWater(bucket, now);
      assert forall c | c in clientBuckets && c != clientId :: clientBuckets[c] != bucket;
      assert Snapshot() == before[clientId := Leak(before[clientId], now, maxRequests, timeWindowMillis)];
      remaining := Max(0, bucket.capacity - bucket.currentVolume);
    }

    /** The water in the client's bucket at `now`: 0 for an unseen client, with
        no bucket made; a seen client's bucket is leaked in place first. */
    method GetCurrentVolume(clientId: string, now: int) returns (volume: int)
      requires Valid()
      modifies clientBuckets.Values
      ensures Valid()
      ensures clientId !in clientBuckets ==> volume == 0 && Snapshot() == old(Snapshot())
      ensures clientId in clientBuckets ==>
                var leaked := Leak(old(Snapshot())[clientId], now, maxRequests, timeWindowMillis);
                volume == leaked.volume && Snapshot() == old(Snapshot())[clientId := leaked]
    {
      if clientId !in clientBuckets {
        return 0;
      }
      var bucket := clientBuckets[clientId];
      ghost var before := Snapshot();
      LeakWater(bucket, now);
      assert forall c | c in clientBuckets && c != clientId :: clientBuckets[c] != bucket;
      assert Snapshot() == before[clientId := Leak(before[clientId], now, maxRequests, timeWindowMillis)];
      volume := bucket.currentVolume;
    }
  }
}
