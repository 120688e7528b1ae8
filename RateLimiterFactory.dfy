/** The factory that builds a limiter of a chosen algorithm from a limit and a
    window. The fixed-window target is the fixed-window rule of
    `ComputeRateLimiter`. */
module RateLimiterFactory {
  import opened Clock
  import opened RateLimitingStrategy
  import CR = ComputeRateLimiter
  import SW = SlidingWindowStrategy
  import LB = LeakyBucketStrategy
  import TB = TokenBucketStrategy

  datatype Configuration = Configuration(maxRequests: int, timeWindow: int)

  datatype RateLimiterFactory = RateLimiterFactory(algorithm: RateLimitingAlgorithm, config: Configuration, timeProvider: TimeProvider)

  /** The two-argument constructor: the factory reads the wall clock. */
  function WithSystemClock(algorithm: RateLimitingAlgorithm, config: Configuration): (f: RateLimiterFactory)
    ensures f.algorithm == algorithm && f.config == config
    ensures f.timeProvider == SystemTimeProvider
  {
    RateLimiterFactory(algorithm, config, SystemTimeProvider)
  }

  /** `createStrategy`: a new limiter of the factory's algorithm, built with
      exactly the configured limit and window and the factory's clock, that has
      seen no client. The match covers every algorithm, so there is no
      "unexpected value" case. */
  method CreateStrategy(factory: RateLimiterFactory) returns (s: Strategy)
    ensures s.Algorithm() == factory.algorithm
    ensures s.MaxRequests() == factory.config.maxRequests
    ensures s.TimeWindowMillis() == factory.config.timeWindow
    ensures s.Clock() == factory.timeProvider
    ensures fresh(s.Repr()) && s.Valid() && s.Unused()
  {
    var config := factory.config;
    match factory.algorithm
    case FixedWindow =>
      var limiter := new CR.ComputeRateLimiter(config.maxRequests, config.timeWindow, factory.timeProvider);
      s := Fixed(limiter);
    case SlidingWindow =>
      var limiter := new SW.SlidingWindowStrategy(config.maxRequests, config.timeWindow, factory.timeProvider);
      s := Sliding(limiter);
    case LeakyBucket =>
      var limiter := new LB.LeakyBucketStrategy(config.maxRequests, config.timeWindow, factory.timeProvider);
      s := Leaky(limiter);
    case TokenBucket =>
      var limiter := new TB.TokenBucketStrategy(config.maxRequests, config.timeWindow, factory.timeProvider);
      s := Token(limiter);
  }

  /** Whatever the algorithm, a limiter fresh from the factory admits the first
      request of a client when the limit is positive; the fixed-window one
      admits it whatever the limit. Two limiters from the same factory are
      separate objects. */
  method FirstRequestIsAllowed(factory: RateLimiterFactory, clientId: string, now: int)
    returns (allowed: bool, first: Strategy, second: Strategy)
    ensures factory.config.maxRequests >= 1 || factory.algorithm == FixedWindow ==> allowed
    ensures factory.config.maxRequests < 1 && factory.algorithm != FixedWindow ==> !allowed
    ensures first.Object() != second.Object()
  {
    first := CreateStrategy(factory);
    second := CreateStrategy(factory);
    // the buckets of a fresh limiter, as values, are none
    match first {
      case Leaky(l) => assert l.Snapshot() == map[];
      case Token(t) => assert t.Snapshot() == map[];
      case _ =>
    }
    allowed := first.AllowRequest(clientId, now);
  }
}
