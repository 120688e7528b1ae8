/** The algorithms a limiter can be built with, and a limiter of any of them
    behind the common strategy interface (allow a request, reset a client). The
    fixed-window algorithm is served by the fixed-window rule of
    `ComputeRateLimiter`. */
module RateLimitingStrategy {
  import opened Optional
  import opened Clock
  import CR = ComputeRateLimiter
  import SW = SlidingWindowStrategy
  import LB = LeakyBucketStrategy
  import TB = TokenBucketStrategy
  import opened Rates
  import opened Sequences

  datatype RateLimitingAlgorithm = FixedWindow | SlidingWindow | LeakyBucket | TokenBucket

  /** The enum constant's name, as reported to clients. */
  function Name(algorithm: RateLimitingAlgorithm): (r: string)
    ensures |r| > 7
    // the window algorithms are named `..._WINDOW`, the bucket ones `..._BUCKET`
    ensures r[|r| - 7..] == "_WINDOW" <==> algorithm == FixedWindow || algorithm == SlidingWindow
    ensures r[|r| - 7..] == "_BUCKET" <==> algorithm == LeakyBucket || algorithm == TokenBucket
  {
    match algorithm
    case FixedWindow => "FIXED_WINDOW"
    case SlidingWindow => "SLIDING_WINDOW"
    case LeakyBucket => "LEAKY_BUCKET"
    case TokenBucket => "TOKEN_BUCKET"
  }

  /** Different algorithms are reported under different names. */
  lemma NamesAreDistinct(a: RateLimitingAlgorithm, b: RateLimitingAlgorithm)
    ensures Name(a) == Name(b) <==> a == b
  {
  }

  /** What a limiter holds, as values: the per-client records of whichever
      algorithm it runs. */
  datatype State =
    | FixedState(clientData: map<string, CR.ClientData>)
    | SlidingState(clientTimestamps: map<string, seq<int>>)
    | LeakyState(leakyBuckets: map<string, LB.Bucket>)
    | TokenState(tokenBuckets: map<string, TB.Bucket>)
  {
    function Kind(): RateLimitingAlgorithm
    {
      match this
      case FixedState(_) => FixedWindow
      case SlidingState(_) => SlidingWindow
      case LeakyState(_) => LeakyBucket
      case TokenState(_) => TokenBucket
    }

    /** The clients that have a record. */
    function Clients(): set<string>
    {
      match this
      case FixedState(m) => m.Keys
      case SlidingState(m) => m.Keys
      case LeakyState(m) => m.Keys
      case TokenState(m) => m.Keys
    }
  }

  /** The bounds each algorithm keeps its records within. */
  predicate Sound(state: State, maxRequests: int)
  {
    match state
    case FixedState(m) => CR.AllWellFormed(m, maxRequests)
    case SlidingState(m) => forall c | c in m :: |m[c]| <= Max(0, maxRequests)
    case LeakyState(m) => LB.AllWellFormed(m, maxRequests)
    case TokenState(m) => TB.AllWellFormed(m, maxRequests)
  }

  /** A new limiter of the given algorithm: no client has a record. */
  function Initial(algorithm: RateLimitingAlgorithm): State
  {
    match algorithm
    case FixedWindow => FixedState(map[])
    case SlidingWindow => SlidingState(map[])
    case LeakyBucket => LeakyState(map[])
    case TokenBucket => TokenState(map[])
  }

  /** One `allowRequest(clientId)` at `now` by the rule of the algorithm the
      state belongs to: the decision, and the records after it. */
  function Transit(state: State, clientId: string, now: int, maxRequests: int, timeWindowMillis: int): (r: (bool, State))
    requires Sound(state, maxRequests)
    ensures Sound(r.1, maxRequests) && r.1.Kind() == state.Kind()
    // the client gets a record; nobody else gains or loses one
    ensures r.1.Clients() == state.Clients() + {clientId}
  {
    match state
    case FixedState(m) =>
      var a := CR.Admit(m, clientId, now, maxRequests, timeWindowMillis);
      (a.0, FixedState(a.1))
    case SlidingState(m) =>
      var o := SW.Step(Get(m, clientId), now, maxRequests, timeWindowMillis);
      (o.allowed, SlidingState(m[clientId := o.timestamps]))
    case LeakyState(m) =>
      var a := LB.Admit(m, clientId, now, maxRequests, timeWindowMillis);
      (a.0, LeakyState(a.1))
    case TokenState(m) =>
      var a := TB.Admit(m, clientId, now, maxRequests, timeWindowMillis);
      (a.0, TokenState(a.1))
  }

  /** The first request a new limiter sees is admitted exactly when the limit
      is positive, or whatever the limit for the fixed window. */
  lemma FirstTransit(algorithm: RateLimitingAlgorithm, clientId: string, now: int, maxRequests: int, timeWindowMillis: int)
    ensures var first := Transit(Initial(algorithm), clientId, now, maxRequests, timeWindowMillis);
            first.0 <==> maxRequests >= 1 || algorithm == FixedWindow
  {
  }

  /** The decisions a limiter starting in `state` gives a sequence of calls. */
  function Replay(state: State, calls: seq<CR.Call>, maxRequests: int, timeWindowMillis: int): (r: seq<bool>)
    requires Sound(state, maxRequests)
    ensures |r| == |calls|
    decreases |calls|
  {
    if calls == [] then []
    else
      var step := Transit(state, calls[0].clientId, calls[0].time, maxRequests, timeWindowMillis);
      [step.0] + Replay(step.1, calls[1..], maxRequests, timeWindowMillis)
  }

  /** A fixed-window limiter replays calls exactly as the map-level
      fixed-window rule runs them. */
  lemma {:induction false} FixedReplayIsRun(m: map<string, CR.ClientData>, calls: seq<CR.Call>, maxRequests: int, timeWindowMillis: int)
    requires CR.AllWellFormed(m, maxRequests)
    ensures Replay(FixedState(m), calls, maxRequests, timeWindowMillis) == CR.Run(m, calls, maxRequests, timeWindowMillis)
    decreases |calls|
  {
    if calls != [] {
      var a := CR.Admit(m, calls[0].clientId, calls[0].time, maxRequests, timeWindowMillis);
      FixedReplayIsRun(a.1, calls[1..], maxRequests, timeWindowMillis);
    }
  }

  /** On a new fixed-window limiter, a client whose calls all fall inside the
      window its first call opens has exactly its first max(1, limit) calls
      admitted, however the other clients' calls interleave with its own. */
  lemma FixedWindowBurstPerClient(calls: seq<CR.Call>, clientId: string, maxRequests: int, timeWindowMillis: int)
    requires var times := CR.TimesOf(calls, clientId);
             times != [] && CR.AllInWindow(times, times[0], timeWindowMillis)
    ensures var times := CR.TimesOf(calls, clientId);
            var admitted := Min(|times|, CR.Ceiling(maxRequests));
            CR.DecisionsOf(calls, Replay(Initial(FixedWindow), calls, maxRequests, timeWindowMillis), clientId)
              == Repeat(true, admitted) + Repeat(false, |times| - admitted)
  {
    FixedReplayIsRun(map[], calls, maxRequests, timeWindowMillis);
    CR.ClientsAreIndependent(map[], calls, clientId, maxRequests, timeWindowMillis);
    CR.BurstFromNewClient(CR.TimesOf(calls, clientId), maxRequests, timeWindowMillis);
  }

  /** A limiter of one of the four algorithms. */
  datatype Strategy =
    | Fixed(fixed: CR.ComputeRateLimiter)
    | Sliding(sliding: SW.SlidingWindowStrategy)
    | Leaky(leaky: LB.LeakyBucketStrategy)
    | Token(token: TB.TokenBucketStrategy)
  {
    function Algorithm(): RateLimitingAlgorithm
    {
      match this
      case Fixed(_) => FixedWindow
      case Sliding(_) => SlidingWindow
      case Leaky(_) => LeakyBucket
      case Token(_) => TokenBucket
    }

    function MaxRequests(): int
    {
      match this
      case Fixed(f) => f.maxRequests
      case Sliding(s) => s.maxRequests
      case Leaky(l) => l.maxRequests
      case Token(t) => t.maxRequests
    }

    function TimeWindowMillis(): int
    {
      match this
      case Fixed(f) => f.timeWindowMillis
      case Sliding(s) => s.timeWindowMillis
      case Leaky(l) => l.timeWindowMillis
      case Token(t) => t.timeWindowMillis
    }

    function Clock(): TimeProvider
    {
      match this
      case Fixed(f) => f.timeProvider
      case Sliding(s) => s.timeProvider
      case Leaky(l) => l.timeProvider
      case Token(t) => t.timeProvider
    }

    /** The limiter object itself. */
    function Object(): object
    {
      match this
      case Fixed(f) => f
      case Sliding(s) => s
      case Leaky(l) => l
      case Token(t) => t
    }

    /** The limiter and the per-client records it holds. */
    ghost function Repr(): (r: set<object>)
      reads Object()
      ensures Object() in r
    {
      match this
      case Fixed(f) => {f}
      case Sliding(s) => {s}
      case Leaky(l) => {l} + l.clientBuckets.Values
      case Token(t) => {t} + t.clientBuckets.Values
    }

    ghost predicate Valid()
      reads Object(), Repr()
    {
      match this
      case Fixed(f) => f.Valid()
      case Sliding(s) => s.Valid()
      case Leaky(l) => l.Valid()
      case Token(t) => t.Valid()
    }

    /** No client has been seen yet. */
    ghost predicate Unused()
      reads Object()
    {
      match this
      case Fixed(f) => f.clientData == map[]
      case Sliding(s) => s.clientTimestamps == map[]
      case Leaky(l) => l.clientBuckets == map[]
      case Token(t) => t.clientBuckets == map[]
    }

    /** The limiter's records as values. */
    ghost function State(): (r: State)
      reads Object(), Repr()
      ensures r.Kind() == Algorithm()
    {
      match this
      case Fixed(f) => FixedState(f.clientData)
      case Sliding(s) => SlidingState(s.clientTimestamps)
      case Leaky(l) => LeakyState(l.Snapshot())
      case Token(t) => TokenState(t.Snapshot())
    }

    /** What `allowRequest` would do now, by this limiter's own rule and
        limits: the decision and the records after it. */
    ghost function Next(clientId: string, now: int): (bool, State)
      requires Valid()
      reads Object(), Repr()
    {
      StateIsSound();
      Transit(State(), clientId, now, MaxRequests(), TimeWindowMillis())
    }

    /** The decisions this limiter would give a sequence of calls from now
        on, by its own rule and limits. */
    ghost function Upcoming(calls: seq<CR.Call>): seq<bool>
      requires Valid()
      reads Object(), Repr()
    {
      StateIsSound();
      Replay(State(), calls, MaxRequests(), TimeWindowMillis())
    }

    /** A valid limiter's records are within its algorithm's bounds. */
    lemma StateIsSound()
      requires Valid()
      ensures Sound(State(), MaxRequests())
    {
    }

    /** The decision `allowRequest` would take now. */
    ghost predicate Decision(clientId: string, now: int)
      requires Valid()
      reads Object(), Repr()
    {
      Next(clientId, now).0
    }

    /** `allowRequest` on whichever limiter this is: each decides, and moves its
        state, by its own rule. */
    method AllowRequest(clientId: string, now: int) returns (allowed: bool)
      requires Valid()
      modifies Repr()
      ensures Valid() && fresh(Repr() - old(Repr()))
      ensures (allowed, State()) == old(Next(clientId, now))
      ensures this.Fixed? ==>
                (allowed, fixed.clientData) == CR.Admit(old(fixed.clientData), clientId, now, fixed.maxRequests, fixed.timeWindowMillis)
      ensures this.Sliding? ==>
                var o := SW.Step(Get(old(sliding.clientTimestamps), clientId), now, sliding.maxRequests, sliding.timeWindowMillis);
                allowed == o.allowed && sliding.clientTimestamps == old(sliding.clientTimestamps)[clientId := o.timestamps]
      ensures this.Leaky? ==>
                (allowed, leaky.Snapshot()) == LB.Admit(old(leaky.Snapshot()), clientId, now, leaky.maxRequests, leaky.timeWindowMillis)
      ensures this.Token? ==>
                (allowed, token.Snapshot()) == TB.Admit(old(token.Snapshot()), clientId, now, token.maxRequests, token.timeWindowMillis)
    {
      match this
      case Fixed(f) => allowed := f.AllowRequest(clientId, now);
      case Sliding(s) => allowed := s.AllowRequest(clientId, now);
      case Leaky(l) => allowed := l.AllowRequest(clientId, now);
      case Token(t) => allowed := t.AllowRequest(clientId, now);
    }

    /** `allowRequest` seen from outside: the decision and the new records
        are the limiter's transition, and whatever objects it takes on are new. */
    method Decide(clientId: string, now: int) returns (allowed: bool)
      requires Valid()
      modifies Repr()
      ensures Valid() && fresh(Repr() - old(Repr()))
      ensures (allowed, State()) == old(Next(clientId, now))
    {
      allowed := AllowRequest(clientId, now);
    }

    /** `reset` on a sliding-window, leaky-bucket or token-bucket limiter: the
        client is forgotten. The fixed-window target's `reset` is not part of
        this model. */
    method Reset(clientId: string)
      requires Valid() && !this.Fixed?
      modifies Object()
      ensures Valid() && Repr() <= old(Repr())
      ensures this.Sliding? ==> sliding.clientTimestamps == old(sliding.clientTimestamps) - {clientId}
      ensures this.Leaky? ==> leaky.clientBuckets == old(leaky.clientBuckets) - {clientId}
      ensures this.Token? ==> token.clientBuckets == old(token.clientBuckets) - {clientId}
    {
      match this
      case Sliding(s) => s.Reset(clientId);
      case Leaky(l) => l.Reset(clientId);
      case Token(t) => t.Reset(clientId);
    }
  }

  /** A limiter that has seen no client holds the initial state of its
      algorithm, so it admits a first request exactly when its limit is
      positive, or whatever the limit when it is the fixed-window one. */
  lemma FirstDecision(s: Strategy, clientId: string, now: int)
    requires s.Valid() && s.Unused()
    ensures s.State() == Initial(s.Algorithm())
    ensures s.Decision(clientId, now) <==> s.MaxRequests() >= 1 || s.Fixed?
  {
    match s {
      case Leaky(l) => assert l.Snapshot() == map[];
      case Token(t) => assert t.Snapshot() == map[];
      case _ =>
    }
    FirstTransit(s.Algorithm(), clientId, now, s.MaxRequests(), s.TimeWindowMillis());
  }
}
