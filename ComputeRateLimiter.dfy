/** The fixed-window counter as `ComputeRateLimiter` writes it: each client has
    an immutable (count, window start) record, and `allowRequest` replaces it
    with a new record inside one atomic `compute` on the client's map entry.
    The window is anchored at the request that opens it, not aligned to
    multiples of the window length.

    The pure transition `Transition` is also the rule `SimpleRateLimiter` and
    `ReentrantLockRateLimiter` implement with mutable records, and the rule the
    factory's FIXED_WINDOW target is modelled by. */
module ComputeRateLimiter {
  import opened Rates
  import opened Optional
  import opened Clock
  import opened Sequences

  /** One client's window: how many requests it admitted and when it opened. */
  datatype ClientData = ClientData(requestCount: int, windowStartTime: int)

  /** The outcome of one request: the decision and the client's record after it. */
  datatype Decision = Decision(allowed: bool, data: ClientData)

  /** A request at `currentTime` falls outside the window the record opened. */
  predicate IsTimeWindowExpired(data: ClientData, currentTime: int, timeWindowMillis: int)
  {
    currentTime - data.windowStartTime >= timeWindowMillis
  }

  /** The most a window ever counts: the limit, but at least the request that
      opens it, which is admitted whatever the limit. */
  function Ceiling(maxRequests: int): int
  {
    Max(1, maxRequests)
  }

  predicate WellFormed(data: ClientData, maxRequests: int)
  {
    1 <= data.requestCount <= Ceiling(maxRequests)
  }

  /** The body of the `compute` lambda: a new or expired client opens a window
      at `currentTime` and is admitted; inside the window a request is admitted
      and counted while the count is below the limit, and otherwise denied with
      the record returned unchanged. */
  function Transition(existing: Option<ClientData>, currentTime: int, maxRequests: int, timeWindowMillis: int): (d: Decision)
    requires existing.Some? ==> WellFormed(existing.value, maxRequests)
    ensures WellFormed(d.data, maxRequests)
    // admitted exactly when there is no live window or it still has room
    ensures d.allowed <==>
              existing.None? || IsTimeWindowExpired(existing.value, currentTime, timeWindowMillis) ||
              existing.value.requestCount < maxRequests
    // a new or expired client opens a window at the request's time
    ensures existing.None? || IsTimeWindowExpired(existing.value, currentTime, timeWindowMillis) ==>
              d.data == ClientData(1, currentTime)
    // a denial happens only inside a live window and changes nothing
    ensures !d.allowed ==> existing.Some? && d.data == existing.value
    // the anchor moves only when a window restarts, and then to the request's time
    ensures existing.Some? && d.data.windowStartTime != existing.value.windowStartTime ==>
              IsTimeWindowExpired(existing.value, currentTime, timeWindowMillis) && d.data.windowStartTime == currentTime
    // an admitted request is the first of a new window or one more in the current one
    ensures d.allowed ==>
              d.data.requestCount == 1 ||
              (existing.Some? && d.data == ClientData(existing.value.requestCount + 1, existing.value.windowStartTime))
  {
    if existing.None? || IsTimeWindowExpired(existing.value, currentTime, timeWindowMillis) then
      Decision(true, ClientData(1, currentTime))
    else if existing.value.requestCount < maxRequests then
      Decision(true, ClientData(existing.value.requestCount + 1, existing.value.windowStartTime))
    else
      Decision(false, existing.value)
  }

  /** The decisions one client receives for requests at the given times. */
  function Decisions(existing: Option<ClientData>, times: seq<int>, maxRequests: int, timeWindowMillis: int): seq<bool>
    requires existing.Some? ==> WellFormed(existing.value, maxRequests)
    decreases |times|
  {
    if times == [] then []
    else
      var d := Transition(existing, times[0], maxRequests, timeWindowMillis);
      [d.allowed] + Decisions(Some(d.data), times[1..], maxRequests, timeWindowMillis)
  }

  /** The client's record after requests at the given times. */
  function Final(existing: Option<ClientData>, times: seq<int>, maxRequests: int, timeWindowMillis: int): Option<ClientData>
    requires existing.Some? ==> WellFormed(existing.value, maxRequests)
    decreases |times|
  {
    if times == [] then existing
    else
      var d := Transition(existing, times[0], maxRequests, timeWindowMillis);
      Final(Some(d.data), times[1..], maxRequests, timeWindowMillis)
  }

  /** Every time lies inside the window that opened at `start`. */
  predicate AllInWindow(times: seq<int>, start: int, timeWindowMillis: int)
  {
    forall i | 0 <= i < |times| :: times[i] - start < timeWindowMillis
  }

  /** Requests that all fall inside a live window holding `count` requests: the
      first `Ceiling - count` are admitted and every later one is denied. */
  lemma {:induction false} BurstInLiveWindow(count: int, start: int, times: seq<int>, maxRequests: int, timeWindowMillis: int)
    requires WellFormed(ClientData(count, start), maxRequests)
    requires AllInWindow(times, start, timeWindowMillis)
    ensures var admitted := Min(|times|, Ceiling(maxRequests) - count);
            Decisions(Some(ClientData(count, start)), times, maxRequests, timeWindowMillis)
              == Repeat(true, admitted) + Repeat(false, |times| - admitted)
    ensures Final(Some(ClientData(count, start)), times, maxRequests, timeWindowMillis)
              == Some(ClientData(count + Min(|times|, Ceiling(maxRequests) - count), start))
    decreases |times|
  {
    if times != [] {
      var d := Transition(Some(ClientData(count, start)), times[0], maxRequests, timeWindowMillis);
      assert AllInWindow(times[1..], start, timeWindowMillis);
      BurstInLiveWindow(d.data.requestCount, start, times[1..], maxRequests, timeWindowMillis);
      if count < maxRequests {
        assert Repeat(true, Min(|times|, Ceiling(maxRequests) - count))
          == [true] + Repeat(true, Min(|times| - 1, Ceiling(maxRequests) - count - 1));
      } else {
        assert Repeat(false, |times|) == [false] + Repeat(false, |times| - 1);
      }
    }
  }

  /** A new client whose requests all fall inside the window its first request
      opens: exactly the first `Ceiling(maxRequests)` are admitted, so even a
      limit of 0 admits one request per window. */
  lemma {:induction false} BurstFromNewClient(times: seq<int>, maxRequests: int, timeWindowMillis: int)
    requires times != [] && AllInWindow(times, times[0], timeWindowMillis)
    ensures var admitted := Min(|times|, Ceiling(maxRequests));
            Decisions(None, times, maxRequests, timeWindowMillis)
              == Repeat(true, admitted) + Repeat(false, |times| - admitted)
    ensures CountTrue(Decisions(None, times, maxRequests, timeWindowMillis)) == Min(|times|, Ceiling(maxRequests))
  {
    assert AllInWindow(times[1..], times[0], timeWindowMillis);
    BurstInLiveWindow(1, times[0], times[1..], maxRequests, timeWindowMillis);
    var admitted := Min(|times|, Ceiling(maxRequests));
    assert Repeat(true, admitted) == [true] + Repeat(true, admitted - 1);
    CountTrueAppend(Repeat(true, admitted), Repeat(false, |times| - admitted));
    CountTrueRepeat(true, admitted);
    CountTrueRepeat(false, |times| - admitted);
  }

  /** Decisions over two batches are the decisions over the first batch followed
      by those over the second, starting from where the first left the record. */
  lemma {:induction false} DecisionsAppend(existing: Option<ClientData>, a: seq<int>, b: seq<int>, maxRequests: int, timeWindowMillis: int)
    requires existing.Some? ==> WellFormed(existing.value, maxRequests)
    ensures Final(existing, a, maxRequests, timeWindowMillis).Some? ==>
              WellFormed(Final(existing, a, maxRequests, timeWindowMillis).value, maxRequests)
    ensures Decisions(existing, a + b, maxRequests, timeWindowMillis)
              == Decisions(existing, a, maxRequests, timeWindowMillis)
                 + Decisions(Final(existing, a, maxRequests, timeWindowMillis), b, maxRequests, timeWindowMillis)
    decreases |a|
  {
    if a == [] {
      assert a + b == b;
    } else {
      var d := Transition(existing, a[0], maxRequests, timeWindowMillis);
      assert (a + b)[0] == a[0] && (a + b)[1..] == a[1..] + b;
      DecisionsAppend(Some(d.data), a[1..], b, maxRequests, timeWindowMillis);
    }
  }

  /** The boundary burst of an anchored fixed window: one request opens the
      window at `t0`, the rest of the limit arrives a millisecond before the
      window ends, and a full limit again right at its end. All `2 * maxRequests`
      requests, spread over `timeWindowMillis + 1` ms, are admitted. */
  lemma BoundaryBurst(t0: int, maxRequests: int, timeWindowMillis: int)
    requires maxRequests >= 1 && timeWindowMillis >= 1
    ensures var times := [t0] + Repeat(t0 + timeWindowMillis - 1, maxRequests - 1)
                         + Repeat(t0 + timeWindowMillis, maxRequests);
            Decisions(None, times, maxRequests, timeWindowMillis) == Repeat(true, 2 * maxRequests)
  {
    var first := [t0] + Repeat(t0 + timeWindowMillis - 1, maxRequests - 1);
    var second := Repeat(t0 + timeWindowMillis, maxRequests);
    BurstFromNewClient(first, maxRequests, timeWindowMillis);
    assert Decisions(None, first, maxRequests, timeWindowMillis) == Repeat(true, maxRequests);
    BurstInLiveWindow(1, t0, first[1..], maxRequests, timeWindowMillis);
    assert Final(None, first, maxRequests, timeWindowMillis) == Some(ClientData(maxRequests, t0));
    DecisionsAppend(None, first, second, maxRequests, timeWindowMillis);
    var rest := second[1..];
    assert AllInWindow(rest, t0 + timeWindowMillis, timeWindowMillis);
    BurstInLiveWindow(1, t0 + timeWindowMillis, rest, maxRequests, timeWindowMillis);
    assert Decisions(Some(ClientData(maxRequests, t0)), second, maxRequests, timeWindowMillis)
      == [true] + Repeat(true, maxRequests - 1);
    assert Repeat(true, maxRequests) + ([true] + Repeat(true, maxRequests - 1)) == Repeat(true, 2 * maxRequests);
  }

  /** A full limit at `t1` and a full limit again at `t2`, still inside the
      window `t1` opened: the first batch is admitted, the second all denied. */
  lemma {:induction false} SecondBatchInSameWindowDenied(t1: int, t2: int, maxRequests: int, timeWindowMillis: int)
    requires maxRequests >= 1 && t1 <= t2 && t2 - t1 < timeWindowMillis
    ensures Decisions(None, Repeat(t1, maxRequests) + Repeat(t2, maxRequests), maxRequests, timeWindowMillis)
              == Repeat(true, maxRequests) + Repeat(false, maxRequests)
  {
    var first := Repeat(t1, maxRequests);
    BurstFromNewClient(first, maxRequests, timeWindowMillis);
    assert AllInWindow(first[1..], t1, timeWindowMillis);
    BurstInLiveWindow(1, t1, first[1..], maxRequests, timeWindowMillis);
    assert Final(None, first, maxRequests, timeWindowMillis) == Some(ClientData(maxRequests, t1));
    DecisionsAppend(None, first, Repeat(t2, maxRequests), maxRequests, timeWindowMillis);
    BurstInLiveWindow(maxRequests, t1, Repeat(t2, maxRequests), maxRequests, timeWindowMillis);
  }

  /** The window keeps its anchor: with limit 10 and window 10000, ten requests
      at 9900 are admitted and ten more at 10100 are all denied, since the
      window opened at 9900 is still live (not the 20 of a clock-aligned window). */
  lemma AnchoredWindowAcrossClockBoundary()
    ensures Decisions(None, Repeat(9900, 10) + Repeat(10100, 10), 10, 10000)
              == Repeat(true, 10) + Repeat(false, 10)
  {
    SecondBatchInSameWindowDenied(9900, 10100, 10, 10000);
  }

  /** Once the window has run its length, the next request opens a fresh window
      at its own time and is admitted, whatever the old count was. */
  lemma ExpiredWindowRestarts(data: ClientData, currentTime: int, maxRequests: int, timeWindowMillis: int)
    requires WellFormed(data, maxRequests)
    requires IsTimeWindowExpired(data, currentTime, timeWindowMillis)
    ensures Transition(Some(data), currentTime, maxRequests, timeWindowMillis) == Decision(true, ClientData(1, currentTime))
  {
  }

  /** Limit 1, window 1000: admitted at 0, denied at 500, admitted again at 1100. */
  lemma OneRequestPerSecond()
    ensures Decisions(None, [0, 500, 1100], 1, 1000) == [true, false, true]
  {
    assert [0, 500, 1100][1..] == [500, 1100];
    assert [500, 1100][1..] == [1100];
  }

  /** The map-level step: one request by `clientId`; no other entry is touched. */
  function Admit(clients: map<string, ClientData>, clientId: string, currentTime: int, maxRequests: int, timeWindowMillis: int): (r: (bool, map<string, ClientData>))
    requires AllWellFormed(clients, maxRequests)
    ensures AllWellFormed(r.1, maxRequests)
    ensures r.1.Keys == clients.Keys + {clientId}
    ensures forall c | c in clients && c != clientId :: r.1[c] == clients[c]
  {
    var d := Transition(Get(clients, clientId), currentTime, maxRequests, timeWindowMillis);
    (d.allowed, clients[clientId := d.data])
  }

  /** One `allowRequest(clientId)` made when the clock reads `time`. */
  datatype Call = Call(clientId: string, time: int)

  predicate AllWellFormed(clients: map<string, ClientData>, maxRequests: int)
  {
    forall c | c in clients :: WellFormed(clients[c], maxRequests)
  }

  /** The decisions a limiter starting from `clients` gives a sequence of calls. */
  function Run(clients: map<string, ClientData>, calls: seq<Call>, maxRequests: int, timeWindowMillis: int): (r: seq<bool>)
    requires AllWellFormed(clients, maxRequests)
    ensures |r| == |calls|
    decreases |calls|
  {
    if calls == [] then []
    else
      var step := Admit(clients, calls[0].clientId, calls[0].time, maxRequests, timeWindowMillis);
      [step.0] + Run(step.1, calls[1..], maxRequests, timeWindowMillis)
  }

  /** The times of `clientId`'s calls, in order. */
  function TimesOf(calls: seq<Call>, clientId: string): seq<int>
  {
    if calls == [] then []
    else (if calls[0].clientId == clientId then [calls[0].time] else []) + TimesOf(calls[1..], clientId)
  }

  /** The decisions given to `clientId`'s calls, in order. */
  function DecisionsOf(calls: seq<Call>, decisions: seq<bool>, clientId: string): seq<bool>
    requires |decisions| == |calls|
  {
    if calls == [] then []
    else (if calls[0].clientId == clientId then [decisions[0]] else [])
         + DecisionsOf(calls[1..], decisions[1..], clientId)
  }

  /** Clients are limited independently: whatever other clients do, and however
      their calls interleave with its own, a client receives exactly the decisions
      its own calls would receive on their own. */
  lemma {:induction false} ClientsAreIndependent(clients: map<string, ClientData>, calls: seq<Call>, clientId: string, maxRequests: int, timeWindowMillis: int)
    requires AllWellFormed(clients, maxRequests)
    ensures DecisionsOf(calls, Run(clients, calls, maxRequests, timeWindowMillis), clientId)
              == Decisions(Get(clients, clientId), TimesOf(calls, clientId), maxRequests, timeWindowMillis)
    decreases |calls|
  {
    if calls != [] {
      var step := Admit(clients, calls[0].clientId, calls[0].time, maxRequests, timeWindowMillis);
      ClientsAreIndependent(step.1, calls[1..], clientId, maxRequests, timeWindowMillis);
      var rest := TimesOf(calls[1..], clientId);
      assert Run(clients, calls, maxRequests, timeWindowMillis)[1..] == Run(step.1, calls[1..], maxRequests, timeWindowMillis);
      if calls[0].clientId == clientId {
        assert ([calls[0].time] + rest)[0] == calls[0].time;
        assert ([calls[0].time] + rest)[1..] == rest;
      } else {
        assert TimesOf(calls, clientId) == rest;
        assert Get(step.1, clientId) == Get(clients, clientId);
      }
    }
  }

  /** The limiter: a map of immutable records updated per key by `compute`. */
  class ComputeRateLimiter {
    const maxRequests: int
    const timeWindowMillis: int
    const timeProvider: TimeProvider
    var clientData: map<string, ClientData>

    ghost predicate Valid()
      reads this
    {
      AllWellFormed(clientData, maxRequests)
    }

    constructor (maxRequests: int, timeWindowMillis: int, timeProvider: TimeProvider)
      ensures Valid()
      ensures this.maxRequests == maxRequests && this.timeWindowMillis == timeWindowMillis
      ensures this.timeProvider == timeProvider
      ensures clientData == map[]
    {
      this.maxRequests := maxRequests;
      this.timeWindowMillis := timeWindowMillis;
      this.timeProvider := timeProvider;
      clientData := map[];
    }

    /** One request by `clientId` at `now`, the time the limiter's clock reads. */
    method AllowRequest(clientId: string, now: int) returns (allowed: bool)
      requires Valid()
      modifies this
      ensures Valid()
      ensures (allowed, clientData) == Admit(old(clientData), clientId, now, maxRequests, timeWindowMillis)
    {
      var existing := Get(clientData, clientId);
      var d := Transition(existing, now, maxRequests, timeWindowMillis);
      clientData := clientData[clientId := d.data];
      allowed := d.allowed;
    }
  }

  /** Twenty requests by one client inside a window with limit 10: exactly ten
      admitted and ten denied. */
  method TwentyCallsOneClient(now: int) returns (allowedCount: nat, deniedCount: nat)
    ensures allowedCount == 10 && deniedCount == 10
  {
    var limiter := new ComputeRateLimiter(10, 60000, SystemTimeProvider);
    allowedCount, deniedCount := 0, 0;
    var i := 0;
    while i < 20
      invariant 0 <= i <= 20 && limiter.Valid()
      invariant allowedCount + deniedCount == i
      invariant allowedCount == Min(i, 10)
      invariant i > 0 ==> "client-1" in limiter.clientData &&
                          limiter.clientData["client-1"] == ClientData(Min(i, 10), now)
      invariant i == 0 ==> limiter.clientData == map[]
    {
      var allowed := limiter.AllowRequest("client-1", now);
      if allowed {
        allowedCount := allowedCount + 1;
      } else {
        deniedCount := deniedCount + 1;
      }
      i := i + 1;
    }
  }

  /** Limit 1: a client's second request is denied while another client's first
      request is still admitted. */
  method ClientsAreLimitedSeparately(now: int) returns (first: bool, second: bool, other: bool)
    ensures first && !second && other
  {
    var limiter := new ComputeRateLimiter(1, 1000, SystemTimeProvider);
    first := limiter.AllowRequest("client-1", now);
    second := limiter.AllowRequest("client-1", now);
    other := limiter.AllowRequest("client-2", now);
  }
}
