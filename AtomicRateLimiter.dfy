/** The lock-free fixed-window limiter: `compute` on a concurrent map either
    opens a new window or increments the client's atomic counter in place, and
    the decision is taken afterwards by comparing the counter with the limit.
    Unlike the other fixed-window limiters the counter also grows on denied
    requests, and it is a 32-bit `AtomicInteger`. */
module AtomicRateLimiter {
  import opened Rates
  import opened Optional
  import opened Clock
  import CR = ComputeRateLimiter
  import MW = MutableWindows

  /** The bounds of Java's `int`. */
  const INT_MAX: int := 0x7FFF_FFFF
  const INT_MIN: int := -0x8000_0000

  predicate IsInt(x: int) { INT_MIN <= x <= INT_MAX }

  /** `AtomicInteger.incrementAndGet`: one more, modulo 2^32, as a signed int. */
  function IncrementAndGet(x: int): (r: int)
    requires IsInt(x)
    ensures IsInt(r)
    ensures (r - (x + 1)) % 0x1_0000_0000 == 0
  {
    if x == INT_MAX then INT_MIN else x + 1
  }

  predicate AllInts(clients: map<string, CR.ClientData>)
  {
    forall c | c in clients :: IsInt(clients[c].requestCount)
  }

  /** The `compute` lambda followed by the comparison: a new or expired client
      gets a fresh window with count 1, any other request increments the count,
      and the request is admitted when the count does not exceed the limit. */
  function AtomicTransition(existing: Option<CR.ClientData>, currentTime: int, maxRequests: int, timeWindowMillis: int): (d: CR.Decision)
    requires existing.Some? ==> IsInt(existing.value.requestCount)
    ensures IsInt(d.data.requestCount)
    ensures d.allowed <==> d.data.requestCount <= maxRequests
    // every request is counted, admitted or not, and only a restart moves the anchor
    ensures existing.Some? && !CR.IsTimeWindowExpired(existing.value, currentTime, timeWindowMillis) ==>
              d.data.windowStartTime == existing.value.windowStartTime &&
              (existing.value.requestCount < INT_MAX ==> d.data.requestCount == existing.value.requestCount + 1)
    ensures existing.None? || CR.IsTimeWindowExpired(existing.value, currentTime, timeWindowMillis) ==>
              d.data == CR.ClientData(1, currentTime)
  {
    var data :=
      if existing.None? || CR.IsTimeWindowExpired(existing.value, currentTime, timeWindowMillis) then
        CR.ClientData(1, currentTime)
      else
        CR.ClientData(IncrementAndGet(existing.value.requestCount), existing.value.windowStartTime);
    CR.Decision(!(data.requestCount > maxRequests), data)
  }

  /** The map-level step: one request by `clientId`; no other entry is touched. */
  function AtomicAdmit(clients: map<string, CR.ClientData>, clientId: string, currentTime: int, maxRequests: int, timeWindowMillis: int): (r: (bool, map<string, CR.ClientData>))
    requires AllInts(clients)
    ensures AllInts(r.1)
    ensures r.1.Keys == clients.Keys + {clientId}
    ensures forall c | c in clients && c != clientId :: r.1[c] == clients[c]
  {
    var d := AtomicTransition(Get(clients, clientId), currentTime, maxRequests, timeWindowMillis);
    (d.allowed, clients[clientId := d.data])
  }

  /** The decisions a limiter starting from `clients` gives a sequence of calls. */
  function AtomicRun(clients: map<string, CR.ClientData>, calls: seq<CR.Call>, maxRequests: int, timeWindowMillis: int): (r: seq<bool>)
    requires AllInts(clients)
    ensures |r| == |calls|
    decreases |calls|
  {
    if calls == [] then []
    else
      var step := AtomicAdmit(clients, calls[0].clientId, calls[0].time, maxRequests, timeWindowMillis);
      [step.0] + AtomicRun(step.1, calls[1..], maxRequests, timeWindowMillis)
  }

  /** Every counter is at least 1 and can take `budget` more increments without wrapping. */
  predicate Headroom(clients: map<string, CR.ClientData>, budget: nat)
  {
    forall c | c in clients :: 1 <= clients[c].requestCount && clients[c].requestCount + budget <= INT_MAX
  }

  /** The two limiters hold the same windows, and the fixed-window count is the
      atomic count capped at the limit. */
  predicate Corresponds(fixed: map<string, CR.ClientData>, atomic: map<string, CR.ClientData>, maxRequests: int)
  {
    fixed.Keys == atomic.Keys &&
    forall c | c in fixed ::
      fixed[c].windowStartTime == atomic[c].windowStartTime &&
      fixed[c].requestCount == Min(atomic[c].requestCount, maxRequests)
  }

  /** With a limit of at least 1 and before any counter could wrap, counting
      denied requests changes nothing: the atomic limiter gives every call the
      decision the fixed-window rule gives it. */
  lemma {:induction false} AgreesWithFixedWindow(fixed: map<string, CR.ClientData>, atomic: map<string, CR.ClientData>, calls: seq<CR.Call>, maxRequests: int, timeWindowMillis: int)
    requires maxRequests >= 1 && |calls| <= INT_MAX
    requires CR.AllWellFormed(fixed, maxRequests) && Headroom(atomic, |calls|)
    requires Corresponds(fixed, atomic, maxRequests)
    ensures AtomicRun(atomic, calls, maxRequests, timeWindowMillis) == CR.Run(fixed, calls, maxRequests, timeWindowMillis)
    decreases |calls|
  {
    if calls != [] {
      var id, now := calls[0].clientId, calls[0].time;
      var f := CR.Admit(fixed, id, now, maxRequests, timeWindowMillis);
      var a := AtomicAdmit(atomic, id, now, maxRequests, timeWindowMillis);
      assert f.0 == a.0 && f.1[id].windowStartTime == a.1[id].windowStartTime;
      assert f.1[id].requestCount == Min(a.1[id].requestCount, maxRequests);
      assert Corresponds(f.1, a.1, maxRequests);
      assert Headroom(a.1, |calls| - 1);
      AgreesWithFixedWindow(f.1, a.1, calls[1..], maxRequests, timeWindowMillis);
    }
  }

  /** From empty maps, for any sequence of fewer than 2^31 calls. */
  lemma AgreesWithFixedWindowFromStart(calls: seq<CR.Call>, maxRequests: int, timeWindowMillis: int)
    requires maxRequests >= 1 && |calls| <= INT_MAX
    ensures AtomicRun(map[], calls, maxRequests, timeWindowMillis) == CR.Run(map[], calls, maxRequests, timeWindowMillis)
  {
    AgreesWithFixedWindow(map[], map[], calls, maxRequests, timeWindowMillis);
  }

  /** With a limit of 0 or less, and before any counter could wrap, every request
      is denied, even the first of a window, which the fixed-window rule admits. */
  lemma {:induction false} NonPositiveLimitDeniesAll(atomic: map<string, CR.ClientData>, calls: seq<CR.Call>, maxRequests: int, timeWindowMillis: int)
    requires maxRequests <= 0 && |calls| <= INT_MAX
    requires Headroom(atomic, |calls|)
    ensures forall i | 0 <= i < |calls| :: !AtomicRun(atomic, calls, maxRequests, timeWindowMillis)[i]
    decreases |calls|
  {
    if calls != [] {
      var a := AtomicAdmit(atomic, calls[0].clientId, calls[0].time, maxRequests, timeWindowMillis);
      assert Headroom(a.1, |calls| - 1);
      NonPositiveLimitDeniesAll(a.1, calls[1..], maxRequests, timeWindowMillis);
    }
  }

  /** The divergence at limit 0: a new client's first request is denied here but
      admitted by the fixed-window rule. */
  lemma ZeroLimitDiverges(clientId: string, now: int, timeWindowMillis: int)
    ensures !AtomicRun(map[], [CR.Call(clientId, now)], 0, timeWindowMillis)[0]
    ensures CR.Run(map[], [CR.Call(clientId, now)], 0, timeWindowMillis)[0]
  {
    NonPositiveLimitDeniesAll(map[], [CR.Call(clientId, now)], 0, timeWindowMillis);
  }

  /** After 2^31 - 1 requests inside one window the counter wraps to the most
      negative int, which no limit is below: the next request is admitted again. */
  lemma CounterWrapReadmits(windowStartTime: int, now: int, maxRequests: int, timeWindowMillis: int)
    requires now - windowStartTime < timeWindowMillis
    requires IsInt(maxRequests)
    ensures var d := AtomicTransition(Some(CR.ClientData(INT_MAX, windowStartTime)), now, maxRequests, timeWindowMillis);
            d.allowed && d.data.requestCount == INT_MIN
  {
  }

  /** The atomic counter shared by the requests of one window; the anchor is final. */
  class ClientData {
    var requestCount: int
    const windowStartTime: int

    constructor (initialCount: int, windowStartTime: int)
      ensures requestCount == initialCount && this.windowStartTime == windowStartTime
    {
      requestCount := initialCount;
      this.windowStartTime := windowStartTime;
    }
  }

  class AtomicRateLimiter {
    var clientRequestCounts: map<string, ClientData>
    const maxRequests: int
    const timeWindowMillis: int
    const timeProvider: TimeProvider

    ghost predicate Valid()
      reads this, clientRequestCounts.Values
    {
      MW.Distinct(clientRequestCounts) && AllInts(Snapshot())
    }

    /** The counters' current values with their windows. */
    ghost function Snapshot(): (r: map<string, CR.ClientData>)
      reads this, clientRequestCounts.Values
      ensures r.Keys == clientRequestCounts.Keys
    {
      map c | c in clientRequestCounts ::
        CR.ClientData(clientRequestCounts[c].requestCount, clientRequestCounts[c].windowStartTime)
    }

    constructor (maxRequests: int, timeWindowMillis: int, timeProvider: TimeProvider)
      ensures Valid()
      ensures this.maxRequests == maxRequests && this.timeWindowMillis == timeWindowMillis
      ensures this.timeProvider == timeProvider
      ensures clientRequestCounts == map[]
    {
      this.maxRequests := maxRequests;
      this.timeWindowMillis := timeWindowMillis;
      this.timeProvider := timeProvider;
      clientRequestCounts := map[];
    }

    /** One request by `clientId` at `now`, the time the clock reads inside `compute`. */
    method AllowRequest(clientId: string, now: int) returns (allowed: bool)
      requires Valid()
      modifies this, clientRequestCounts.Values
      ensures Valid()
      ensures fresh(clientRequestCounts.Values - old(clientRequestCounts.Values))
      ensures (allowed, Snapshot()) == AtomicAdmit(old(Snapshot()), clientId, now, maxRequests, timeWindowMillis)
    {
      ghost var before := Snapshot();
      var clientData: ClientData;
      if clientId !in clientRequestCounts || now - clientRequestCounts[clientId].windowStartTime >= timeWindowMillis {
        clientData := new ClientData(1, now);
        clientRequestCounts := clientRequestCounts[clientId := clientData];
      } else {
        clientData := clientRequestCounts[clientId];
        clientData.requestCount := IncrementAndGet(clientData.requestCount);
        clientRequestCounts := clientRequestCounts[clientId := clientData];
        // the counter belongs to this client alone, so no other entry moved
        assert forall c | c in clientRequestCounts && c != clientId :: clientRequestCounts[c] != clientData;
      }
      assert Snapshot() == before[clientId := CR.ClientData(clientData.requestCount, clientData.windowStartTime)];
      allowed := !(clientData.requestCount > maxRequests);
    }
  }
}
