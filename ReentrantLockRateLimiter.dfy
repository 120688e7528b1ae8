/** The fixed-window limiter that serialises every request behind one global
    lock around the same read, in-place increment and write-back as
    `SimpleRateLimiter`. Requests are modelled one at a time, so the lock is
    the sequencing of calls and leaves no other trace. */
module ReentrantLockRateLimiter {
  import opened Optional
  import opened Clock
  import CR = ComputeRateLimiter
  import MW = MutableWindows

  class ReentrantLockRateLimiter {
    const maxRequests: int
    const timeWindowMillis: int
    const timeProvider: TimeProvider
    var clientRequestCounts: map<string, MW.ClientData>

    ghost predicate Valid()
      reads this, clientRequestCounts.Values
    {
      MW.Valid(clientRequestCounts, maxRequests)
    }

    /** The state as the fixed-window rule sees it. */
    ghost function Snapshot(): map<string, CR.ClientData>
      reads this, clientRequestCounts.Values
    {
      MW.Snapshot(clientRequestCounts)
    }

    constructor (maxRequests: int, timeWindowMillis: int, timeProvider: TimeProvider)
      ensures Valid()
      ensures this.maxRequests == maxRequests && this.timeWindowMillis == timeWindowMillis
      ensures this.timeProvider == timeProvider
      ensures clientRequestCounts == map[]
    {
      this.maxRequests := maxRequests;
      this.timeWindowMillis := timeWindowMillis;
      this.timeProvider := timeProvider;
      clientRequestCounts := map[];
    }

    /** One request by `clientId` at `now`, the time the limiter's clock reads:
        it makes the same decision and leaves the same counts as the
        fixed-window rule. */
    method AllowRequest(clientId: string, now: int) returns (allowed: bool)
      requires Valid()
      modifies this, clientRequestCounts.Values
      ensures Valid()
      ensures fresh(clientRequestCounts.Values - old(clientRequestCounts.Values))
      ensures (allowed, Snapshot()) == CR.Admit(old(Snapshot()), clientId, now, maxRequests, timeWindowMillis)
    {
      ghost var before := Snapshot();
      if clientId !in clientRequestCounts || now - clientRequestCounts[clientId].windowStartTime >= timeWindowMillis {
        OpenWindow(clientId, now);
        return true;
      }
      var clientData := clientRequestCounts[clientId];
      assert before[clientId] == CR.ClientData(clientData.requestCount, clientData.windowStartTime);
      if clientData.requestCount >= maxRequests {
        assert before[clientId := before[clientId]] == before;
        return false;
      }
      CountRequest(clientId);
      return true;
    }

    /** A new or expired client's record is replaced by a new one: one request
        in a window opening now. */
    method OpenWindow(clientId: string, now: int)
      requires Valid()
      modifies this
      ensures Valid()
      ensures fresh(clientRequestCounts.Values - old(clientRequestCounts.Values))
      ensures Snapshot() == old(Snapshot())[clientId := CR.ClientData(1, now)]
    {
      var data := new MW.ClientData(1, now);
      MW.Put(clientRequestCounts, clientId, data, maxRequests);
      clientRequestCounts := clientRequestCounts[clientId := data];
    }

    /** The client's count goes up by one in place, and the record is put back. */
    method CountRequest(clientId: string)
      requires Valid() && clientId in clientRequestCounts
      requires clientRequestCounts[clientId].requestCount < maxRequests
      modifies this, clientRequestCounts[clientId]
      ensures Valid()
      ensures clientRequestCounts == old(clientRequestCounts)
      ensures var data := old(Snapshot())[clientId];
              Snapshot() == old(Snapshot())[clientId := CR.ClientData(data.requestCount + 1, data.windowStartTime)]
    {
      var clientData := clientRequestCounts[clientId];
      clientData.requestCount := clientData.requestCount + 1;
      // the record belongs to this client alone, so no other entry moved
      assert forall c | c in clientRequestCounts && c != clientId :: clientRequestCounts[c] != clientData;
      assert clientRequestCounts[clientId := clientData] == clientRequestCounts;
      clientRequestCounts := clientRequestCounts[clientId := clientData];
    }
  }
}
