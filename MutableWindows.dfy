/** The mutable per-client record `SimpleRateLimiter` and
    `ReentrantLockRateLimiter` keep in a plain map: a count that is incremented
    in place and the time the window opened. Both classes declare the same
    record; it is declared once here. */
module MutableWindows {
  import CR = ComputeRateLimiter

  class ClientData {
    var requestCount: int
    var windowStartTime: int

    constructor (requestCount: int, windowStartTime: int)
      ensures this.requestCount == requestCount && this.windowStartTime == windowStartTime
    {
      this.requestCount := requestCount;
      this.windowStartTime := windowStartTime;
    }
  }

  /** No record is shared between two clients, so updating one client's record
      in place leaves every other client's untouched. */
  ghost predicate Distinct<R>(clients: map<string, R>)
  {
    forall a, b | a in clients && b in clients && a != b :: clients[a] != clients[b]
  }

  /** The values the records hold, as the immutable records of the fixed-window rule. */
  ghost function Snapshot(clients: map<string, ClientData>): (r: map<string, CR.ClientData>)
    reads clients.Values
    ensures r.Keys == clients.Keys
  {
    map c | c in clients :: CR.ClientData(clients[c].requestCount, clients[c].windowStartTime)
  }

  ghost predicate Valid(clients: map<string, ClientData>, maxRequests: int)
    reads clients.Values
  {
    Distinct(clients) && CR.AllWellFormed(Snapshot(clients), maxRequests)
  }

  /** Putting a record no other client holds under `clientId` keeps the records
      distinct and changes the values only at `clientId`. */
  lemma Put(clients: map<string, ClientData>, clientId: string, data: ClientData, maxRequests: int)
    requires Valid(clients, maxRequests) && data !in clients.Values
    requires CR.WellFormed(CR.ClientData(data.requestCount, data.windowStartTime), maxRequests)
    ensures Valid(clients[clientId := data], maxRequests)
    ensures Snapshot(clients[clientId := data])
            == Snapshot(clients)[clientId := CR.ClientData(data.requestCount, data.windowStartTime)]
  {
    var after := clients[clientId := data];
    forall a, b | a in after && b in after && a != b
      ensures after[a] != after[b]
    {
      if a != clientId && b != clientId {
        assert after[a] == clients[a] && after[b] == clients[b];
      } else if a == clientId {
        assert after[b] == clients[b] && clients[b] in clients.Values;
      } else {
        assert after[a] == clients[a] && clients[a] in clients.Values;
      }
    }
  }
}
