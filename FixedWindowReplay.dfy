/** The four fixed-window limiters are interchangeable behind the limiter
    interface: replaying one sequence of calls through each, from a fresh
    limiter, yields the decisions of the fixed-window rule (the atomic one for
    every limit of at least 1, before its counter could wrap). */
module FixedWindowReplay {
  import opened Clock
  import CR = ComputeRateLimiter
  import S = SimpleRateLimiter
  import L = ReentrantLockRateLimiter
  import A = AtomicRateLimiter

  /** One more call replayed: the decision the limiter gave and the state it
      left keep the decisions so far plus the rest of the run equal to the run. */
  lemma ReplayStep(decisions: seq<bool>, allowed: bool, before: map<string, CR.ClientData>, after: map<string, CR.ClientData>,
                   calls: seq<CR.Call>, i: nat, maxRequests: int, timeWindowMillis: int)
    requires i < |calls| && CR.AllWellFormed(before, maxRequests)
    requires (allowed, after) == CR.Admit(before, calls[i].clientId, calls[i].time, maxRequests, timeWindowMillis)
    ensures CR.AllWellFormed(after, maxRequests)
    ensures decisions + CR.Run(before, calls[i..], maxRequests, timeWindowMillis)
            == (decisions + [allowed]) + CR.Run(after, calls[i + 1..], maxRequests, timeWindowMillis)
  {
    assert calls[i..][1..] == calls[i + 1..];
  }

  /** The same step for the atomic limiter's run. */
  lemma AtomicReplayStep(decisions: seq<bool>, allowed: bool, before: map<string, CR.ClientData>, after: map<string, CR.ClientData>,
                         calls: seq<CR.Call>, i: nat, maxRequests: int, timeWindowMillis: int)
    requires i < |calls| && A.AllInts(before)
    requires (allowed, after) == A.AtomicAdmit(before, calls[i].clientId, calls[i].time, maxRequests, timeWindowMillis)
    ensures A.AllInts(after)
    ensures decisions + A.AtomicRun(before, calls[i..], maxRequests, timeWindowMillis)
            == (decisions + [allowed]) + A.AtomicRun(after, calls[i + 1..], maxRequests, timeWindowMillis)
  {
    assert calls[i..][1..] == calls[i + 1..];
  }

  method ReplayCompute(calls: seq<CR.Call>, maxRequests: int, timeWindowMillis: int) returns (decisions: seq<bool>)
    ensures decisions == CR.Run(map[], calls, maxRequests, timeWindowMillis)
  {
    var limiter := new CR.ComputeRateLimiter(maxRequests, timeWindowMillis, SystemTimeProvider);
    decisions := [];
    var i := 0;
    while i < |calls|
      invariant 0 <= i <= |calls| && fresh(limiter) && limiter.Valid()
      invariant limiter.maxRequests == maxRequests && limiter.timeWindowMillis == timeWindowMillis
      invariant decisions + CR.Run(limiter.clientData, calls[i..], maxRequests, timeWindowMillis)
                == CR.Run(map[], calls, maxRequests, timeWindowMillis)
    {
      assert calls[i..][1..] == calls[i + 1..];
      var allowed := limiter.AllowRequest(calls[i].clientId, calls[i].time);
      decisions := decisions + [allowed];
      i := i + 1;
    }
  }

  method ReplaySimple(calls: seq<CR.Call>, maxRequests: int, timeWindowMillis: int) returns (decisions: seq<bool>)
    ensures decisions == CR.Run(map[], calls, maxRequests, timeWindowMillis)
  {
    var limiter := new S.SimpleRateLimiter(maxRequests, timeWindowMillis, SystemTimeProvider);
    decisions := [];
    var i := 0;
    while i < |calls|
      invariant 0 <= i <= |calls| && fresh(limiter) && fresh(limiter.clientRequestCounts.Values) && limiter.Valid()
      invariant limiter.maxRequests == maxRequests && limiter.timeWindowMillis == timeWindowMillis
      invariant decisions + CR.Run(limiter.Snapshot(), calls[i..], maxRequests, timeWindowMillis)
                == CR.Run(map[], calls, maxRequests, timeWindowMillis)
    {
      ghost var before := limiter.Snapshot();
      var allowed := limiter.AllowRequest(calls[i].clientId, calls[i].time);
      ReplayStep(decisions, allowed, before, limiter.Snapshot(), calls, i, maxRequests, timeWindowMillis);
      decisions := decisions + [allowed];
      i := i + 1;
    }
  }

  method ReplayReentrantLock(calls: seq<CR.Call>, maxRequests: int, timeWindowMillis: int) returns (decisions: seq<bool>)
    ensures decisions == CR.Run(map[], calls, maxRequests, timeWindowMillis)
  {
    var limiter := new L.ReentrantLockRateLimiter(maxRequests, timeWindowMillis, SystemTimeProvider);
    decisions := [];
    var i := 0;
    while i < |calls|
      invariant 0 <= i <= |calls| && fresh(limiter) && fresh(limiter.clientRequestCounts.Values) && limiter.Valid()
      invariant limiter.maxRequests == maxRequests && limiter.timeWindowMillis == timeWindowMillis
      invariant decisions + CR.Run(limiter.Snapshot(), calls[i..], maxRequests, timeWindowMillis)
                == CR.Run(map[], calls, maxRequests, timeWindowMillis)
    {
      ghost var before := limiter.Snapshot();
      var allowed := limiter.AllowRequest(calls[i].clientId, calls[i].time);
      ReplayStep(decisions, allowed, before, limiter.Snapshot(), calls, i, maxRequests, timeWindowMillis);
      decisions := decisions + [allowed];
      i := i + 1;
    }
  }

  method ReplayAtomic(calls: seq<CR.Call>, maxRequests: int, timeWindowMillis: int) returns (decisions: seq<bool>)
    ensures decisions == A.AtomicRun(map[], calls, maxRequests, timeWindowMillis)
    ensures maxRequests >= 1 && |calls| <= A.INT_MAX ==> decisions == CR.Run(map[], calls, maxRequests, timeWindowMillis)
  {
    var limiter := new A.AtomicRateLimiter(maxRequests, timeWindowMillis, SystemTimeProvider);
    decisions := [];
    var i := 0;
    while i < |calls|
      invariant 0 <= i <= |calls| && fresh(limiter) && fresh(limiter.clientRequestCounts.Values) && limiter.Valid()
      invariant limiter.maxRequests == maxRequests && limiter.timeWindowMillis == timeWindowMillis
      invariant decisions + A.AtomicRun(limiter.Snapshot(), calls[i..], maxRequests, timeWindowMillis)
                == A.AtomicRun(map[], calls, maxRequests, timeWindowMillis)
    {
      ghost var before := limiter.Snapshot();
      var allowed := limiter.AllowRequest(calls[i].clientId, calls[i].time);
      AtomicReplayStep(decisions, allowed, before, limiter.Snapshot(), calls, i, maxRequests, timeWindowMillis);
      decisions := decisions + [allowed];
      i := i + 1;
    }
    if maxRequests >= 1 && |calls| <= A.INT_MAX {
      A.AgreesWithFixedWindowFromStart(calls, maxRequests, timeWindowMillis);
    }
  }
}
