/** The sliding-window log: each client has a queue of the times of its
    admitted requests. A request first drops the expired times from the front
    of the queue, and is admitted, and its time appended, while fewer than
    `maxRequests` times remain. */
module SlidingWindowStrategy {
  import opened Rates
  import opened Optional
  import opened Clock
  import opened Sequences

  /** The log after dropping its leading run of times at or before `windowStart`:
      what remains starts inside the window (`PrunedSplit` says what was dropped). */
  function Pruned(timestamps: seq<int>, windowStart: int): (r: seq<int>)
    ensures |r| <= |timestamps|
    ensures r == [] || r[0] > windowStart
  {
    if timestamps != [] && timestamps[0] <= windowStart then Pruned(timestamps[1..], windowStart) else timestamps
  }

  /** Pruning removes a prefix of the log, and every time it removed was at or
      before `windowStart`; it stops at the first time still inside the window. */
  lemma {:induction false} PrunedSplit(timestamps: seq<int>, windowStart: int)
    ensures var r := Pruned(timestamps, windowStart);
            timestamps == timestamps[..|timestamps| - |r|] + r &&
            forall i | 0 <= i < |timestamps| - |r| :: timestamps[i] <= windowStart
  {
    if timestamps != [] && timestamps[0] <= windowStart {
      PrunedSplit(timestamps[1..], windowStart);
      var r := Pruned(timestamps, windowStart);
      assert timestamps == [timestamps[0]] + timestamps[1..];
      assert timestamps[..|timestamps| - |r|] == [timestamps[0]] + timestamps[1..][..|timestamps| - 1 - |r|];
      forall i | 0 <= i < |timestamps| - |r|
        ensures timestamps[i] <= windowStart
      {
        if i > 0 {
          assert timestamps[i] == timestamps[1..][i - 1];
        }
      }
    } else {
      assert timestamps[..0] + timestamps == timestamps;
    }
  }

  /** The decision on one request and the client's log after it. */
  datatype Outcome = Outcome(allowed: bool, timestamps: seq<int>)

  /** The body of the `compute` lambda. An unseen client starts from an empty log. */
  function Step(timestamps: Option<seq<int>>, currentTime: int, maxRequests: int, timeWindowMillis: int): (o: Outcome)
    // admitted exactly when the pruned log has room, and then the time goes at the back
    ensures var kept := Pruned(if timestamps.Some? then timestamps.value else [], currentTime - timeWindowMillis);
            (o.allowed <==> |kept| < maxRequests) &&
            (o.allowed ==> o.timestamps == kept + [currentTime] && |o.timestamps| <= maxRequests) &&
            (!o.allowed ==> o.timestamps == kept)
    ensures timestamps.None? ==> (o.allowed <==> maxRequests >= 1)
  {
    var kept := Pruned(if timestamps.Some? then timestamps.value else [], currentTime - timeWindowMillis);
    if |kept| < maxRequests then Outcome(true, kept + [currentTime]) else Outcome(false, kept)
  }

  /** How many logged times are still inside the window ending at `currentTime`. */
  function CountValid(timestamps: seq<int>, currentTime: int, timeWindowMillis: int): (n: nat)
    ensures n <= |timestamps|
  {
    if timestamps == [] then 0
    else (if currentTime - timestamps[0] < timeWindowMillis then 1 else 0)
         + CountValid(timestamps[1..], currentTime, timeWindowMillis)
  }

  lemma {:induction false} CountValidAppend(a: seq<int>, b: seq<int>, currentTime: int, timeWindowMillis: int)
    ensures CountValid(a + b, currentTime, timeWindowMillis)
            == CountValid(a, currentTime, timeWindowMillis) + CountValid(b, currentTime, timeWindowMillis)
  {
    if a == [] {
      assert a + b == b;
    } else {
      assert (a + b)[1..] == a[1..] + b;
      CountValidAppend(a[1..], b, currentTime, timeWindowMillis);
    }
  }

  lemma {:induction false} CountValidAllExpired(timestamps: seq<int>, currentTime: int, timeWindowMillis: int)
    requires forall i | 0 <= i < |timestamps| :: timestamps[i] <= currentTime - timeWindowMillis
    ensures CountValid(timestamps, currentTime, timeWindowMillis) == 0
  {
    if timestamps != [] {
      CountValidAllExpired(timestamps[1..], currentTime, timeWindowMillis);
    }
  }

  lemma {:induction false} CountValidAllLive(timestamps: seq<int>, currentTime: int, timeWindowMillis: int)
    requires forall i | 0 <= i < |timestamps| :: timestamps[i] > currentTime - timeWindowMillis
    ensures CountValid(timestamps, currentTime, timeWindowMillis) == |timestamps|
  {
    if timestamps != [] {
      CountValidAllLive(timestamps[1..], currentTime, timeWindowMillis);
    }
  }

  /** In a log kept in time order, pruning from the front removes exactly the
      expired times: what remains is what the remaining-requests count sees. */
  lemma SortedPruneKeepsLive(timestamps: seq<int>, currentTime: int, timeWindowMillis: int)
    requires NonDecreasing(timestamps)
    ensures |Pruned(timestamps, currentTime - timeWindowMillis)| == CountValid(timestamps, currentTime, timeWindowMillis)
  {
    var kept := Pruned(timestamps, currentTime - timeWindowMillis);
    PrunedSplit(timestamps, currentTime - timeWindowMillis);
    var dropped := timestamps[..|timestamps| - |kept|];
    assert timestamps == dropped + kept;
    CountValidAppend(dropped, kept, currentTime, timeWindowMillis);
    CountValidAllExpired(dropped, currentTime, timeWindowMillis);
    CountValidAllLive(kept, currentTime, timeWindowMillis);
  }

  /** The decisions one client receives for requests at the given times. */
  function Decisions(timestamps: seq<int>, times: seq<int>, maxRequests: int, timeWindowMillis: int): (r: seq<bool>)
    ensures |r| == |times|
    decreases |times|
  {
    if times == [] then []
    else
      var o := Step(Some(timestamps), times[0], maxRequests, timeWindowMillis);
      [o.allowed] + Decisions(o.timestamps, times[1..], maxRequests, timeWindowMillis)
  }

  /** The client's log after requests at the given times. */
  function FinalLog(timestamps: seq<int>, times: seq<int>, maxRequests: int, timeWindowMillis: int): seq<int>
    decreases |times|
  {
    if times == [] then timestamps
    else
      var o := Step(Some(timestamps), times[0], maxRequests, timeWindowMillis);
      FinalLog(o.timestamps, times[1..], maxRequests, timeWindowMillis)
  }

  /** The times of the requests that were admitted, in order. */
  function AdmittedTimes(times: seq<int>, decisions: seq<bool>): (r: seq<int>)
    requires |decisions| == |times|
  {
    if times == [] then []
    else (if decisions[0] then [times[0]] else []) + AdmittedTimes(times[1..], decisions[1..])
  }

  /** The log is what remains of the admitted history `history` after expired
      times were dropped from its front, the last request was at `last`, and
      the history is in time order. */
  ghost predicate Consistent(history: seq<int>, timestamps: seq<int>, last: int, timeWindowMillis: int)
  {
    NonDecreasing(history) &&
    |timestamps| <= |history| && timestamps == history[|history| - |timestamps|..] &&
    (forall i | 0 <= i < |history| - |timestamps| :: history[i] <= last - timeWindowMillis) &&
    (forall i | 0 <= i < |history| :: history[i] <= last)
  }

  /** A log that is a tail of the history, pruned to a shorter tail: the pruned
      log is a tail of the history too, and everything before it is expired
      when both the log's dropped part and the history before the log are. */
  lemma TailOfTail(history: seq<int>, timestamps: seq<int>, kept: seq<int>, windowStart: int)
    requires |timestamps| <= |history| && timestamps == history[|history| - |timestamps|..]
    requires forall i | 0 <= i < |history| - |timestamps| :: history[i] <= windowStart
    requires |kept| <= |timestamps| && timestamps == timestamps[..|timestamps| - |kept|] + kept
    requires forall i | 0 <= i < |timestamps| - |kept| :: timestamps[i] <= windowStart
    ensures kept == history[|history| - |kept|..]
    ensures forall i | 0 <= i < |history| - |kept| :: history[i] <= windowStart
  {
    var k := |history| - |timestamps|;
    assert kept == timestamps[|timestamps| - |kept|..];
    forall i | k <= i < |history| - |kept|
      ensures history[i] <= windowStart
    {
      assert history[i] == timestamps[i - k];
    }
  }

  /** In a history kept in time order whose first `from` times have expired and
      whose next one has not, the window counts exactly the rest. */
  lemma CountValidSplit(history: seq<int>, from: nat, now: int, timeWindowMillis: int)
    requires NonDecreasing(history) && from <= |history|
    requires forall i | 0 <= i < from :: history[i] <= now - timeWindowMillis
    requires from < |history| ==> history[from] > now - timeWindowMillis
    ensures CountValid(history, now, timeWindowMillis) == |history| - from
  {
    var live := history[from..];
    forall i | 0 <= i < |live|
      ensures live[i] > now - timeWindowMillis
    {
      assert history[from] <= history[from + i];
    }
    assert history == history[..from] + live;
    CountValidAppend(history[..from], live, now, timeWindowMillis);
    CountValidAllExpired(history[..from], now, timeWindowMillis);
    CountValidAllLive(live, now, timeWindowMillis);
  }

  /** What expired before the last request has expired at any later time too. */
  lemma ExpiredStaysExpired(history: seq<int>, n: int, last: int, now: int, timeWindowMillis: int)
    requires n <= |history| && last <= now
    requires forall i | 0 <= i < n :: history[i] <= last - timeWindowMillis
    ensures forall i | 0 <= i < n :: history[i] <= now - timeWindowMillis
  {
  }

  /** Under a consistent log, pruning at `now` leaves the tail of the history
      whose times are live at `now`, and all the history before it has expired;
      so the kept times are what the window ending at `now` counts. */
  lemma {:induction false} PruneSplitsHistory(history: seq<int>, timestamps: seq<int>, last: int, now: int, timeWindowMillis: int)
    requires Consistent(history, timestamps, last, timeWindowMillis) && last <= now
    ensures var kept := Pruned(timestamps, now - timeWindowMillis);
            |kept| <= |history| && kept == history[|history| - |kept|..] &&
            (forall i | 0 <= i < |history| - |kept| :: history[i] <= now - timeWindowMillis) &&
            CountValid(history, now, timeWindowMillis) == |kept|
  {
    var kept := Pruned(timestamps, now - timeWindowMillis);
    PrunedSplit(timestamps, now - timeWindowMillis);
    ExpiredStaysExpired(history, |history| - |timestamps|, last, now, timeWindowMillis);
    TailOfTail(history, timestamps, kept, now - timeWindowMillis);
    var g := |history| - |kept|;
    if g < |history| {
      assert history[g] == kept[0];
    }
    CountValidSplit(history, g, now, timeWindowMillis);
  }

  /** One request at a time no earlier than the last: it is admitted exactly when
      fewer than `maxRequests` admitted requests lie in the window ending now,
      and afterwards that window holds at most the limit. */
  lemma {:induction false} StepKeepsWindow(history: seq<int>, timestamps: seq<int>, last: int, now: int, maxRequests: int, timeWindowMillis: int)
    requires Consistent(history, timestamps, last, timeWindowMillis)
    requires last <= now && |timestamps| <= Max(0, maxRequests)
    ensures var o := Step(Some(timestamps), now, maxRequests, timeWindowMillis);
            var after := history + (if o.allowed then [now] else []);
            (o.allowed <==> CountValid(history, now, timeWindowMillis) < maxRequests) &&
            Consistent(after, o.timestamps, now, timeWindowMillis) &&
            |o.timestamps| <= Max(0, maxRequests) &&
            CountValid(after, now, timeWindowMillis) <= Max(0, maxRequests)
  {
    var o := Step(Some(timestamps), now, maxRequests, timeWindowMillis);
    var kept := Pruned(timestamps, now - timeWindowMillis);
    PruneSplitsHistory(history, timestamps, last, now, timeWindowMillis);
    if o.allowed {
      assert o.timestamps == kept + [now];
      AdmitKeepsConsistent(history, kept, last, now, timeWindowMillis);
      CountValidAppend(history, [now], now, timeWindowMillis);
      assert CountValid([now], now, timeWindowMillis) <= 1;
    } else {
      assert history + [] == history;
    }
  }

  /** Appending an admitted request at `now` to a history whose log is the live
      tail keeps the log consistent with the history. */
  lemma AdmitKeepsConsistent(history: seq<int>, kept: seq<int>, last: int, now: int, timeWindowMillis: int)
    requires NonDecreasing(history) && (forall i | 0 <= i < |history| :: history[i] <= last) && last <= now
    requires |kept| <= |history| && kept == history[|history| - |kept|..]
    requires forall i | 0 <= i < |history| - |kept| :: history[i] <= now - timeWindowMillis
    ensures Consistent(history + [now], kept + [now], now, timeWindowMillis)
  {
    var after := history + [now];
    assert kept + [now] == after[|after| - |kept + [now]|..];
    assert forall i | 0 <= i < |after| - 1 :: after[i] == history[i];
  }

  /** Decisions over two batches are those over the first followed by those over
      the second, starting from the log the first left. */
  lemma {:induction false} DecisionsAppend(timestamps: seq<int>, a: seq<int>, b: seq<int>, maxRequests: int, timeWindowMillis: int)
    ensures Decisions(timestamps, a + b, maxRequests, timeWindowMillis)
            == Decisions(timestamps, a, maxRequests, timeWindowMillis)
               + Decisions(FinalLog(timestamps, a, maxRequests, timeWindowMillis), b, maxRequests, timeWindowMillis)
    decreases |a|
  {
    if a == [] {
      assert a + b == b;
    } else {
      var o := Step(Some(timestamps), a[0], maxRequests, timeWindowMillis);
      assert (a + b)[0] == a[0] && (a + b)[1..] == a[1..] + b;
      DecisionsAppend(o.timestamps, a[1..], b, maxRequests, timeWindowMillis);
    }
  }

  /** A whole run at a clock that never goes backwards keeps the log consistent
      with the admitted history, and keeps every window within the limit. */
  lemma {:induction false} RunKeepsWindow(history: seq<int>, timestamps: seq<int>, last: int, times: seq<int>, maxRequests: int, timeWindowMillis: int)
    requires Consistent(history, timestamps, last, timeWindowMillis) && |timestamps| <= Max(0, maxRequests)
    requires times != [] && last <= times[0] && NonDecreasing(times)
    ensures var after := history + AdmittedTimes(times, Decisions(timestamps, times, maxRequests, timeWindowMillis));
            var final := FinalLog(timestamps, times, maxRequests, timeWindowMillis);
            Consistent(after, final, times[|times| - 1], timeWindowMillis) &&
            |final| <= Max(0, maxRequests) &&
            CountValid(after, times[|times| - 1], timeWindowMillis) <= Max(0, maxRequests)
    decreases |times|
  {
    var o := Step(Some(timestamps), times[0], maxRequests, timeWindowMillis);
    var next := history + (if o.allowed then [times[0]] else []);
    StepKeepsWindow(history, timestamps, last, times[0], maxRequests, timeWindowMillis);
    RunUnfolds(history, timestamps, times, maxRequests, timeWindowMillis);
    if |times| > 1 {
      NonDecreasingTail(times);
      assert times[0] <= times[1..][0];
      RunKeepsWindow(next, o.timestamps, times[0], times[1..], maxRequests, timeWindowMillis);
      assert times[1..][|times| - 2] == times[|times| - 1];
    } else {
      assert next + AdmittedTimes(times[1..], Decisions(o.timestamps, times[1..], maxRequests, timeWindowMillis)) == next;
    }
  }

  /** The history and the log after a run are those after its first request
      followed by those after the rest. */
  lemma RunUnfolds(history: seq<int>, timestamps: seq<int>, times: seq<int>, maxRequests: int, timeWindowMillis: int)
    requires times != []
    ensures var o := Step(Some(timestamps), times[0], maxRequests, timeWindowMillis);
            var next := history + (if o.allowed then [times[0]] else []);
            history + AdmittedTimes(times, Decisions(timestamps, times, maxRequests, timeWindowMillis))
            == next + AdmittedTimes(times[1..], Decisions(o.timestamps, times[1..], maxRequests, timeWindowMillis)) &&
            FinalLog(timestamps, times, maxRequests, timeWindowMillis) == FinalLog(o.timestamps, times[1..], maxRequests, timeWindowMillis)
  {
    var o := Step(Some(timestamps), times[0], maxRequests, timeWindowMillis);
    var ds := Decisions(timestamps, times, maxRequests, timeWindowMillis);
    assert ds[0] == o.allowed && ds[1..] == Decisions(o.timestamps, times[1..], maxRequests, timeWindowMillis);
  }

  /** The sliding-window guarantee: for one client at a clock that never goes
      backwards, the admitted requests inside the window ending at any request
      never number more than the limit. */
  lemma AtMostLimitInAnyWindow(times: seq<int>, maxRequests: int, timeWindowMillis: int)
    requires times != [] && NonDecreasing(times)
    ensures CountValid(AdmittedTimes(times, Decisions([], times, maxRequests, timeWindowMillis)),
                       times[|times| - 1], timeWindowMillis) <= Max(0, maxRequests)
  {
    RunKeepsWindow([], [], times[0], times, maxRequests, timeWindowMillis);
    assert [] + AdmittedTimes(times, Decisions([], times, maxRequests, timeWindowMillis))
           == AdmittedTimes(times, Decisions([], times, maxRequests, timeWindowMillis));
  }

  /** ...and a request is admitted exactly when fewer than `maxRequests`
      earlier requests were admitted inside the window ending at it. */
  lemma AdmittedIffRoomInWindow(earlier: seq<int>, now: int, maxRequests: int, timeWindowMillis: int)
    requires NonDecreasing(earlier + [now])
    ensures var ds := Decisions([], earlier + [now], maxRequests, timeWindowMillis);
            ds[|earlier|] <==>
              CountValid(AdmittedTimes(earlier, Decisions([], earlier, maxRequests, timeWindowMillis)), now, timeWindowMillis) < maxRequests
  {
    DecisionsAppend([], earlier, [now], maxRequests, timeWindowMillis);
    var history := AdmittedTimes(earlier, Decisions([], earlier, maxRequests, timeWindowMillis));
    var log := FinalLog([], earlier, maxRequests, timeWindowMillis);
    assert Decisions(log, [now], maxRequests, timeWindowMillis)[0] == Step(Some(log), now, maxRequests, timeWindowMillis).allowed;
    if earlier == [] {
      StepKeepsWindow([], [], now, now, maxRequests, timeWindowMillis);
    } else {
      var all := earlier + [now];
      var last := earlier[|earlier| - 1];
      assert NonDecreasing(earlier) by {
        assert forall i | 0 <= i < |earlier| :: earlier[i] == all[i];
      }
      assert last <= now by {
        assert all[|earlier| - 1] == last && all[|earlier|] == now;
      }
      RunKeepsWindow([], [], earlier[0], earlier, maxRequests, timeWindowMillis);
      assert [] + history == history;
      assert Consistent(history, log, last, timeWindowMillis) && |log| <= Max(0, maxRequests);
      StepKeepsWindow(history, log, last, now, maxRequests, timeWindowMillis);
    }
  }

  /** Pruning keeps a log whose every time is still inside the window. */
  lemma PrunedKeepsLive(timestamps: seq<int>, windowStart: int)
    requires forall i | 0 <= i < |timestamps| :: timestamps[i] > windowStart
    ensures Pruned(timestamps, windowStart) == timestamps
  {
  }

  /** Requests whose times, and every logged time, fall within one window
      starting at `start`: nothing is pruned, the requests are admitted until the
      log holds the limit, and every later one is denied. */
  lemma {:induction false} BurstWithinOneWindow(timestamps: seq<int>, times: seq<int>, start: int, maxRequests: int, timeWindowMillis: int)
    requires |timestamps| <= Max(0, maxRequests)
    requires forall i | 0 <= i < |timestamps| :: start <= timestamps[i]
    requires forall i | 0 <= i < |times| :: start <= times[i] < start + timeWindowMillis
    ensures forall i | 0 <= i < |times| ::
              Decisions(timestamps, times, maxRequests, timeWindowMillis)[i] <==> i < Max(0, maxRequests) - |timestamps|
    decreases |times|
  {
    if times != [] {
      PrunedKeepsLive(timestamps, times[0] - timeWindowMillis);
      var next := if |timestamps| < maxRequests then timestamps + [times[0]] else timestamps;
      assert Decisions(timestamps, times, maxRequests, timeWindowMillis)
             == [|timestamps| < maxRequests] + Decisions(next, times[1..], maxRequests, timeWindowMillis);
      BurstWithinOneWindow(next, times[1..], start, maxRequests, timeWindowMillis);
    }
  }

  /** Limit 10, window 10000: ten requests at 9900 are admitted and ten at 10100
      are denied, since none of the earlier times has left the window. */
  lemma NoBurstAcrossClockBoundary()
    ensures var ds := Decisions([], Repeat(9900, 10) + Repeat(10100, 10), 10, 10000);
            |ds| == 20 && forall i | 0 <= i < 20 :: ds[i] <==> i < 10
  {
    var times := Repeat(9900, 10) + Repeat(10100, 10);
    assert forall i | 0 <= i < |times| :: 9900 <= times[i] < 9900 + 10000;
    BurstWithinOneWindow([], times, 9900, 10, 10000);
  }

  /** Once every logged time is a full window old, a positive limit admits again. */
  lemma AdmitsAgainAfterQuietWindow(timestamps: seq<int>, now: int, maxRequests: int, timeWindowMillis: int)
    requires maxRequests >= 1
    requires forall i | 0 <= i < |timestamps| :: now - timestamps[i] >= timeWindowMillis
    ensures Step(Some(timestamps), now, maxRequests, timeWindowMillis).allowed
  {
    var kept := Pruned(timestamps, now - timeWindowMillis);
    PrunedSplit(timestamps, now - timeWindowMillis);
  }

  class SlidingWindowStrategy {
    const maxRequests: int
    const timeWindowMillis: int
    const timeProvider: TimeProvider
    var clientTimestamps: map<string, seq<int>>

    /** No log ever holds more than the limit. */
    ghost predicate Valid()
      reads this
    {
      forall c | c in clientTimestamps :: |clientTimestamps[c]| <= Max(0, maxRequests)
    }

    constructor (maxRequests: int, timeWindowMillis: int, timeProvider: TimeProvider)
      ensures Valid()
      ensures this.maxRequests == maxRequests && this.timeWindowMillis == timeWindowMillis
      ensures this.timeProvider == timeProvider
      ensures clientTimestamps == map[]
    {
      this.maxRequests := maxRequests;
      this.timeWindowMillis := timeWindowMillis;
      this.timeProvider := timeProvider;
      clientTimestamps := map[];
    }

    /** One request by `clientId` at `now`, the time the clock reads inside `compute`. */
    method AllowRequest(clientId: string, now: int) returns (allowed: bool)
      requires Valid()
      modifies this
      ensures Valid()
      ensures var o := Step(Get(old(clientTimestamps), clientId), now, maxRequests, timeWindowMillis);
              allowed == o.allowed && clientTimestamps == old(clientTimestamps)[clientId := o.timestamps]
    {
      var timestamps := if clientId in clientTimestamps then clientTimestamps[clientId] else [];
      timestamps := RemoveExpiredTimestamps(timestamps, now);
      if |timestamps| < maxRequests {
        timestamps := timestamps + [now];
        allowed := true;
      } else {
        allowed := false;
      }
      clientTimestamps := clientTimestamps[clientId := timestamps];
    }

    /** Polls the front of the log while it is at or before `currentTime - timeWindowMillis`. */
    method RemoveExpiredTimestamps(timestamps: seq<int>, currentTime: int) returns (remaining: seq<int>)
      ensures remaining == Pruned(timestamps, currentTime - timeWindowMillis)
    {
      var windowStart := currentTime - timeWindowMillis;
      var i := 0;
      while i < |timestamps| && timestamps[i] <= windowStart
        invariant 0 <= i <= |timestamps|
        invariant Pruned(timestamps[i..], windowStart) == Pruned(timestamps, windowStart)
      {
        assert timestamps[i..][1..] == timestamps[i + 1..];
        i := i + 1;
      }
      remaining := timestamps[i..];
    }

    /** Forgets the client; a client never seen is left as it was. */
    method Reset(clientId: string)
      modifies this
      ensures clientTimestamps == old(clientTimestamps) - {clientId}
      ensures Get(clientTimestamps, clientId).None?
    {
      clientTimestamps := clientTimestamps - {clientId};
    }

    /** The full limit for an unseen client; otherwise the limit less the logged
        times still inside the window, never below 0. The log is not changed. */
    function GetRemainingRequests(clientId: string, now: int): (r: int)
      reads this
      ensures clientId !in clientTimestamps ==> r == maxRequests
      ensures clientId in clientTimestamps ==>
                r == Max(0, maxRequests - CountValid(clientTimestamps[clientId], now, timeWindowMillis))
      ensures r <= Max(0, maxRequests) && (clientId in clientTimestamps ==> 0 <= r)
    {
      if clientId !in clientTimestamps then maxRequests
      else Max(0, maxRequests - CountValid(clientTimestamps[clientId], now, timeWindowMillis))
    }

    /** The size of the client's log after pruning it in place; 0, with nothing
        stored, for an unseen client. */
    method GetCurrentWindowSize(clientId: string, now: int) returns (size: int)
      requires Valid()
      modifies this
      ensures Valid()
      ensures clientId !in old(clientTimestamps) ==> size == 0 && clientTimestamps == old(clientTimestamps)
      ensures clientId in old(clientTimestamps) ==>
                var kept := Pruned(old(clientTimestamps)[clientId], now - timeWindowMillis);
                size == |kept| && clientTimestamps == old(clientTimestamps)[clientId := kept]
    {
      if clientId !in clientTimestamps {
        return 0;
      }
      var timestamps := RemoveExpiredTimestamps(clientTimestamps[clientId], now);
      clientTimestamps := clientTimestamps[clientId := timestamps];
      size := |timestamps|;
    }
  }

  /** For a log in time order, the remaining count is positive exactly when a
      request at the same instant would be admitted, for a seen client and an
      unseen one alike. */
  lemma RemainingReportsRoom(strategy: SlidingWindowStrategy, clientId: string, now: int)
    requires clientId in strategy.clientTimestamps ==> NonDecreasing(strategy.clientTimestamps[clientId])
    ensures strategy.GetRemainingRequests(clientId, now) > 0 <==>
            Step(Get(strategy.clientTimestamps, clientId), now, strategy.maxRequests, strategy.timeWindowMillis).allowed
  {
    if clientId in strategy.clientTimestamps {
      SortedPruneKeepsLive(strategy.clientTimestamps[clientId], now, strategy.timeWindowMillis);
    }
  }

  /** Limit 3: three requests leave 2, 1 and 0 remaining; the fourth is denied
      and 0 remain. */
  method LimitOfThree(now: int) returns (remaining: seq<int>, fourth: bool, remainingAfter: int)
    ensures remaining == [2, 1, 0]
    ensures !fourth && remainingAfter == 0
  {
    var strategy := new SlidingWindowStrategy(3, 60000, SystemTimeProvider);
    remaining := [];
    var i := 0;
    while i < 3
      invariant 0 <= i <= 3 && strategy.Valid()
      invariant strategy.maxRequests == 3 && strategy.timeWindowMillis == 60000
      invariant i == 0 ==> strategy.clientTimestamps == map[]
      invariant i > 0 ==> strategy.clientTimestamps == map["client" := Repeat(now, i)]
      invariant |remaining| == i && forall k | 0 <= k < i :: remaining[k] == 2 - k
    {
      var allowed := strategy.AllowRequest("client", now);
      assert Repeat(now, i) + [now] == Repeat(now, i + 1);
      CountValidAllLive(Repeat(now, i + 1), now, 60000);
      remaining := remaining + [strategy.GetRemainingRequests("client", now)];
      i := i + 1;
    }
    PrunedKeepsLive(Repeat(now, 3), now - 60000);
    CountValidAllLive(Repeat(now, 3), now, 60000);
    fourth := strategy.AllowRequest("client", now);
    remainingAfter := strategy.GetRemainingRequests("client", now);
  }
}
