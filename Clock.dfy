/** The injected clock. `TimeProvider` (the interface every limiter reads the
    time through) is an abstract clock with two implementations: the wall clock,
    whose reading is a foreign call and enters the model as a parameter, and the
    settable `FakeTimeProvider` the tests drive. */
module Clock {

  /** The controllable clock: starts at 0 and reports the last time set. */
  class FakeTimeProvider {
    var currentTime: int

    constructor ()
      ensures currentTime == 0
    {
      currentTime := 0;
    }

    /** Reading the time changes nothing (no modifies clause). */
    method GetCurrentTimeMillis() returns (t: int)
      ensures t == currentTime
    {
      t := currentTime;
    }

    /** Any value is accepted, including one before the current time: the
        fake clock is not forced to be monotonic. */
    method SetCurrentTime(timeMillis: int)
      modifies this
      ensures currentTime == timeMillis
    {
      currentTime := timeMillis;
    }
  }

  /** A time source a limiter is built with. */
  datatype TimeProvider =
    | SystemTimeProvider
    | Fake(clock: FakeTimeProvider)

  /** The reading of a time source: the host's wall clock (given) or the fake's time. */
  function CurrentTimeMillis(provider: TimeProvider, hostMillis: int): (t: int)
    reads if provider.Fake? then {provider.clock} else {}
    ensures provider.SystemTimeProvider? ==> t == hostMillis
    ensures provider.Fake? ==> t == provider.clock.currentTime
  {
    match provider
    case SystemTimeProvider => hostMillis
    case Fake(clock) => clock.currentTime
  }

  /** A fake clock reads 0 at first and then whatever was set last, even when
      that is earlier than before; two reads in a row agree. */
  method FakeClockReadsLastSetValue(earlier: int, later: int) returns (first: int, afterLater: int, afterEarlier: int, again: int)
    requires earlier < later
    ensures first == 0
    ensures afterLater == later
    ensures afterEarlier == earlier && again == afterEarlier
  {
    var clock := new FakeTimeProvider();
    first := clock.GetCurrentTimeMillis();
    clock.SetCurrentTime(later);
    afterLater := clock.GetCurrentTimeMillis();
    clock.SetCurrentTime(earlier);
    afterEarlier := clock.GetCurrentTimeMillis();
    again := clock.GetCurrentTimeMillis();
  }
}
