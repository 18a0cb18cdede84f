/** Instants of simulated time, and a clock that only moves forward. */
module Clock {
  import opened Bytes
  import opened Wrappers

  const END_OF_TIME: u64 := 0xFFFF_FFFF_FFFF_FFFF

  /** The instant `delay` after `now`, or the end of time if there is none that late. */
  function Later(now: u64, delay: nat): (at: u64)
    ensures now <= at
    ensures now + delay <= END_OF_TIME ==> at == now + delay
    ensures now + delay > END_OF_TIME ==> at == END_OF_TIME
  {
    if now + delay <= END_OF_TIME then now + delay else END_OF_TIME
  }

  datatype ClockError = ClockBackwards(now: u64, target: u64)

  class VirtualClock {
    var now: u64

    constructor ()
      ensures now == 0
    {
      now := 0;
    }

    /** Moves the clock to `target`, or refuses one already passed and stays where it was. */
    method AdvanceTo(target: u64) returns (error: Option<ClockError>)
      modifies this
      ensures error.None? <==> old(now) <= target
      ensures now == if old(now) <= target then target else old(now)
      ensures error.Some? ==> error.value == ClockBackwards(old(now), target)
    {
      if target < now {
        return Some(ClockBackwards(now, target));
      }
      now := target;
      return None;
    }
  }
}
