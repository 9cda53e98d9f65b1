/** The whole-second clock behind `time(0)`, and the `Timer` built on it. */
module Clocks {

  /** Every read may be later than the one before it, and is never earlier. */
  class Clock {
    var now: int

    constructor (now: int)
      ensures this.now == now
    {
      this.now := now;
    }

    method Read() returns (t: int)
      modifies this
      ensures old(now) <= now && t == now
    {
      t :| now <= t;
      now := t;
    }
  }

  /** A member held by value: initialising or resetting it replaces it by `Timer` of a new reading. */
  datatype Timer = Timer(time: int) {
    function Elapsed(now: int): int {
      now - time
    }

    /** Strict: a timer is not timed out in the very second its value is reached. */
    predicate IsTimeout(now: int, value: int) {
      Elapsed(now) > value
    }
  }
}
