/** The record kept for one remote address: its value, and the object that is updated in place. */
module RemoteAddressStatus {
  import opened Clocks

  /** What a `Status` object holds. */
  datatype Record = Record(count: int, expireTime: int, expireStamp: int, blockTime: int, blockStamp: int)

  /** A block of `blockTime` seconds includes the second in which it ends; a non-positive one never holds. */
  predicate Blocked(r: Record, t: int) {
    r.blockTime > 0 && t <= r.blockStamp + r.blockTime
  }

  /** A non-positive expiry time means that the record never expires. */
  predicate Expired(r: Record, t: int) {
    r.expireTime > 0 && t > r.expireStamp + r.expireTime
  }

  class Status {
    var count: int
    var expireTime: int
    var expireTimer: Timer
    var blockTime: int
    var blockedTimer: Timer

    ghost function Value(): Record
      reads this
    {
      Record(count, expireTime, expireTimer.time, blockTime, blockedTimer.time)
    }

    constructor (clock: Clock)
      modifies clock
      ensures old(clock.now) <= Value().expireStamp <= Value().blockStamp == clock.now
      ensures Value().count == Value().expireTime == Value().blockTime == 0
    {
      count, expireTime, blockTime := 0, 0, 0;
      var first := clock.Read();
      expireTimer := Timer(first);
      var second := clock.Read();
      blockedTimer := Timer(second);
    }

    method SetCount(n: int)
      modifies this
      ensures Value() == old(Value()).(count := n)
    {
      count := n;
    }

    method ResetExpireTimer(clock: Clock)
      modifies this, clock
      ensures old(clock.now) <= clock.now
      ensures Value() == old(Value()).(expireStamp := clock.now)
    {
      var t := clock.Read();
      expireTimer := Timer(t);
    }

    method SetExpireTime(clock: Clock, seconds: int)
      modifies this, clock
      ensures old(clock.now) <= clock.now
      ensures Value() == old(Value()).(expireTime := seconds, expireStamp := clock.now)
    {
      expireTime := seconds;
      ResetExpireTimer(clock);
    }

    method SetBlockTime(clock: Clock, seconds: int)
      modifies this, clock
      ensures old(clock.now) <= clock.now
      ensures Value() == old(Value()).(blockTime := seconds, blockStamp := clock.now)
    {
      blockTime := seconds;
      var t := clock.Read();
      blockedTimer := Timer(t);
    }

    /** The clock is read only when the record has an expiry time. */
    method IsExpired(clock: Clock) returns (expired: bool)
      modifies clock
      ensures old(clock.now) <= clock.now
      ensures expired <==> Expired(Value(), clock.now)
    {
      if expireTime <= 0 {
        return false;
      }
      var t := clock.Read();
      expired := expireTimer.IsTimeout(t, expireTime);
    }

    /** The clock is read only when the record has a block time. */
    method IsBlocked(clock: Clock) returns (blocked: bool)
      modifies clock
      ensures old(clock.now) <= clock.now
      ensures blocked <==> Blocked(Value(), clock.now)
    {
      if blockTime <= 0 {
        return false;
      }
      var t := clock.Read();
      blocked := !blockedTimer.IsTimeout(t, blockTime);
    }
  }
}
