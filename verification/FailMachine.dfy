/**
 * The failed-login thread one clock reading at a time, so that other threads can act in between;
 * the events it completes form a history, and its table is the fold of that history.
 */
module FailMachine {
  import opened Wrappers
  import opened RemoteAddressStatus
  import opened FailBan

  /** Where the thread stands; `Blocking` lasts from the decision to block until the block is stamped. */
  datatype Pc =
    | Idle
    | Sweeping(todo: set<Addr>)
    | Testing(todo: set<Addr>, tested: Addr, at: int)
    | Finding
    | Resetting
    | Checking
    | Blocking

  /** `cur` is the event being handled, as far as its readings have been taken. */
  datatype Fail = Fail(records: Table, pc: Pc, cur: Event, log: seq<Event>)

  datatype Move =
    | Pop(addr: Addr)
    | TestBlocked(a: Addr)
    | TestExpired
    | EndSweep
    | Find
    | Reset
    | Check(delay: int)
    | Stamp

  function Start(): Fail {
    Fail(map[], Idle, Event("", 0, map[], 0, 0, 0, 0, 0), [])
  }

  predicate CanMove(cfg: Config, f: Fail, move: Move) {
    match move
    case Pop(_) => f.pc.Idle?
    case TestBlocked(a) => f.pc.Sweeping? && a in f.pc.todo && a in f.records
    case TestExpired => f.pc.Testing? && f.pc.tested in f.records
    case EndSweep => f.pc == Sweeping({})
    case Find => f.pc.Finding?
    case Reset => f.pc.Resetting? && f.cur.addr in f.records
    case Check(delay) => f.pc.Checking? && f.cur.addr in f.records && DelayOk(cfg, delay)
    case Stamp => f.pc.Blocking? && f.cur.addr in f.records
  }

  function Finish(f: Fail, cur: Event): Fail {
    f.(pc := Idle, cur := cur, log := f.log + [cur])
  }

  /** The thread after a move whose clock reading is `w`. */
  function Moved(cfg: Config, f: Fail, move: Move, w: int): Fail
    requires CanMove(cfg, f, move)
  {
    var cur, a := f.cur, f.cur.addr;
    match move
    case Pop(addr) =>
      f.(pc := Sweeping(f.records.Keys), cur := Event(addr, w, map[], w, w, w, w, AnyDelay(cfg)))
    case TestBlocked(b) =>
      if Blocked(f.records[b], w) then
        f.(pc := Sweeping(f.pc.todo - {b}), cur := cur.(sweep := cur.sweep[b := Reads(w, w)]))
      else f.(pc := Testing(f.pc.todo - {b}, b, w))
    case TestExpired =>
      var b := f.pc.tested;
      f.(records := if Expired(f.records[b], w) then f.records - {b} else f.records,
         pc := Sweeping(f.pc.todo),
         cur := cur.(sweep := cur.sweep[b := Reads(f.pc.at, w)]))
    case EndSweep =>
      if Countable(cfg, a) then f.(pc := Finding)
      else Finish(f, cur.(created := w, reset := w, checked := w, stamped := w))
    case Find =>
      f.(records := Inserted(cfg, f.records, a, w), pc := Resetting, cur := cur.(created := w))
    case Reset =>
      f.(records := f.records[a := Counted(f.records[a], w)], pc := Checking, cur := cur.(reset := w))
    case Check(delay) =>
      if StartsBlock(cfg, f.records[a], w) then f.(pc := Blocking, cur := cur.(checked := w, delay := delay))
      else Finish(f, cur.(checked := w, stamped := w))
    case Stamp =>
      var r := f.records[a].(blockTime := Duration(cfg, cur), blockStamp := w);
      Finish(f, cur.(stamped := w)).(records := f.records[a := r])
  }

  /** The sweep readings taken so far are in order and not later than `w`. */
  ghost predicate SweepReadsUpTo(e: Event, w: int) {
    e.start <= w && forall a :: a in e.sweep ==> e.start <= e.sweep[a].blocked <= e.sweep[a].expired <= w
  }

  ghost predicate Sound(cfg: Config, log: seq<Event>, t: int) {
    Genuine(cfg, log) && (log != [] ==> log[|log| - 1].stamped <= t)
  }

  /** What the thread has done to the table `before` that it had when it popped the current event. */
  ghost predicate Partial(cfg: Config, f: Fail, before: Table, w: int) {
    var e := f.cur;
    match f.pc
    case Idle => true
    case Sweeping(todo) =>
      && SweepReadsUpTo(e, w) && e.sweep.Keys == before.Keys - todo && todo <= before.Keys
      && f.records == Swept(before, e.sweep)
      && DelayOk(cfg, e.delay)
    case Testing(todo, a, t) =>
      && SweepReadsUpTo(e, w) && e.sweep.Keys == before.Keys - todo - {a} && todo + {a} <= before.Keys && a !in todo
      && f.records == Swept(before, e.sweep) && !Blocked(before[a], t) && e.start <= t <= w
      && DelayOk(cfg, e.delay)
    case Finding =>
      && SweepReadsUpTo(e, w) && e.sweep.Keys == before.Keys && Countable(cfg, e.addr)
      && f.records == Swept(before, e.sweep)
      && DelayOk(cfg, e.delay)
    case Resetting =>
      && SweepReadsUpTo(e, e.created) && e.created <= w && e.sweep.Keys == before.Keys && Countable(cfg, e.addr)
      && f.records == Inserted(cfg, Swept(before, e.sweep), e.addr, e.created)
      && DelayOk(cfg, e.delay)
    case Checking =>
      && SweepReadsUpTo(e, e.created) && e.created <= e.reset <= w && e.sweep.Keys == before.Keys
      && Countable(cfg, e.addr)
      && f.records == Swept(before, e.sweep)[e.addr := CountedRecord(cfg, before, e)]
      && DelayOk(cfg, e.delay)
    case Blocking =>
      && SweepReadsUpTo(e, e.created) && e.created <= e.reset <= e.checked <= w && e.sweep.Keys == before.Keys
      && Countable(cfg, e.addr) && StartsBlock(cfg, CountedRecord(cfg, before, e), e.checked)
      && f.records == Swept(before, e.sweep)[e.addr := CountedRecord(cfg, before, e)]
      && DelayOk(cfg, e.delay)
  }

  ghost predicate FailInv(cfg: Config, f: Fail, w: int) {
    if f.pc.Idle? then Sound(cfg, f.log, w) && f.records == State(cfg, f.log)
    else Sound(cfg, f.log, f.cur.start) && Partial(cfg, f, State(cfg, f.log), w)
  }

  lemma FailInvInitially(cfg: Config, w: int)
    ensures FailInv(cfg, Start(), w)
  {
  }

  /** The invariant survives the passing of time. */
  lemma FailInvLater(cfg: Config, f: Fail, w: int, later: int)
    requires FailInv(cfg, f, w) && w <= later
    ensures FailInv(cfg, f, later)
  {
  }

  lemma SweptOne(m: Table, sweep: map<Addr, Reads>, a: Addr, at: Reads)
    requires a in m && a !in sweep
    ensures Swept(m, sweep[a := at]) == if Removable(m[a], at) then Swept(m, sweep) - {a} else Swept(m, sweep)
    ensures a in Swept(m, sweep) && Swept(m, sweep)[a] == m[a]
  {
  }

  lemma SweepMoves(cfg: Config, f: Fail, before: Table, move: Move, w: int)
    requires CanMove(cfg, f, move) && (move.TestBlocked? || move.TestExpired?) && Partial(cfg, f, before, w)
    ensures Partial(cfg, Moved(cfg, f, move, w), before, w)
  {
    match move
    case TestBlocked(a) =>
      SweptOne(before, f.cur.sweep, a, Reads(w, w));
    case TestExpired =>
      SweptOne(before, f.cur.sweep, f.pc.tested, Reads(f.pc.at, w));
  }

  lemma HandlerMoves(cfg: Config, f: Fail, before: Table, move: Move, w: int)
    requires CanMove(cfg, f, move) && !move.Pop? && !move.TestBlocked? && !move.TestExpired?
    requires Partial(cfg, f, before, w) && !Moved(cfg, f, move, w).pc.Idle?
    ensures Partial(cfg, Moved(cfg, f, move, w), before, w)
  {
  }

  /** A finished event takes the thread's table to where the fold goes. */
  lemma FinishedEvent(cfg: Config, f: Fail, before: Table, move: Move, w: int)
    requires CanMove(cfg, f, move) && !move.Pop? && Partial(cfg, f, before, w) && Moved(cfg, f, move, w).pc.Idle?
    ensures
      var e := Moved(cfg, f, move, w).cur;
      && ReadsInOrder(e) && DelayOk(cfg, e.delay) && e.sweep.Keys == before.Keys
      && e.start == f.cur.start && e.stamped == w && e.addr == f.cur.addr
      && Moved(cfg, f, move, w).records == Step(cfg, before, e)
      && Moved(cfg, f, move, w).log == f.log + [e]
      && Decision(cfg, before, e) == if move.Stamp? then Some(Duration(cfg, f.cur)) else None
  {
    var e := Moved(cfg, f, move, w).cur;
    assert Swept(before, e.sweep) == Swept(before, f.cur.sweep);
  }

  /** Only a stamp completes an event that decided a block. */
  lemma StartedAfterMove(cfg: Config, f: Fail, move: Move, w: int)
    requires FailInv(cfg, f, w) && CanMove(cfg, f, move)
    ensures
      StartedSince(cfg, Moved(cfg, f, move, w).log, 0) ==
      StartedSince(cfg, f.log, 0) + if move.Stamp? && Duration(cfg, f.cur) > 0 then [f.cur.addr] else []
  {
    var f' := Moved(cfg, f, move, w);
    if !move.Pop? && f'.pc.Idle? {
      FinishedEvent(cfg, f, State(cfg, f.log), move, w);
      StartedAppend(cfg, f.log, f'.cur);
    }
  }

  lemma PopBegins(cfg: Config, f: Fail, addr: Addr, w: int)
    requires FailInv(cfg, f, w) && f.pc.Idle?
    ensures FailInv(cfg, Moved(cfg, f, Pop(addr), w), w)
  {
    assert Swept(f.records, map[]) == f.records;
  }

  lemma EventEnds(cfg: Config, f: Fail, move: Move, w: int)
    requires FailInv(cfg, f, w) && CanMove(cfg, f, move) && !move.Pop? && Moved(cfg, f, move, w).pc.Idle?
    ensures FailInv(cfg, Moved(cfg, f, move, w), w)
  {
    var f' := Moved(cfg, f, move, w);
    FinishedEvent(cfg, f, State(cfg, f.log), move, w);
    GenuineAppend(cfg, f.log, f'.cur);
    StateAppend(cfg, f.log, f'.cur);
  }

  lemma EventGoesOn(cfg: Config, f: Fail, move: Move, w: int)
    requires FailInv(cfg, f, w) && CanMove(cfg, f, move) && !move.Pop? && !Moved(cfg, f, move, w).pc.Idle?
    ensures FailInv(cfg, Moved(cfg, f, move, w), w)
  {
    if move.TestBlocked? || move.TestExpired? {
      SweepMoves(cfg, f, State(cfg, f.log), move, w);
    } else {
      HandlerMoves(cfg, f, State(cfg, f.log), move, w);
    }
  }

  lemma FailInvKept(cfg: Config, f: Fail, move: Move, w: int)
    requires FailInv(cfg, f, w) && CanMove(cfg, f, move)
    ensures FailInv(cfg, Moved(cfg, f, move, w), w)
  {
    if move.Pop? {
      PopBegins(cfg, f, move.addr, w);
    } else if Moved(cfg, f, move, w).pc.Idle? {
      EventEnds(cfg, f, move, w);
    } else {
      EventGoesOn(cfg, f, move, w);
    }
  }
}
