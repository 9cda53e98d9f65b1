/** The thread that handles failed logins, on the objects it updates in place. */
module FailBanThread {
  import opened Wrappers
  import opened Clocks
  import opened RemoteAddressStatus
  import opened FailBan
  import opened RandomUtils
  import opened FirewallController
  import opened RuleTasks
  import opened IoContext

  method IsWhiteAddress(cfg: Config, address: string) returns (white: bool)
    ensures white <==> exists k :: 0 <= k < |cfg.whitelist| && cfg.matches(cfg.whitelist[k], address)
    ensures white <==> WhiteAddress(cfg, address)
  {
    for i := 0 to |cfg.whitelist|
      invariant forall k :: 0 <= k < i ==> !cfg.matches(cfg.whitelist[k], address)
    {
      if cfg.matches(cfg.whitelist[i], address) {
        return true;
      }
    }
    return false;
  }

  method BlockTime(cfg: Config) returns (seconds: int)
    ensures if cfg.delayMax > cfg.delayMin then cfg.blockTime + cfg.delayMin <= seconds <= cfg.blockTime + cfg.delayMax
            else seconds == cfg.blockTime
    ensures DelayOk(cfg, seconds - cfg.blockTime)
  {
    var delay := RandomInt(cfg.delayMin, cfg.delayMax);
    seconds := cfg.blockTime + delay;
  }

  /** A blocked record is not asked whether it has expired. */
  method IsRemovable(status: Status, clock: Clock) returns (remove: bool, ghost at: Reads)
    modifies clock
    ensures old(clock.now) <= at.blocked <= at.expired == clock.now
    ensures remove <==> Removable(status.Value(), at)
  {
    var blocked := status.IsBlocked(clock);
    ghost var first := clock.now;
    remove := false;
    if !blocked {
      remove := status.IsExpired(clock);
    }
    at := Reads(first, clock.now);
  }

  ghost predicate ReadBetween(sweep: map<Addr, Reads>, from: int, to: int) {
    forall a :: a in sweep ==> from <= sweep[a].blocked <= sweep[a].expired <= to
  }

  /** `table` is what a history that can happen, and that ended at `now` or before, leaves behind. */
  ghost predicate IsFold(cfg: Config, log: seq<Event>, table: Table, now: int) {
    && Genuine(cfg, log) && table == State(cfg, log)
    && (log != [] ==> log[|log| - 1].stamped <= now)
  }

  /** The sweep has checked all records of `table` but those in `todo`, and `keys` are those that remain. */
  ghost predicate Sweeping(table: Table, keys: set<Addr>, todo: set<Addr>, sweep: map<Addr, Reads>,
                           from: int, now: int) {
    && todo <= keys && sweep.Keys == table.Keys - todo
    && keys == Swept(table, sweep).Keys
    && from <= now && ReadBetween(sweep, from, now)
  }

  lemma TestedOneMore(table: Table, keys: set<Addr>, todo: set<Addr>, sweep: map<Addr, Reads>, from: int, before: int,
                      a: Addr, at: Reads, now: int)
    requires Sweeping(table, keys, todo, sweep, from, before) && a in todo
    requires before <= at.blocked <= at.expired <= now
    ensures a in table
    ensures Sweeping(table, if Removable(table[a], at) then keys - {a} else keys, todo - {a}, sweep[a := at], from, now)
  {
    assert a in Swept(table, sweep);
  }

  /** What counting a failure did to one record, and the block it decided. */
  ghost predicate CountedAs(cfg: Config, before: Record, after: Record, reset: int, checked: int, stamped: int,
                            decision: Option<int>) {
    var r := Counted(before, reset);
    && (decision.Some? <==> StartsBlock(cfg, r, checked))
    && (decision.Some? ==> DelayOk(cfg, decision.value - cfg.blockTime))
    && after == match decision
                case None => r
                case Some(b) => r.(blockTime := b, blockStamp := stamped)
  }

  /** The event loop after a decision: a positive duration adds one task and arms it no earlier than now. */
  ghost predicate TaskCreated(before: Io, after: Io, address: Addr, decision: Option<int>, from: real, to: real) {
    if decision.Some? && decision.value > 0 then
      exists name, now :: from <= now <= to && IsRuleName(name) &&
        after == Apply(Apply(before, Post(name, address), now), Arm(|before.tasks|, now + decision.value as real), now)
    else
      after == before
  }

  /** Counts one failure: the rule is posted and its deletion armed before the block is stamped. */
  method CountFailure(cfg: Config, status: Status, address: Addr, clock: Clock, io: Context)
    returns (ghost reset: int, ghost checked: int, ghost decision: Option<int>)
    modifies status, clock, io
    ensures old(clock.now) <= reset <= checked <= clock.now && old(io.steady) <= io.steady
    ensures CountedAs(cfg, old(status.Value()), status.Value(), reset, checked, clock.now, decision)
    ensures TaskCreated(old(io.View()), io.View(), address, decision, old(io.steady), io.steady)
  {
    status.ResetExpireTimer(clock);
    reset, checked, decision := clock.now, clock.now, None;
    var count := status.count + 1;
    status.SetCount(count);
    if status.count >= cfg.threshold {
      var blocked := status.IsBlocked(clock);
      checked := clock.now;
      if !blocked {
        var blockTime := BlockTime(cfg);
        decision := Some(blockTime);
        var name := io.CreateBlockTasks(address, blockTime);
        status.SetBlockTime(clock, blockTime);
      }
    }
  }

  /** The address is well formed and not whitelisted. */
  method IsCounted(cfg: Config, address: Addr) returns (counted: bool)
    ensures counted <==> cfg.isAddress(address) && !WhiteAddress(cfg, address)
  {
    if !cfg.isAddress(address) {
      return false;
    }
    var white := IsWhiteAddress(cfg, address);
    return !white;
  }

  /** What the handler of a failed login did to the table: nothing, or it counted one failure of the address. */
  ghost predicate Handled(cfg: Config, before: Table, after: Table, address: Addr, created: int, reset: int,
                          checked: int, stamped: int, decision: Option<int>) {
    if cfg.isAddress(address) && !WhiteAddress(cfg, address) then
      && address in after && after == before[address := after[address]]
      && CountedAs(cfg, Inserted(cfg, before, address, created)[address], after[address],
                   reset, checked, stamped, decision)
    else
      after == before && decision == None
  }

  /** An event without a sweep, handled between the readings `from` and `to`. */
  ghost predicate HandlerEvent(cfg: Config, e: Event, address: Addr, from: int, to: int) {
    && e.addr == address && e.sweep == map[] && e.start == from && e.stamped == to
    && ReadsInOrder(e) && DelayOk(cfg, e.delay)
  }

  /** For an address that is not empty, that is the step of an event without a sweep. */
  lemma StepOfHandled(cfg: Config, m: Table, m': Table, address: Addr, from: int, created: int, reset: int,
                      checked: int, to: int, decision: Option<int>)
    returns (e: Event)
    requires address != "-" && address != "" && from <= created <= reset <= checked <= to
    requires Handled(cfg, m, m', address, created, reset, checked, to, decision)
    ensures HandlerEvent(cfg, e, address, from, to)
    ensures m' == Step(cfg, m, e) && decision == Decision(cfg, m, e)
  {
    e := Event(address, from, map[], created, reset, checked, to,
               if decision.Some? then decision.value - cfg.blockTime else AnyDelay(cfg));
    assert Swept(m, e.sweep) == m;
  }

  lemma StepOfEmptyAddress(cfg: Config, m: Table, address: Addr, now: int) returns (e: Event)
    requires address == "-" || address == ""
    ensures HandlerEvent(cfg, e, address, now, now)
    ensures m == Step(cfg, m, e) && Decision(cfg, m, e) == None
  {
    e := Event(address, now, map[], now, now, now, now, AnyDelay(cfg));
    assert Swept(m, e.sweep) == m;
  }

  lemma StepAfterSweep(cfg: Config, m: Table, sweep: map<Addr, Reads>, handled: Event, start: int) returns (e: Event)
    requires HandlerEvent(cfg, handled, handled.addr, handled.start, handled.stamped)
    requires start <= handled.start && ReadBetween(sweep, start, handled.start)
    ensures e == handled.(start := start, sweep := sweep) && ReadsInOrder(e)
    ensures Step(cfg, m, e) == Step(cfg, Swept(m, sweep), handled)
    ensures Decision(cfg, m, e) == Decision(cfg, Swept(m, sweep), handled)
  {
    e := handled.(start := start, sweep := sweep);
    assert Swept(Swept(m, sweep), handled.sweep) == Swept(m, sweep);
  }

  /** The event loop after the decisions of the history from event `n` on, made one after the other. */
  ghost predicate TasksCreated(cfg: Config, log: seq<Event>, n: nat, before: Io, after: Io, from: real, to: real) {
    if |log| <= n then after == before && from <= to
    else
      var i := |log| - 1;
      exists mid, now :: now <= to && TasksCreated(cfg, log[..i], n, before, mid, from, now)
                         && TaskCreated(mid, after, log[i].addr, DecisionAt(cfg, log, i), now, to)
  }

  lemma OneMoreTask(cfg: Config, log: seq<Event>, longer: seq<Event>, n: nat, before: Io, mid: Io, after: Io,
                    from: real, now: real, to: real)
    requires n <= |log| && |longer| == |log| + 1 && log <= longer && now <= to
    requires TasksCreated(cfg, log, n, before, mid, from, now)
    requires TaskCreated(mid, after, longer[|log|].addr, DecisionAt(cfg, longer, |log|), now, to)
    ensures TasksCreated(cfg, longer, n, before, after, from, to)
  {
    assert longer[..|log|] == log;
  }

  function TaskAddresses(tasks: seq<Task>): seq<Addr> {
    seq(|tasks|, i requires 0 <= i < |tasks| => tasks[i].addr)
  }

  lemma TaskOfDecision(before: Io, after: Io, address: Addr, decision: Option<int>, from: real, to: real)
    requires TaskCreated(before, after, address, decision, from, to)
    ensures TaskAddresses(after.tasks) ==
            TaskAddresses(before.tasks) + if decision.Some? && decision.value > 0 then [address] else []
    ensures after.firewall == before.firewall
  {
  }

  /** Of these tasks there is one for each decision with a positive duration, for its address, in order. */
  lemma {:induction false} TasksOfDecisions(cfg: Config, log: seq<Event>, n: nat, before: Io, after: Io,
                                            from: real, to: real)
    requires TasksCreated(cfg, log, n, before, after, from, to)
    ensures TaskAddresses(after.tasks) == TaskAddresses(before.tasks) + StartedSince(cfg, log, n)
    ensures from <= to && after.firewall == before.firewall
    decreases |log|
  {
    if |log| > n {
      var i := |log| - 1;
      var mid, now :| now <= to && TasksCreated(cfg, log[..i], n, before, mid, from, now)
                      && TaskCreated(mid, after, log[i].addr, DecisionAt(cfg, log, i), now, to);
      TasksOfDecisions(cfg, log[..i], n, before, mid, from, now);
      TaskOfDecision(mid, after, log[i].addr, DecisionAt(cfg, log, i), now, to);
    }
  }

  /** The handler of a successful login that the policy blocks; it keeps no record of the address. */
  method BlockRemoteAddressesWhenLoginSucceed(cfg: Config, address: Addr, io: Context)
    returns (ghost decision: Option<int>)
    modifies io
    ensures decision.Some? <==> cfg.isAddress(address) && !WhiteAddress(cfg, address)
    ensures decision.Some? ==> DelayOk(cfg, decision.value - cfg.blockTime)
    ensures TaskCreated(old(io.View()), io.View(), address, decision, old(io.steady), io.steady)
  {
    decision := None;
    var counted := IsCounted(cfg, address);
    if counted {
      var blockTime := BlockTime(cfg);
      decision := Some(blockTime);
      var name := io.CreateBlockTasks(address, blockTime);
    }
  }

  lemma LogGrows(cfg: Config, log: seq<Event>, table: Table, e: Event)
    requires ReadsInOrder(e) && DelayOk(cfg, e.delay)
    requires IsFold(cfg, log, table, e.start) && table.Keys <= e.sweep.Keys
    ensures IsFold(cfg, log + [e], Step(cfg, table, e), e.stamped)
    ensures DecisionAt(cfg, log + [e], |log|) == Decision(cfg, table, e)
  {
    GenuineAppend(cfg, log, e);
    StateAppend(cfg, log, e);
    assert (log + [e])[..|log|] == log;
  }

  lemma OneMoreAddress(log: seq<Event>, longer: seq<Event>, first: seq<Event>, popped: seq<Addr>, i: nat)
    requires i < |popped| && Addresses(log) == Addresses(first) + popped[..i]
    requires |longer| == |log| + 1 && log <= longer && longer[|log|].addr == popped[i]
    ensures Addresses(longer) == Addresses(first) + popped[..i + 1]
  {
    assert longer == log + [longer[|log|]];
    AddressesAppend(log, longer[|log|]);
    assert popped[..i + 1] == popped[..i] + [popped[i]];
  }

  class Thread {
    const cfg: Config
    const clock: Clock
    const io: Context
    var records: map<Addr, Status>
    ghost var log: seq<Event>

    ghost function Footprint(): set<object>
      reads this
    {
      set a | a in records :: records[a]
    }

    /** Records of different addresses share nothing. */
    ghost predicate Separate()
      reads this, Footprint()
    {
      forall a, b :: a in records && b in records && a != b ==> records[a] != records[b]
    }

    ghost function Table(): FailBan.Table
      reads this, Footprint()
    {
      map a | a in records :: records[a].Value()
    }

    /** Between events, the table is the fold of a history that can happen. */
    ghost predicate Valid()
      reads this, Footprint(), clock
    {
      Separate() && IsFold(cfg, log, Table(), clock.now)
    }

    constructor (cfg: Config, clock: Clock, io: Context)
      ensures Valid() && records == map[] && log == []
      ensures this.cfg == cfg && this.clock == clock && this.io == io
    {
      this.cfg, this.clock, this.io := cfg, clock, io;
      records := map[];
      log := [];
    }

    twostate lemma SweptTable(sweep: map<Addr, Reads>)
      requires records.Keys == Swept(old(Table()), sweep).Keys
      requires forall a :: a in records ==>
        a in old(records) && records[a] == old(records)[a] && records[a].Value() == old(records[a].Value())
      ensures Table() == Swept(old(Table()), sweep)
    {
    }

    /** The records may be checked in any order, each at its own readings of the clock. */
    method DeleteExpireRemoteAddress() returns (ghost sweep: map<Addr, Reads>)
      modifies this`records, clock
      ensures Sweeping(old(Table()), records.Keys, {}, sweep, old(clock.now), clock.now)
      ensures forall a :: a in records ==> a in old(records) && records[a] == old(records)[a]
      ensures Table() == Swept(old(Table()), sweep)
    {
      var todo := records.Keys;
      ghost var all, table := records, Table();
      sweep := map[];
      while todo != {}
        invariant Sweeping(table, records.Keys, todo, sweep, old(clock.now), clock.now)
        invariant forall a :: a in records ==> a in all && records[a] == all[a]
      {
        var a :| a in todo;
        ghost var before := clock.now;
        var remove, at := IsRemovable(records[a], clock);
        TestedOneMore(table, records.Keys, todo, sweep, old(clock.now), before, a, at, clock.now);
        todo, sweep := todo - {a}, sweep[a := at];
        if remove {
          records := records - {a};
        }
      }
      SweptTable(sweep);
    }

    /** The record of the address, made anew if there is none; nothing else in the table changes. */
    method FindOrInsert(address: Addr) returns (status: Status, ghost created: int)
      requires Separate()
      modifies this`records, clock
      ensures Separate() && address in records && records[address] == status
      ensures old(clock.now) <= created <= clock.now
      ensures address in old(records) ==> records == old(records)
      ensures address !in old(records) ==>
                && records == old(records)[address := status] && fresh(status)
                && created <= status.Value().expireStamp <= clock.now
                && status.Value() == Fresh(cfg, created).(expireStamp := status.Value().expireStamp)
    {
      created := clock.now;
      if address in records {
        status := records[address];
      } else {
        status := new Status(clock);
        created := clock.now;
        status.SetExpireTime(clock, cfg.expireTime);
        records := records[address := status];
      }
    }

    twostate lemma TableUpdated(address: Addr)
      requires address in records && records.Keys == old(records).Keys + {address}
      requires forall a :: a in old(records) && a != address ==>
        records[a] == old(records)[a] && records[a].Value() == old(records[a].Value())
      ensures Table() == old(Table())[address := records[address].Value()]
    {
    }

    method CountFailureOf(address: Addr)
      returns (ghost created: int, ghost reset: int, ghost checked: int, ghost decision: Option<int>)
      requires Separate()
      modifies this`records, Footprint(), clock, io
      ensures Separate() && fresh(Footprint() - old(Footprint())) && address in records
      ensures old(clock.now) <= created <= reset <= checked <= clock.now && old(io.steady) <= io.steady
      ensures Table() == old(Table())[address := Table()[address]]
      ensures CountedAs(cfg, Inserted(cfg, old(Table()), address, created)[address], Table()[address],
                        reset, checked, clock.now, decision)
      ensures TaskCreated(old(io.View()), io.View(), address, decision, old(io.steady), io.steady)
    {
      var status;
      status, created := FindOrInsert(address);
      reset, checked, decision := CountFailure(cfg, status, address, clock, io);
      TableUpdated(address);
    }

    /** The handler of one failed login; what the address is decides whether it is counted. */
    method BlockRemoteAddressesWhenLoginFailed(address: Addr)
      returns (ghost created: int, ghost reset: int, ghost checked: int, ghost decision: Option<int>)
      requires Separate()
      modifies this`records, Footprint(), clock, io
      ensures Separate() && fresh(Footprint() - old(Footprint()))
      ensures old(clock.now) <= created <= reset <= checked <= clock.now && old(io.steady) <= io.steady
      ensures Handled(cfg, old(Table()), Table(), address, created, reset, checked, clock.now, decision)
      ensures TaskCreated(old(io.View()), io.View(), address, decision, old(io.steady), io.steady)
    {
      created, reset, checked, decision := clock.now, clock.now, clock.now, None;
      var counted := IsCounted(cfg, address);
      if counted {
        created, reset, checked, decision := CountFailureOf(address);
      }
    }

    /** Sweep first, whatever the event, then handle it. */
    method SweepAndHandle(address: Addr) returns (ghost e: Event)
      requires Separate()
      modifies this`records, Footprint(), clock, io
      ensures Separate() && fresh(Footprint() - old(Footprint()))
      ensures e.addr == address && ReadsInOrder(e) && DelayOk(cfg, e.delay) && e.sweep.Keys == old(records).Keys
      ensures e.start == old(clock.now) && e.stamped == clock.now && old(io.steady) <= io.steady
      ensures Table() == Step(cfg, old(Table()), e)
      ensures TaskCreated(old(io.View()), io.View(), address, Decision(cfg, old(Table()), e), old(io.steady), io.steady)
    {
      ghost var table, start := Table(), clock.now;
      var sweep := DeleteExpireRemoteAddress();
      ghost var swept, now := Table(), clock.now;
      ghost var handled;
      if address == "-" || address == "" {
        handled := StepOfEmptyAddress(cfg, swept, address, now);
      } else {
        var created, reset, checked, decision := BlockRemoteAddressesWhenLoginFailed(address);
        handled := StepOfHandled(cfg, swept, Table(), address, now, created, reset, checked, clock.now, decision);
      }
      e := StepAfterSweep(cfg, table, sweep, handled, start);
    }

    /** The history gets the event that has just been handled. */
    ghost method Record(table: FailBan.Table, e: Event)
      requires Separate() && ReadsInOrder(e) && DelayOk(cfg, e.delay) && e.stamped == clock.now
      requires IsFold(cfg, log, table, e.start) && table.Keys <= e.sweep.Keys && Table() == Step(cfg, table, e)
      modifies this`log
      ensures Valid() && log == old(log) + [e]
      ensures DecisionAt(cfg, log, |old(log)|) == Decision(cfg, table, e)
    {
      LogGrows(cfg, log, table, e);
      log := log + [e];
    }

    /** One turn of the event loop. */
    method ProcessAuthFailedEvent(address: Addr)
      requires Valid()
      modifies this, Footprint(), clock, io
      ensures Valid() && fresh(Footprint() - old(Footprint()))
      ensures old(clock.now) <= clock.now && old(io.steady) <= io.steady
      ensures |log| == |old(log)| + 1 && old(log) <= log && log[|old(log)|].addr == address
      ensures TaskCreated(old(io.View()), io.View(), address, DecisionAt(cfg, log, |old(log)|),
                          old(io.steady), io.steady)
    {
      ghost var table := Table();
      var e := SweepAndHandle(address);
      Record(table, e);
    }

    /** The event loop over the events popped so far; it never ends, so they are any finite number. */
    method ProcessAuthFailedEvents(popped: seq<Addr>)
      requires Valid()
      modifies this, Footprint(), clock, io
      ensures Valid() && old(log) <= log && Addresses(log) == Addresses(old(log)) + popped
      ensures old(clock.now) <= clock.now && old(io.steady) <= io.steady
      ensures TasksCreated(cfg, log, |old(log)|, old(io.View()), io.View(), old(io.steady), io.steady)
    {
      for i := 0 to |popped|
        invariant Valid() && fresh(Footprint() - old(Footprint()))
        invariant old(log) <= log && Addresses(log) == Addresses(old(log)) + popped[..i]
        invariant old(clock.now) <= clock.now && old(io.steady) <= io.steady
        invariant TasksCreated(cfg, log, |old(log)|, old(io.View()), io.View(), old(io.steady), io.steady)
      {
        ghost var before, view, steady := log, io.View(), io.steady;
        ProcessAuthFailedEvent(popped[i]);
        OneMoreTask(cfg, before, log, |old(log)|, old(io.View()), view, io.View(), old(io.steady), steady, io.steady);
        OneMoreAddress(before, log, old(log), popped, i);
      }
    }
  }
}
