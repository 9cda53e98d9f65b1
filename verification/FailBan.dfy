/**
 * What one failed-login event does to the table of remote addresses, as a function of the event
 * and of the clock readings taken while it is handled.
 */
module FailBan {
  import opened Wrappers
  import opened RemoteAddressStatus

  type Addr = string
  type Table = map<Addr, Record>

  /** `isAddress` and `matches` stand for the Boost address parser and regular expression search. */
  datatype Config = Config(
    threshold: int, expireTime: int,
    blockTime: int, delayMin: int, delayMax: int,
    whitelist: seq<string>, matches: (string, string) -> bool, isAddress: string -> bool)

  predicate WhiteAddress(cfg: Config, a: Addr) {
    exists k :: 0 <= k < |cfg.whitelist| && cfg.matches(cfg.whitelist[k], a)
  }

  /** A failure is counted unless its address is empty, malformed or whitelisted. */
  predicate Countable(cfg: Config, a: Addr) {
    a != "-" && a != "" && cfg.isAddress(a) && !WhiteAddress(cfg, a)
  }

  predicate DelayOk(cfg: Config, delay: int) {
    if cfg.delayMax > cfg.delayMin then cfg.delayMin <= delay <= cfg.delayMax else delay == 0
  }

  /** The two readings with which the sweep tests one record. */
  datatype Reads = Reads(blocked: int, expired: int)

  /** Some delay that can be drawn. */
  function AnyDelay(cfg: Config): int {
    if cfg.delayMax > cfg.delayMin then cfg.delayMin else 0
  }

  /**
   * One popped event: its address, the second it was popped in, the readings of the sweep, the
   * readings of the handler in program order, and the random delay drawn if a block starts.
   */
  datatype Event = Event(
    addr: Addr, start: int, sweep: map<Addr, Reads>,
    created: int, reset: int, checked: int, stamped: int, delay: int)

  predicate ReadsInOrder(e: Event) {
    && (forall a :: a in e.sweep ==> e.start <= e.sweep[a].blocked <= e.sweep[a].expired <= e.created)
    && e.start <= e.created <= e.reset <= e.checked <= e.stamped
  }

  predicate Removable(r: Record, t: Reads) {
    !Blocked(r, t.blocked) && Expired(r, t.expired)
  }

  /** The table after the records with readings in `sweep` have been checked. */
  function Swept(m: Table, sweep: map<Addr, Reads>): Table {
    map a | a in m && !(a in sweep && Removable(m[a], sweep[a])) :: m[a]
  }

  function Fresh(cfg: Config, created: int): Record {
    Record(0, cfg.expireTime, created, 0, created)
  }

  function Inserted(cfg: Config, m: Table, a: Addr, created: int): Table {
    if a in m then m else m[a := Fresh(cfg, created)]
  }

  function Counted(r: Record, reset: int): Record {
    r.(expireStamp := reset, count := r.count + 1)
  }

  predicate StartsBlock(cfg: Config, r: Record, checked: int) {
    r.count >= cfg.threshold && !Blocked(r, checked)
  }

  function Duration(cfg: Config, e: Event): int {
    cfg.blockTime + e.delay
  }

  /** The record of a countable failure's address, once counted. */
  function CountedRecord(cfg: Config, m: Table, e: Event): Record {
    Counted(Inserted(cfg, Swept(m, e.sweep), e.addr, e.created)[e.addr], e.reset)
  }

  /** The duration of the block that the event starts, if it starts one. */
  function Decision(cfg: Config, m: Table, e: Event): Option<int> {
    if Countable(cfg, e.addr) && StartsBlock(cfg, CountedRecord(cfg, m, e), e.checked)
    then Some(Duration(cfg, e))
    else None
  }

  function Step(cfg: Config, m: Table, e: Event): Table {
    var swept := Swept(m, e.sweep);
    if !Countable(cfg, e.addr) then swept
    else
      var r := CountedRecord(cfg, m, e);
      match Decision(cfg, m, e)
      case None => swept[e.addr := r]
      case Some(b) => swept[e.addr := r.(blockTime := b, blockStamp := e.stamped)]
  }

  /** The table after a whole history of events. */
  function State(cfg: Config, log: seq<Event>): Table {
    if log == [] then map[] else Step(cfg, State(cfg, log[..|log| - 1]), log[|log| - 1])
  }

  /** The decision taken at event `i` of a history. */
  function DecisionAt(cfg: Config, log: seq<Event>, i: nat): Option<int>
    requires i < |log|
  {
    Decision(cfg, State(cfg, log[..i]), log[i])
  }

  /** The addresses of the events, in order. */
  function Addresses(log: seq<Event>): seq<Addr> {
    seq(|log|, i requires 0 <= i < |log| => log[i].addr)
  }

  /** The addresses for which a rule was created at events `n` and later, in order. */
  function StartedSince(cfg: Config, log: seq<Event>, n: nat): seq<Addr> {
    if |log| <= n then []
    else
      var i := |log| - 1;
      var decision := DecisionAt(cfg, log, i);
      StartedSince(cfg, log[..i], n) + if decision.Some? && decision.value > 0 then [log[i].addr] else []
  }

  /**
   * The histories that can happen: readings never go back, each sweep tests every record, and
   * each delay is one that the configuration can draw.
   */
  ghost predicate Genuine(cfg: Config, log: seq<Event>) {
    log == [] ||
    var before, e := log[..|log| - 1], log[|log| - 1];
    && Genuine(cfg, before)
    && (before != [] ==> before[|before| - 1].stamped <= e.start)
    && ReadsInOrder(e)
    && State(cfg, before).Keys <= e.sweep.Keys
    && DelayOk(cfg, e.delay)
  }

  lemma StateAppend(cfg: Config, log: seq<Event>, e: Event)
    ensures State(cfg, log + [e]) == Step(cfg, State(cfg, log), e)
  {
    assert (log + [e])[..|log|] == log;
  }

  lemma GenuineAppend(cfg: Config, log: seq<Event>, e: Event)
    requires Genuine(cfg, log) && ReadsInOrder(e) && DelayOk(cfg, e.delay)
    requires log != [] ==> log[|log| - 1].stamped <= e.start
    requires State(cfg, log).Keys <= e.sweep.Keys
    ensures Genuine(cfg, log + [e])
  {
    assert (log + [e])[..|log|] == log;
  }

  /** Every prefix of a genuine history is genuine, and readings are ordered along the whole of it. */
  lemma {:induction false} GenuinePrefix(cfg: Config, log: seq<Event>, n: nat)
    requires Genuine(cfg, log) && n <= |log|
    ensures Genuine(cfg, log[..n])
    ensures forall k :: n <= k < |log| && 0 < n ==> log[n - 1].stamped <= log[k].start
  {
    if n < |log| {
      var before := log[..|log| - 1];
      GenuinePrefix(cfg, before, n);
      assert before[..n] == log[..n];
      if 0 < n < |before| {
        assert log[n - 1].stamped <= before[|before| - 1].start;
        GenuinePrefix(cfg, before, |before|);
        assert ReadsInOrder(before[|before| - 1]);
      }
    } else {
      assert log[..n] == log;
    }
  }

  lemma GenuineAt(cfg: Config, log: seq<Event>, i: nat)
    requires Genuine(cfg, log) && i < |log|
    ensures ReadsInOrder(log[i]) && DelayOk(cfg, log[i].delay)
    ensures State(cfg, log[..i]).Keys <= log[i].sweep.Keys
    ensures State(cfg, log[..i + 1]) == Step(cfg, State(cfg, log[..i]), log[i])
    ensures 0 < i ==> log[i - 1].stamped <= log[i].start
  {
    GenuinePrefix(cfg, log, i + 1);
    assert log[..i + 1][..i] == log[..i];
  }

  lemma AddressesAppend(log: seq<Event>, e: Event)
    ensures Addresses(log + [e]) == Addresses(log) + [e.addr]
  {
  }

  lemma StartedAppend(cfg: Config, log: seq<Event>, e: Event)
    ensures
      var decision := Decision(cfg, State(cfg, log), e);
      var started := if decision.Some? && decision.value > 0 then [e.addr] else [];
      && StartedSince(cfg, log + [e], |log|) == started
      && StartedSince(cfg, log + [e], 0) == StartedSince(cfg, log, 0) + started
  {
    assert (log + [e])[..|log|] == log;
  }
}
