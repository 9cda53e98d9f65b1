/** Which records a failure leaves blocked, and how large the table can grow. */
module BlockTransitions {
  import opened RemoteAddressStatus
  import opened FailBan
  import opened FailureCounts

  /** Every block duration that the configuration can draw is positive. */
  ghost predicate PositiveDurations(cfg: Config) {
    forall d :: DelayOk(cfg, d) ==> cfg.blockTime + d > 0
  }

  /** The clock reading behind the last thing that the handler knows about the record. */
  function LastKnown(cfg: Config, m: Table, e: Event): int {
    if Decision(cfg, m, e).Some? then e.stamped else e.checked
  }

  /** The record of `a` went from absent or unblocked to blocked while the event was handled. */
  ghost predicate BecomesBlocked(cfg: Config, m: Table, e: Event, a: Addr) {
    && a in Step(cfg, m, e) && Blocked(Step(cfg, m, e)[a], e.stamped)
    && !(a in m && Blocked(m[a], e.checked))
  }

  lemma StepElsewhere(cfg: Config, m: Table, e: Event, a: Addr)
    requires a != e.addr || !Countable(cfg, a)
    ensures a in Step(cfg, m, e) <==> a in m && !(a in e.sweep && Removable(m[a], e.sweep[a]))
    ensures a in Step(cfg, m, e) ==> Step(cfg, m, e)[a] == m[a]
  {
  }

  /** A failure whose count reaches the threshold leaves its record blocked. */
  lemma ThresholdLeavesBlocked(cfg: Config, m: Table, e: Event)
    requires PositiveDurations(cfg) && Countable(cfg, e.addr) && m.Keys <= e.sweep.Keys && DelayOk(cfg, e.delay)
    ensures e.addr in Step(cfg, m, e)
    ensures Step(cfg, m, e)[e.addr].count >= cfg.threshold ==>
              Blocked(Step(cfg, m, e)[e.addr], LastKnown(cfg, m, e))
  {
    StepAlone(cfg, m, e);
  }

  /** A block is decided exactly when a record goes from unblocked to blocked, and it is that of the event's address. */
  lemma DecisionIsTransition(cfg: Config, m: Table, e: Event, a: Addr)
    requires PositiveDurations(cfg) && ReadsInOrder(e) && DelayOk(cfg, e.delay) && m.Keys <= e.sweep.Keys
    ensures BecomesBlocked(cfg, m, e, a) <==> a == e.addr && Decision(cfg, m, e).Some?
  {
    if a == e.addr && Countable(cfg, a) {
      StepAlone(cfg, m, e);
    } else {
      StepElsewhere(cfg, m, e, a);
    }
  }

  /** Over any history: both facts at every event, and for every address. */
  lemma BlocksOverHistory(cfg: Config, log: seq<Event>, i: nat, a: Addr)
    requires Genuine(cfg, log) && PositiveDurations(cfg) && i < |log|
    ensures BecomesBlocked(cfg, State(cfg, log[..i]), log[i], a) <==>
            a == log[i].addr && DecisionAt(cfg, log, i).Some?
    ensures
      a == log[i].addr && Countable(cfg, a) ==>
        var before, after := State(cfg, log[..i]), State(cfg, log[..i + 1]);
        && a in after
        && (after[a].count >= cfg.threshold ==> Blocked(after[a], LastKnown(cfg, before, log[i])))
  {
    GenuineAt(cfg, log, i);
    DecisionIsTransition(cfg, State(cfg, log[..i]), log[i], a);
    if a == log[i].addr && Countable(cfg, a) {
      ThresholdLeavesBlocked(cfg, State(cfg, log[..i]), log[i]);
    }
  }

  /** Event `e` is a countable failure whose handling ended at `t` or later. */
  predicate FailureSince(cfg: Config, e: Event, t: int) {
    Countable(cfg, e.addr) && e.stamped >= t
  }

  /** No block that the configuration can draw is longer than `bound`. */
  ghost predicate DurationsAtMost(cfg: Config, bound: int) {
    forall d :: DelayOk(cfg, d) ==> cfg.blockTime + d <= bound
  }

  /** Both stamps of a record were set by the handling of failures of its address, the last of them event `e`. */
  ghost predicate StampedBy(cfg: Config, r: Record, e: Event, a: Addr, bound: int) {
    && e.addr == a && Countable(cfg, a)
    && r.expireTime == cfg.expireTime && r.expireStamp <= e.stamped
    && (r.blockTime > 0 ==> r.blockStamp <= e.stamped && r.blockTime <= bound)
  }

  lemma OwnEventStamps(cfg: Config, m: Table, f: Event, e: Event, bound: int)
    requires Countable(cfg, e.addr) && ReadsInOrder(e) && m.Keys <= e.sweep.Keys
    requires DelayOk(cfg, e.delay) && DurationsAtMost(cfg, bound)
    requires e.addr in m ==> f.stamped <= e.stamped && StampedBy(cfg, m[e.addr], f, e.addr, bound)
    ensures e.addr in Step(cfg, m, e) && StampedBy(cfg, Step(cfg, m, e)[e.addr], e, e.addr, bound)
  {
    StepAlone(cfg, m, e);
  }

  lemma EarlierEndsFirst(cfg: Config, log: seq<Event>, j: nat)
    requires Genuine(cfg, log) && j < |log|
    ensures log[j].stamped <= log[|log| - 1].stamped
  {
    var last := |log| - 1;
    GenuineAt(cfg, log, last);
    if j < last {
      GenuinePrefix(cfg, log, j + 1);
      assert log[j + 1 - 1].stamped <= log[last].start;
    }
  }

  lemma {:induction false} RecordOrigin(cfg: Config, log: seq<Event>, a: Addr, bound: int) returns (k: nat)
    requires Genuine(cfg, log) && DurationsAtMost(cfg, bound) && a in State(cfg, log)
    ensures k < |log| && StampedBy(cfg, State(cfg, log)[a], log[k], a, bound)
  {
    var before, e := log[..|log| - 1], log[|log| - 1];
    var m := State(cfg, before);
    if a == e.addr && Countable(cfg, a) {
      k := |log| - 1;
      var f := e;
      if a in m {
        var j := RecordOrigin(cfg, before, a, bound);
        EarlierEndsFirst(cfg, log, j);
        f := log[j];
      }
      OwnEventStamps(cfg, m, f, e, bound);
    } else {
      StepElsewhere(cfg, m, e, a);
      k := RecordOrigin(cfg, before, a, bound);
    }
  }

  /** A record that outlives a sweep has a failure of its address in the window before it. */
  lemma SurvivorIsRecent(cfg: Config, log: seq<Event>, e: Event, a: Addr, bound: int) returns (k: nat)
    requires Genuine(cfg, log + [e]) && DurationsAtMost(cfg, bound) && cfg.expireTime > 0
    requires a in Swept(State(cfg, log), e.sweep)
    ensures k < |log| && log[k].addr == a && FailureSince(cfg, log[k], e.start - Max(cfg.expireTime, bound))
  {
    assert (log + [e])[..|log|] == log;
    k := RecordOrigin(cfg, log, a, bound);
  }

  lemma {:induction false} ImageIsNoLarger(log: seq<Event>, addrs: set<Addr>, ks: set<nat>)
    requires forall a :: a in addrs ==> exists k :: k in ks && k < |log| && log[k].addr == a
    ensures |addrs| <= |ks|
  {
    if addrs != {} {
      var a :| a in addrs;
      var k :| k in ks && k < |log| && log[k].addr == a;
      forall b | b in addrs - {a} ensures exists j :: j in ks - {k} && j < |log| && log[j].addr == b {
        var j :| j in ks && j < |log| && log[j].addr == b;
        assert j in ks - {k};
      }
      ImageIsNoLarger(log, addrs - {a}, ks - {k});
    }
  }

  /** Right after a sweep the table is no larger than the number of countable failures in the window before it. */
  lemma TableIsBounded(cfg: Config, log: seq<Event>, e: Event, bound: int)
    requires Genuine(cfg, log + [e]) && DurationsAtMost(cfg, bound) && cfg.expireTime > 0
    ensures
      var since := e.start - Max(cfg.expireTime, bound);
      |Swept(State(cfg, log), e.sweep)| <= |set k | 0 <= k < |log| && FailureSince(cfg, log[k], since)|
  {
    var ks: set<nat> := set k | 0 <= k < |log| && FailureSince(cfg, log[k], e.start - Max(cfg.expireTime, bound));
    var swept := Swept(State(cfg, log), e.sweep);
    forall a | a in swept.Keys ensures exists k :: k in ks && k < |log| && log[k].addr == a {
      var k := SurvivorIsRecent(cfg, log, e, a, bound);
      assert k in ks;
    }
    ImageIsNoLarger(log, swept.Keys, ks);
  }
}
