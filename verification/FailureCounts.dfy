/** What a record's count means, when the first block of its lifetime comes, and what a block does to it. */
module FailureCounts {
  import opened Wrappers
  import opened RemoteAddressStatus
  import opened FailBan
  import opened Projection

  predicate OwnEvents(es: seq<Event>, a: Addr) {
    forall k :: 0 <= k < |es| ==> es[k].addr == a && a in es[k].sweep
  }

  /** A genuine run of countable failures of one address. */
  ghost predicate AloneRun(cfg: Config, es: seq<Event>, a: Addr) {
    Genuine(cfg, es) && Countable(cfg, a) && OwnEvents(es, a)
  }

  /** The duration and the stamp of the last block that the run started. */
  function LastBlock(cfg: Config, es: seq<Event>): Option<(int, int)> {
    if es == [] then None
    else
      match DecisionAt(cfg, es, |es| - 1)
      case Some(b) => Some((b, es[|es| - 1].stamped))
      case None => LastBlock(cfg, es[..|es| - 1])
  }

  predicate StillBlocked(cfg: Config, es: seq<Event>, t: int) {
    match LastBlock(cfg, es)
    case Some((b, stamp)) => b > 0 && t <= stamp + b
    case None => false
  }

  /** Failure `k` came within the expiry time of the one before it, or while the address was still blocked. */
  predicate Linked(cfg: Config, es: seq<Event>, k: nat)
    requires 0 < k < |es| && es[k].addr in es[k].sweep
  {
    var at := es[k].sweep[es[k].addr];
    || cfg.expireTime <= 0
    || at.expired <= es[k - 1].reset + cfg.expireTime
    || StillBlocked(cfg, es[..k], at.blocked)
  }

  lemma AloneRunPrefix(cfg: Config, es: seq<Event>, a: Addr, n: nat)
    requires AloneRun(cfg, es, a) && n <= |es|
    ensures AloneRun(cfg, es[..n], a)
  {
    GenuinePrefix(cfg, es, n);
  }

  /** The record after the last failure of a run, in terms of the failures before it. */
  ghost predicate Tracks(cfg: Config, es: seq<Event>, a: Addr, r: Record)
    requires es != []
  {
    && r.expireTime == cfg.expireTime
    && r.expireStamp == es[|es| - 1].reset
    && (forall t :: t >= es[|es| - 1].stamped ==> (Blocked(r, t) <==> StillBlocked(cfg, es, t)))
  }

  /** What handling a failure does to a record that is kept (`old` is it) or made anew. */
  lemma StepAlone(cfg: Config, m: Table, e: Event)
    requires Countable(cfg, e.addr) && (e.addr in m ==> e.addr in e.sweep)
    ensures e.addr in Step(cfg, m, e)
    ensures
      var kept := e.addr in m && !Removable(m[e.addr], e.sweep[e.addr]);
      var c := Counted(if kept then m[e.addr] else Fresh(cfg, e.created), e.reset);
      && CountedRecord(cfg, m, e) == c
      && Step(cfg, m, e)[e.addr] ==
         match Decision(cfg, m, e)
         case None => c
         case Some(b) => c.(blockTime := b, blockStamp := e.stamped)
  {
  }

  lemma LastBlockAppend(cfg: Config, es: seq<Event>, e: Event)
    ensures LastBlock(cfg, es + [e]) ==
            match Decision(cfg, State(cfg, es), e)
            case Some(b) => Some((b, e.stamped))
            case None => LastBlock(cfg, es)
  {
    assert (es + [e])[..|es|] == es;
  }

  lemma TracksStep(cfg: Config, before: seq<Event>, a: Addr, e: Event)
    requires AloneRun(cfg, before + [e], a)
    requires before != [] ==> a in State(cfg, before) && Tracks(cfg, before, a, State(cfg, before)[a])
    ensures
      var es := before + [e];
      && a in State(cfg, es)
      && Tracks(cfg, es, a, State(cfg, es)[a])
      && State(cfg, es)[a].count ==
         if before != [] && Linked(cfg, es, |es| - 1) then State(cfg, before)[a].count + 1 else 1
  {
    var es, m := before + [e], State(cfg, before);
    GenuineAt(cfg, es, |before|);
    assert es[..|before|] == before && es[|before|] == e;
    StateAppend(cfg, before, e);
    StepAlone(cfg, m, e);
    LastBlockAppend(cfg, before, e);
    if before == [] {
      assert a !in m;
    } else {
      assert es[|before| - 1] == before[|before| - 1];
      assert Blocked(m[a], e.sweep[a].blocked) <==> StillBlocked(cfg, before, e.sweep[a].blocked);
      assert Removable(m[a], e.sweep[a]) <==> !Linked(cfg, es, |before|);
    }
    var r := State(cfg, es)[a];
    forall t | t >= e.stamped ensures Blocked(r, t) <==> StillBlocked(cfg, es, t) {
      if Decision(cfg, m, e).None? && before != [] {
        assert Blocked(m[a], t) <==> StillBlocked(cfg, before, t);
      }
    }
  }

  /** The count that the table holds for `a`; 0 when it holds none. */
  function CountAt(m: Table, a: Addr): int {
    if a in m then m[a].count else 0
  }

  lemma {:induction false} RecordTracksRun(cfg: Config, es: seq<Event>, a: Addr)
    requires AloneRun(cfg, es, a) && es != []
    ensures a in State(cfg, es) && Tracks(cfg, es, a, State(cfg, es)[a])
    ensures CountAt(State(cfg, es), a) ==
            if |es| > 1 && Linked(cfg, es, |es| - 1) then CountAt(State(cfg, es[..|es| - 1]), a) + 1 else 1
  {
    var before, e := es[..|es| - 1], es[|es| - 1];
    assert es == before + [e];
    if before != [] {
      AloneRunPrefix(cfg, es, a, |before|);
      RecordTracksRun(cfg, before, a);
    }
    TracksStep(cfg, before, a, e);
  }

  /** `c` is the length of the longest suffix in which every failure is linked to the one before it. */
  ghost predicate IsLongestLinkedSuffix(cfg: Config, es: seq<Event>, a: Addr, c: int)
    requires OwnEvents(es, a)
  {
    && 1 <= c <= |es|
    && (forall k :: |es| - c < k < |es| ==> Linked(cfg, es, k))
    && (c < |es| ==> !Linked(cfg, es, |es| - c))
  }

  lemma LinkedPrefix(cfg: Config, es: seq<Event>, n: nat, k: nat)
    requires 0 < k < n <= |es| && es[k].addr in es[k].sweep
    ensures Linked(cfg, es[..n], k) == Linked(cfg, es, k)
  {
    assert es[..n][..k] == es[..k];
  }

  lemma SuffixGrows(cfg: Config, es: seq<Event>, a: Addr, c: int)
    requires OwnEvents(es, a) && |es| > 1 && Linked(cfg, es, |es| - 1)
    requires OwnEvents(es[..|es| - 1], a) && IsLongestLinkedSuffix(cfg, es[..|es| - 1], a, c)
    ensures IsLongestLinkedSuffix(cfg, es, a, c + 1)
  {
    var n := |es| - 1;
    forall k | |es| - (c + 1) < k < |es| ensures Linked(cfg, es, k) {
      if k < n {
        assert Linked(cfg, es[..n], k);
        LinkedPrefix(cfg, es, n, k);
      }
    }
    if c < n {
      LinkedPrefix(cfg, es, n, n - c);
    }
  }

  lemma {:induction false} CountIsSuffixLength(cfg: Config, es: seq<Event>, a: Addr)
    requires AloneRun(cfg, es, a) && es != []
    ensures IsLongestLinkedSuffix(cfg, es, a, CountAt(State(cfg, es), a))
  {
    RecordTracksRun(cfg, es, a);
    if |es| > 1 && Linked(cfg, es, |es| - 1) {
      var n := |es| - 1;
      AloneRunPrefix(cfg, es, a, n);
      CountIsSuffixLength(cfg, es[..n], a);
      SuffixGrows(cfg, es, a, CountAt(State(cfg, es[..n]), a));
    }
  }

  lemma {:induction false} OnlyOwnEvents(log: seq<Event>, a: Addr)
    ensures OwnEvents(Project(log, a), a)
  {
    if log != [] {
      OnlyOwnEvents(log[..|log| - 1], a);
    }
  }

  lemma {:induction false} ProjectIsAlone(cfg: Config, log: seq<Event>, a: Addr)
    requires Genuine(cfg, log) && Countable(cfg, a)
    ensures AloneRun(cfg, Project(log, a), a)
    ensures log != [] && log[|log| - 1].addr == a ==> Project(log, a) != []
  {
    AloneIsGenuine(cfg, log, a);
    OnlyOwnEvents(log, a);
  }

  /**
   * After a failure of `a` in any history, the count of `a` is the length of the longest suffix of
   * its countable failures in which each came within the expiry time of its predecessor or during
   * a block; all of them when records do not expire.
   */
  lemma CountCharacterisation(cfg: Config, log: seq<Event>, a: Addr)
    requires Genuine(cfg, log) && Countable(cfg, a) && log != [] && log[|log| - 1].addr == a
    ensures AloneRun(cfg, Project(log, a), a)
    ensures a in State(cfg, log)
    ensures IsLongestLinkedSuffix(cfg, Project(log, a), a, State(cfg, log)[a].count)
    ensures cfg.expireTime <= 0 ==> State(cfg, log)[a].count == |Project(log, a)|
  {
    ProjectIsAlone(cfg, log, a);
    OwnRecordIsExact(cfg, log, a);
    CountIsSuffixLength(cfg, Project(log, a), a);
  }

  /** No block was decided in the last `c` failures but possibly the last one. */
  ghost predicate NoEarlierBlock(cfg: Config, es: seq<Event>, c: int) {
    forall k :: |es| - c <= k < |es| - 1 && 0 <= k ==> DecisionAt(cfg, es, k).None?
  }

  lemma DecisionPrefix(cfg: Config, es: seq<Event>, n: nat, k: nat)
    requires k < n <= |es|
    ensures DecisionAt(cfg, es[..n], k) == DecisionAt(cfg, es, k)
  {
    assert es[..n][..k] == es[..k];
  }

  /** A lifetime without an earlier block was one before its last failure too; the failure before started none. */
  lemma LifetimeBefore(cfg: Config, es: seq<Event>, a: Addr)
    requires AloneRun(cfg, es, a) && |es| > 1 && Linked(cfg, es, |es| - 1)
    requires NoEarlierBlock(cfg, es, CountAt(State(cfg, es), a))
    ensures
      var before, c := es[..|es| - 1], CountAt(State(cfg, es), a);
      && AloneRun(cfg, before, a)
      && 1 <= CountAt(State(cfg, before), a) == c - 1
      && NoEarlierBlock(cfg, before, c - 1)
      && DecisionAt(cfg, before, |before| - 1).None?
  {
    var n := |es| - 1;
    AloneRunPrefix(cfg, es, a, n);
    RecordTracksRun(cfg, es, a);
    CountIsSuffixLength(cfg, es[..n], a);
    forall k | 0 <= k < n ensures DecisionAt(cfg, es[..n], k) == DecisionAt(cfg, es, k) {
      DecisionPrefix(cfg, es, n, k);
    }
    assert DecisionAt(cfg, es, n - 1).None?;
  }

  /** An unlinked failure starts a new record. */
  lemma FreshUnlessLinked(cfg: Config, before: seq<Event>, a: Addr, e: Event)
    requires AloneRun(cfg, before + [e], a)
    requires before != [] ==> !Linked(cfg, before + [e], |before|)
    ensures a in State(cfg, before) ==> Removable(State(cfg, before)[a], e.sweep[a])
  {
    var es := before + [e];
    GenuineAt(cfg, es, |before|);
    assert es[..|before|] == before && es[|before|] == e;
    if before != [] {
      AloneRunPrefix(cfg, es, a, |before|);
      RecordTracksRun(cfg, before, a);
      assert es[|before| - 1] == before[|before| - 1];
    }
  }

  /** A record that was not blocked in its lifetime still has no block time. */
  lemma {:induction false} UnblockedLifetime(cfg: Config, es: seq<Event>, a: Addr)
    requires AloneRun(cfg, es, a) && es != []
    requires NoEarlierBlock(cfg, es, CountAt(State(cfg, es), a)) && DecisionAt(cfg, es, |es| - 1).None?
    ensures a in State(cfg, es) && State(cfg, es)[a].blockTime == 0
  {
    RecordTracksRun(cfg, es, a);
    var n := |es| - 1;
    var before, e := es[..n], es[n];
    assert es == before + [e];
    StateAppend(cfg, before, e);
    StepAlone(cfg, State(cfg, before), e);
    if n > 0 && Linked(cfg, es, n) {
      LifetimeBefore(cfg, es, a);
      RecordTracksRun(cfg, before, a);
      UnblockedLifetime(cfg, before, a);
    } else {
      FreshUnlessLinked(cfg, before, a, e);
    }
  }

  function Max(x: int, y: int): int {
    if x > y then x else y
  }

  /** How many failures the first block of a lifetime takes. */
  function Needed(cfg: Config): int {
    Max(cfg.threshold, 1)
  }

  /** In a lifetime without an earlier block the count alone decides. */
  lemma CountDecides(cfg: Config, es: seq<Event>, a: Addr)
    requires AloneRun(cfg, es, a) && es != []
    requires NoEarlierBlock(cfg, es, CountAt(State(cfg, es), a))
    ensures DecisionAt(cfg, es, |es| - 1).Some? <==> CountAt(State(cfg, es), a) >= cfg.threshold
  {
    var n := |es| - 1;
    var before, e := es[..n], es[n];
    assert es == before + [e];
    StateAppend(cfg, before, e);
    StepAlone(cfg, State(cfg, before), e);
    if n > 0 && Linked(cfg, es, n) {
      LifetimeBefore(cfg, es, a);
      UnblockedLifetime(cfg, before, a);
    } else {
      FreshUnlessLinked(cfg, before, a, e);
    }
  }

  /** The first block of a lifetime is decided at its threshold-th failure, neither before nor after. */
  lemma FirstBlockAtThreshold(cfg: Config, es: seq<Event>, a: Addr)
    requires AloneRun(cfg, es, a) && es != []
    requires NoEarlierBlock(cfg, es, CountAt(State(cfg, es), a))
    ensures DecisionAt(cfg, es, |es| - 1).Some? <==> CountAt(State(cfg, es), a) >= cfg.threshold
    ensures DecisionAt(cfg, es, |es| - 1).Some? ==> CountAt(State(cfg, es), a) == Needed(cfg)
  {
    RecordTracksRun(cfg, es, a);
    CountDecides(cfg, es, a);
    if |es| > 1 && Linked(cfg, es, |es| - 1) {
      LifetimeBefore(cfg, es, a);
      CountDecides(cfg, es[..|es| - 1], a);
    }
  }

  /** The seconds that pass between the sweep and the stamp of failures `i` to `j - 1`. */
  function Lag(es: seq<Event>, a: Addr, i: nat, j: nat): int
    requires OwnEvents(es, a) && i <= j <= |es|
    decreases j
  {
    if i == j then 0 else Lag(es, a, i, j - 1) + es[j - 1].reset - es[j - 1].sweep[a].expired
  }

  /** Linked only by the expiry time, the `m + 1` failures up to `j` span at most `m` expiry times and their lag. */
  lemma {:induction false} LinkedSpan(cfg: Config, es: seq<Event>, a: Addr, j: nat, m: nat)
    requires OwnEvents(es, a) && 1 <= m <= j < |es|
    requires forall k :: j - m < k <= j ==> es[k].sweep[a].expired <= es[k - 1].reset + cfg.expireTime
    ensures es[j].sweep[a].expired - es[j - m].reset <= m * cfg.expireTime + Lag(es, a, j - m + 1, j)
    decreases m
  {
    if m > 1 {
      LinkedSpan(cfg, es, a, j - 1, m - 1);
      assert m * cfg.expireTime == (m - 1) * cfg.expireTime + cfg.expireTime;
    }
  }

  /** A record without a block time is not blocked. */
  lemma NotStillBlocked(cfg: Config, es: seq<Event>, a: Addr, t: int)
    requires AloneRun(cfg, es, a) && es != [] && es[|es| - 1].stamped <= t
    requires NoEarlierBlock(cfg, es, CountAt(State(cfg, es), a)) && DecisionAt(cfg, es, |es| - 1).None?
    ensures !StillBlocked(cfg, es, t)
  {
    UnblockedLifetime(cfg, es, a);
    RecordTracksRun(cfg, es, a);
    assert !Blocked(State(cfg, es)[a], t);
  }

  lemma LastLinkedByExpiry(cfg: Config, es: seq<Event>, a: Addr)
    requires AloneRun(cfg, es, a) && cfg.expireTime > 0 && |es| > 1 && Linked(cfg, es, |es| - 1)
    requires NoEarlierBlock(cfg, es, CountAt(State(cfg, es), a))
    ensures es[|es| - 1].sweep[a].expired <= es[|es| - 2].reset + cfg.expireTime
  {
    var n := |es| - 1;
    LifetimeBefore(cfg, es, a);
    GenuineAt(cfg, es, n);
    NotStillBlocked(cfg, es[..n], a, es[n].sweep[a].blocked);
  }

  /** In a lifetime without a block, failures are linked by the expiry time alone. */
  lemma {:induction false} LinkedByExpiry(cfg: Config, es: seq<Event>, a: Addr, k: nat)
    requires AloneRun(cfg, es, a) && cfg.expireTime > 0
    requires var c := CountAt(State(cfg, es), a); NoEarlierBlock(cfg, es, c) && |es| - c < k < |es| && 0 < k
    ensures es[k].sweep[a].expired <= es[k - 1].reset + cfg.expireTime
    decreases |es|
  {
    var n := |es| - 1;
    RecordTracksRun(cfg, es, a);
    if k < n {
      LifetimeBefore(cfg, es, a);
      LinkedByExpiry(cfg, es[..n], a, k);
    } else {
      LastLinkedByExpiry(cfg, es, a);
    }
  }

  /** Every failure after number `first` came within the expiry time of the one before it. */
  predicate LinkedByExpiryFrom(cfg: Config, es: seq<Event>, a: Addr, first: int)
    requires OwnEvents(es, a)
  {
    forall k :: first < k < |es| && 0 < k ==> es[k].sweep[a].expired <= es[k - 1].reset + cfg.expireTime
  }

  lemma LifetimeLinkedByExpiry(cfg: Config, es: seq<Event>, a: Addr)
    requires AloneRun(cfg, es, a) && es != [] && cfg.expireTime > 0
    requires NoEarlierBlock(cfg, es, CountAt(State(cfg, es), a))
    ensures LinkedByExpiryFrom(cfg, es, a, |es| - CountAt(State(cfg, es), a))
  {
    forall k | |es| - CountAt(State(cfg, es), a) < k < |es| && 0 < k
      ensures es[k].sweep[a].expired <= es[k - 1].reset + cfg.expireTime
    {
      LinkedByExpiry(cfg, es, a, k);
    }
  }

  lemma CountInRange(cfg: Config, es: seq<Event>, a: Addr)
    requires AloneRun(cfg, es, a) && es != []
    ensures 1 <= CountAt(State(cfg, es), a) <= |es|
  {
    CountIsSuffixLength(cfg, es, a);
  }

  /** The last failure of the run starts the first block of its lifetime. */
  ghost predicate FirstBlockOf(cfg: Config, es: seq<Event>, a: Addr) {
    && AloneRun(cfg, es, a) && es != []
    && NoEarlierBlock(cfg, es, CountAt(State(cfg, es), a)) && DecisionAt(cfg, es, |es| - 1).Some?
  }

  /** The seconds from the stamp of the first of the last `n` failures to the check of the last. */
  function Span(es: seq<Event>, a: Addr, n: int): int
    requires OwnEvents(es, a) && 1 <= n <= |es|
  {
    es[|es| - 1].sweep[a].expired - es[|es| - n].reset
  }

  /** The lag of the failures between the first and the last of the last `n`. */
  function MiddleLag(es: seq<Event>, a: Addr, n: int): int
    requires OwnEvents(es, a) && 1 <= n <= |es|
  {
    if n <= 2 then 0 else Lag(es, a, |es| - n + 1, |es| - 1)
  }

  lemma LastFailuresSpan(cfg: Config, es: seq<Event>, a: Addr, n: int)
    requires AloneRun(cfg, es, a) && 1 <= n <= |es|
    requires LinkedByExpiryFrom(cfg, es, a, |es| - n)
    ensures Span(es, a, n) <= (n - 1) * cfg.expireTime + MiddleLag(es, a, n)
  {
    if n > 1 {
      LinkedSpan(cfg, es, a, |es| - 1, n - 1);
    } else {
      GenuineAt(cfg, es, |es| - 1);
      assert (n - 1) * cfg.expireTime == 0;
    }
  }

  /**
   * No premature block: the first block of a lifetime comes at its threshold-th failure, and those
   * failures fall within `threshold - 1` expiry times, plus the lag of those in the middle.
   */
  lemma NoPrematureBlock(cfg: Config, es: seq<Event>, a: Addr)
    requires FirstBlockOf(cfg, es, a) && cfg.expireTime > 0
    ensures CountAt(State(cfg, es), a) == Needed(cfg) <= |es|
    ensures Span(es, a, Needed(cfg)) <= (Needed(cfg) - 1) * cfg.expireTime + MiddleLag(es, a, Needed(cfg))
  {
    FirstBlockAtThreshold(cfg, es, a);
    CountInRange(cfg, es, a);
    LifetimeLinkedByExpiry(cfg, es, a);
    LastFailuresSpan(cfg, es, a, Needed(cfg));
  }

  /** Those of the last `n` failures that have one on either side were stamped in the second of their check. */
  predicate Prompt(es: seq<Event>, a: Addr, n: int)
    requires OwnEvents(es, a) && 1 <= n <= |es|
  {
    forall k :: |es| - n < k < |es| - 1 ==> es[k].reset == es[k].sweep[a].expired
  }

  lemma {:induction false} PromptMeansNoLag(es: seq<Event>, a: Addr, i: nat, j: nat)
    requires OwnEvents(es, a) && i <= j <= |es|
    requires forall k :: i <= k < j ==> es[k].reset == es[k].sweep[a].expired
    ensures Lag(es, a, i, j) == 0
    decreases j
  {
    if i < j {
      PromptMeansNoLag(es, a, i, j - 1);
    }
  }

  /** When the failures in the middle are stamped as they are checked, the lag is gone from the bound. */
  lemma NoPrematureBlockIfPrompt(cfg: Config, es: seq<Event>, a: Addr)
    requires FirstBlockOf(cfg, es, a) && cfg.expireTime > 0
    requires Needed(cfg) <= |es| ==> Prompt(es, a, Needed(cfg))
    ensures Needed(cfg) <= |es| && Span(es, a, Needed(cfg)) <= (Needed(cfg) - 1) * cfg.expireTime
  {
    NoPrematureBlock(cfg, es, a);
    if Needed(cfg) > 2 {
      PromptMeansNoLag(es, a, |es| - Needed(cfg) + 1, |es| - 1);
    }
  }

  lemma AloneRunGrows(cfg: Config, es: seq<Event>, e: Event)
    requires Countable(cfg, e.addr) && Genuine(cfg, es) && OwnEvents(es, e.addr) && State(cfg, es).Keys <= {e.addr}
    requires ReadsInOrder(e) && DelayOk(cfg, e.delay) && e.addr in e.sweep
    requires es != [] ==> LastReading(es) <= e.start
    ensures AloneRun(cfg, es + [e], e.addr) && State(cfg, es + [e]).Keys <= {e.addr}
    ensures es != [] ==> (Linked(cfg, es + [e], |es|) <==>
                            || cfg.expireTime <= 0
                            || e.sweep[e.addr].expired <= es[|es| - 1].reset + cfg.expireTime
                            || StillBlocked(cfg, es, e.sweep[e.addr].blocked))
    ensures es == [] || Linked(cfg, es + [e], |es|) ==>
      CountAt(State(cfg, es + [e]), e.addr) == CountAt(State(cfg, es), e.addr) + 1
  {
    AloneGrows(cfg, es, e);
    RecordTracksRun(cfg, es + [e], e.addr);
    assert (es + [e])[..|es|] == es;
    assert Alone(e) == e;
  }

  /** As far apart as two failures can be and still be linked; without an expiry time, any distance would do. */
  function Gap(cfg: Config): int {
    if cfg.expireTime > 0 then cfg.expireTime else 1
  }

  /** A failure popped and checked at `t`, and stamped `lag` seconds later. */
  function FailureAt(cfg: Config, a: Addr, t: int, lag: nat): Event {
    Event(a, t, map[a := Reads(t, t)], t, t + lag, t + lag, t + lag, AnyDelay(cfg))
  }

  /** Failure `k` of the slowest run is checked one gap after the one before it was stamped. */
  function CheckedAt(cfg: Config, k: nat, lag: nat): int {
    if k == 0 then 0 else CheckedAt(cfg, k - 1, lag) + Gap(cfg) + if k == 2 then lag else 0
  }

  /** `n` failures as slow as linked ones can be; the second is stamped late by `lag`, the others at once. */
  function SlowestRun(cfg: Config, a: Addr, n: nat, lag: nat): seq<Event> {
    if n == 0 then []
    else SlowestRun(cfg, a, n - 1, lag) + [FailureAt(cfg, a, CheckedAt(cfg, n - 1, lag), if n == 2 then lag else 0)]
  }

  lemma {:induction false} SlowestRunAt(cfg: Config, a: Addr, n: nat, lag: nat)
    ensures |SlowestRun(cfg, a, n, lag)| == n && OwnEvents(SlowestRun(cfg, a, n, lag), a)
    ensures forall k :: 0 <= k < n ==>
      SlowestRun(cfg, a, n, lag)[k] == FailureAt(cfg, a, CheckedAt(cfg, k, lag), if k == 1 then lag else 0)
  {
    if n > 0 {
      SlowestRunAt(cfg, a, n - 1, lag);
    }
  }

  lemma {:induction false} CheckedAtGaps(cfg: Config, k: nat, lag: nat)
    ensures CheckedAt(cfg, k, lag) == k * Gap(cfg) + if k >= 2 then lag else 0
  {
    if k > 0 {
      CheckedAtGaps(cfg, k - 1, lag);
      assert k * Gap(cfg) == (k - 1) * Gap(cfg) + Gap(cfg);
    }
  }

  ghost predicate CountsUnblocked(cfg: Config, es: seq<Event>, a: Addr) {
    && AloneRun(cfg, es, a) && State(cfg, es).Keys <= {a} && CountAt(State(cfg, es), a) == |es|
    && forall k :: 0 <= k < |es| - 1 ==> DecisionAt(cfg, es, k).None?
  }

  lemma NoBlockBelowThreshold(cfg: Config, es: seq<Event>, e: Event, a: Addr)
    requires CountsUnblocked(cfg, es, a) && |es| < cfg.threshold
    ensures forall k :: 0 <= k < |es| ==> DecisionAt(cfg, es + [e], k).None?
  {
    if es != [] {
      CountDecides(cfg, es, a);
    }
    assert (es + [e])[..|es|] == es;
    forall k | 0 <= k < |es| ensures DecisionAt(cfg, es + [e], k).None? {
      DecisionPrefix(cfg, es + [e], |es|, k);
    }
  }

  /** One more failure within the gap is counted; the run before it was below the threshold. */
  lemma OneMoreCounts(cfg: Config, es: seq<Event>, a: Addr, t: int, lag: nat)
    requires Countable(cfg, a) && CountsUnblocked(cfg, es, a) && |es| < Needed(cfg)
    requires es != [] ==> LastReading(es) <= t <= es[|es| - 1].reset + Gap(cfg)
    ensures CountsUnblocked(cfg, es + [FailureAt(cfg, a, t, lag)], a)
  {
    var e := FailureAt(cfg, a, t, lag);
    AloneRunGrows(cfg, es, e);
    if es != [] {
      NoBlockBelowThreshold(cfg, es, e, a);
    }
  }

  lemma NoFailuresYet(cfg: Config, a: Addr)
    requires Countable(cfg, a)
    ensures CountsUnblocked(cfg, [], a)
  {
  }

  /** Failure `n` of the slowest run is checked in time to be linked to the one before it. */
  lemma NextIsInTime(cfg: Config, a: Addr, n: nat, lag: nat)
    requires n > 0
    ensures
      var es := SlowestRun(cfg, a, n, lag);
      es != [] && LastReading(es) <= CheckedAt(cfg, n, lag) <= es[|es| - 1].reset + Gap(cfg)
  {
  }

  lemma SlowestRunLength(cfg: Config, a: Addr, n: nat, lag: nat)
    ensures |SlowestRun(cfg, a, n, lag)| == n
  {
    SlowestRunAt(cfg, a, n, lag);
  }

  /** The slowest run can happen, every failure of it is counted, and none but the last starts a block. */
  lemma {:induction false} SlowestRunCounts(cfg: Config, a: Addr, n: nat, lag: nat)
    requires Countable(cfg, a) && n <= Needed(cfg)
    ensures CountsUnblocked(cfg, SlowestRun(cfg, a, n, lag), a)
  {
    if n == 0 {
      NoFailuresYet(cfg, a);
    } else {
      var before, t := SlowestRun(cfg, a, n - 1, lag), CheckedAt(cfg, n - 1, lag);
      SlowestRunCounts(cfg, a, n - 1, lag);
      SlowestRunLength(cfg, a, n - 1, lag);
      if n > 1 {
        NextIsInTime(cfg, a, n - 1, lag);
      }
      OneMoreCounts(cfg, before, a, t, if n == 2 then lag else 0);
    }
  }

  lemma {:induction false} SlowestLag(cfg: Config, es: seq<Event>, a: Addr, lag: nat, j: nat)
    requires OwnEvents(es, a) && 2 <= j <= |es| && es == SlowestRun(cfg, a, |es|, lag)
    ensures Lag(es, a, 1, j) == lag
  {
    SlowestRunAt(cfg, a, |es|, lag);
    if j > 2 {
      SlowestLag(cfg, es, a, lag, j - 1);
    } else {
      assert Lag(es, a, 1, 1) == 0;
    }
  }

  /** The slowest run of `Needed` failures ends in a first block, one gap for each failure but the first and the lag. */
  lemma SlowestFirstBlock(cfg: Config, a: Addr, lag: nat) returns (es: seq<Event>)
    requires Countable(cfg, a)
    ensures FirstBlockOf(cfg, es, a) && |es| == Needed(cfg)
    ensures Span(es, a, Needed(cfg)) == (Needed(cfg) - 1) * Gap(cfg) + if Needed(cfg) > 2 then lag else 0
    ensures MiddleLag(es, a, Needed(cfg)) == if Needed(cfg) > 2 then lag else 0
  {
    var n := Needed(cfg);
    es := SlowestRun(cfg, a, n, lag);
    SlowestRunCounts(cfg, a, n, lag);
    SlowestRunAt(cfg, a, n, lag);
    CountDecides(cfg, es, a);
    CheckedAtGaps(cfg, n - 1, lag);
    if n > 2 {
      SlowestLag(cfg, es, a, lag, n - 1);
    }
  }

  /** The bound with the lag is exact: for every threshold above 2 and every lag, some run attains it. */
  lemma BoundIsAttained(cfg: Config, a: Addr, lag: nat) returns (es: seq<Event>)
    requires Countable(cfg, a) && cfg.threshold > 2 && cfg.expireTime > 0
    ensures FirstBlockOf(cfg, es, a) && |es| == cfg.threshold && MiddleLag(es, a, cfg.threshold) == lag
    ensures Span(es, a, cfg.threshold) == (cfg.threshold - 1) * cfg.expireTime + lag
  {
    es := SlowestFirstBlock(cfg, a, lag);
  }

  /** The failures behind a first block always fall within one expiry time for each but the first. */
  ghost predicate SimpleBound(cfg: Config, a: Addr) {
    forall es :: FirstBlockOf(cfg, es, a) ==>
      Needed(cfg) <= |es| && Span(es, a, Needed(cfg)) <= (Needed(cfg) - 1) * cfg.expireTime
  }

  lemma FirstBlockSpan(cfg: Config, es: seq<Event>, a: Addr)
    requires FirstBlockOf(cfg, es, a)
    requires cfg.threshold <= 1 || (cfg.threshold == 2 && cfg.expireTime > 0)
    ensures Needed(cfg) <= |es| && Span(es, a, Needed(cfg)) <= (Needed(cfg) - 1) * cfg.expireTime
  {
    if cfg.threshold <= 1 {
      GenuineAt(cfg, es, |es| - 1);
    } else {
      NoPrematureBlock(cfg, es, a);
    }
  }

  lemma GapsExceed(n: int, expireTime: int)
    requires n > 0 && expireTime <= 0
    ensures n * expireTime < n
  {
  }

  /** When the simple bound holds of all runs: one failure is enough, or two are and records expire. */
  lemma SimpleBoundIff(cfg: Config, a: Addr)
    requires Countable(cfg, a)
    ensures SimpleBound(cfg, a) <==> cfg.threshold <= 1 || (cfg.threshold == 2 && cfg.expireTime > 0)
  {
    if cfg.threshold <= 1 || (cfg.threshold == 2 && cfg.expireTime > 0) {
      forall es | FirstBlockOf(cfg, es, a)
        ensures Needed(cfg) <= |es| && Span(es, a, Needed(cfg)) <= (Needed(cfg) - 1) * cfg.expireTime
      {
        FirstBlockSpan(cfg, es, a);
      }
    } else {
      var es := SlowestFirstBlock(cfg, a, 1);
      if cfg.expireTime <= 0 {
        GapsExceed(Needed(cfg) - 1, cfg.expireTime);
      }
    }
  }

  lemma {:induction false} DecisionsAreDecisionAt(cfg: Config, es: seq<Event>, a: Addr)
    requires OwnEvents(es, a)
    ensures |Decisions(cfg, es, a)| == |es|
    ensures forall k :: 0 <= k < |es| ==> Decisions(cfg, es, a)[k] == DecisionAt(cfg, es, k)
  {
    if es != [] {
      var n := |es| - 1;
      DecisionsAreDecisionAt(cfg, es[..n], a);
      forall k | 0 <= k < n ensures DecisionAt(cfg, es[..n], k) == DecisionAt(cfg, es, k) {
        DecisionPrefix(cfg, es, n, k);
      }
    }
  }

  /** Of the last `c` decisions, none but possibly the last started a block. */
  predicate NoneEarlier(ds: seq<Option<int>>, c: int) {
    forall k :: |ds| - c <= k < |ds| - 1 && 0 <= k ==> ds[k].None?
  }

  lemma NoEarlierDecision(cfg: Config, es: seq<Event>, ds: seq<Option<int>>, c: int)
    requires |ds| == |es| && forall k :: 0 <= k < |es| ==> ds[k] == DecisionAt(cfg, es, k)
    requires NoneEarlier(ds, c)
    ensures NoEarlierBlock(cfg, es, c)
  {
  }

  /** What the history shows of `a` right after a failure of `a` is what its own run shows. */
  lemma OwnHistory(cfg: Config, log: seq<Event>, a: Addr)
    requires Genuine(cfg, log) && Countable(cfg, a) && log != [] && log[|log| - 1].addr == a
    ensures AloneRun(cfg, Project(log, a), a) && Project(log, a) != [] && a in State(cfg, log)
    ensures State(cfg, log)[a].count == CountAt(State(cfg, Project(log, a)), a)
    ensures |Decisions(cfg, log, a)| == |Project(log, a)|
    ensures forall k :: 0 <= k < |Project(log, a)| ==>
      Decisions(cfg, log, a)[k] == DecisionAt(cfg, Project(log, a), k)
  {
    ProjectIsAlone(cfg, log, a);
    SweepTimingIsUnobservable(cfg, log, a);
    OwnRecordIsExact(cfg, log, a);
    DecisionsAreDecisionAt(cfg, Project(log, a), a);
  }

  /**
   * The same in a whole history with any other traffic: of the decisions for `a` since its record
   * was made, the first block is the threshold-th.
   */
  lemma FirstBlockInHistory(cfg: Config, log: seq<Event>, a: Addr)
    requires Genuine(cfg, log) && Countable(cfg, a) && log != [] && log[|log| - 1].addr == a
    requires a in State(cfg, log)
    requires NoneEarlier(Decisions(cfg, log, a), State(cfg, log)[a].count)
    ensures 1 <= State(cfg, log)[a].count <= |Decisions(cfg, log, a)| == |Project(log, a)|
    ensures
      var ds, c := Decisions(cfg, log, a), State(cfg, log)[a].count;
      && (ds[|ds| - 1].Some? <==> c >= cfg.threshold)
      && (ds[|ds| - 1].Some? ==> c == Needed(cfg))
  {
    var es := Project(log, a);
    OwnHistory(cfg, log, a);
    CountInRange(cfg, es, a);
    NoEarlierDecision(cfg, es, Decisions(cfg, log, a), CountAt(State(cfg, es), a));
    FirstBlockAtThreshold(cfg, es, a);
  }

  /** And so do the bounds on the failures behind it. */
  lemma NoPrematureBlockInHistory(cfg: Config, log: seq<Event>, a: Addr)
    requires Genuine(cfg, log) && Countable(cfg, a) && log != [] && log[|log| - 1].addr == a && cfg.expireTime > 0
    requires a in State(cfg, log) && NoneEarlier(Decisions(cfg, log, a), State(cfg, log)[a].count)
    requires DecisionAt(cfg, log, |log| - 1).Some?
    ensures
      var es, n := Project(log, a), Needed(cfg);
      && State(cfg, log)[a].count == n <= |es| && OwnEvents(es, a)
      && Span(es, a, n) <= (n - 1) * cfg.expireTime + MiddleLag(es, a, n)
  {
    var es := Project(log, a);
    OwnHistory(cfg, log, a);
    NoEarlierDecision(cfg, es, Decisions(cfg, log, a), CountAt(State(cfg, es), a));
    NoPrematureBlock(cfg, es, a);
  }
}
