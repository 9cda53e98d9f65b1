/** What holds in every run of the whole program. */
module SystemTheorems {
  import opened RemoteAddressStatus
  import opened FailBan
  import opened FailMachine
  import opened FirewallController
  import opened BlockingSystem
  import R = RuleTasks

  /** A failban rule: its address, the number of its task and the instant at which it was posted. */
  datatype Posting = Posting(addr: Addr, id: nat, at: real)

  /** The failban rules posted since the start: those whose blocks are stamped, and the one whose block is not yet. */
  function Postings(s: System): seq<Posting> {
    seq(|s.blocks|, i requires 0 <= i < |s.blocks| => Posting(s.blocks[i].addr, s.blocks[i].id, s.blocks[i].posted))
    + if s.stage.ToArm? || s.stage.Ready? then [Posting(s.fail.cur.addr, s.stage.id, s.stage.posted)] else []
  }

  /** A rule for an address is posted only strictly after every earlier rule for it is due, for any phase. */
  lemma BlocksNeverOverlap(env: Env, states: seq<System>, actions: seq<Action>, k: nat, i: nat, j: nat)
    requires IsRun(env, states, actions) && k < |states|
    requires i < j < |Postings(states[k])| && Postings(states[k])[i].addr == Postings(states[k])[j].addr
    ensures
      var s, first, second := states[k], Postings(states[k])[i], Postings(states[k])[j];
      && first.id < |s.io.tasks|
      && s.io.tasks[first.id].addr == first.addr && !s.io.tasks[first.id].delete.Unarmed?
      && s.io.tasks[first.id].due < second.at
  {
    InvOverRun(env, states, actions, k);
  }

  lemma StampedIsBlocked(env: Env, b: Block, r: Record, t: real)
    requires r.blockTime == b.duration > 0 && r.blockStamp == Wall(env, b.stamped) && !Over(b, t)
    ensures Blocked(r, Wall(env, t))
  {
  }

  /**
   * From the stamp of a block until its rule is due, the record of the address is in the table and
   * reports blocked; the rule is not deleted before it is due.
   */
  lemma BlockedUntilDue(env: Env, states: seq<System>, actions: seq<Action>, k: nat, i: nat)
    requires IsRun(env, states, actions) && k < |states| && i < |states[k].blocks|
    requires
      var b := states[k].blocks[i];
      states[k].now <= b.armed + b.duration as real
    ensures
      var s, b := states[k], states[k].blocks[i];
      && b.addr in s.fail.records && Blocked(s.fail.records[b.addr], Wall(env, s.now))
      && b.id < |s.io.tasks|
      && (forall ok :: R.Deleted(b.id, ok) in s.io.history ==> s.now == b.armed + b.duration as real)
  {
    InvOverRun(env, states, actions, k);
    var s, b := states[k], states[k].blocks[i];
    assert !Over(b, s.now);
    StampedIsBlocked(env, b, s.fail.records[b.addr], s.now);
  }

  lemma MoveKeepsCount(cfg: Config, f: Fail, move: Move, w: int, a: Addr)
    requires CanMove(cfg, f, move) && a in f.records && a in Moved(cfg, f, move, w).records
    ensures Moved(cfg, f, move, w).records[a].count >= f.records[a].count
  {
  }

  /** Block `i` is still known at `t`, and unless it is over its address still has a record, with no smaller count. */
  ghost predicate KeepsBlock(s: System, t: System, i: nat)
    requires i < |s.blocks|
  {
    var b := s.blocks[i];
    && s.now <= t.now && i < |t.blocks| && t.blocks[i] == b
    && (!Over(b, t.now) ==>
          && b.addr in s.fail.records && b.addr in t.fail.records
          && t.fail.records[b.addr].count >= s.fail.records[b.addr].count)
  }

  lemma BlockHasRecord(env: Env, s: System, i: nat)
    requires RecordsInv(env, s) && i < |s.blocks|
    ensures Over(s.blocks[i], s.now) || s.blocks[i].addr in s.fail.records
  {
  }

  lemma MoveKeepsBlock(env: Env, s: System, move: Move, i: nat)
    requires MoveEnabled(env, s, move) && i < |s.blocks|
    requires RecordsInv(env, s) && RecordsInv(env, ApplyMove(env, s, move))
    ensures KeepsBlock(s, ApplyMove(env, s, move), i)
  {
    var s', a := ApplyMove(env, s, move), s.blocks[i].addr;
    BlockHasRecord(env, s, i);
    BlockHasRecord(env, s', i);
    if a in s.fail.records && a in s'.fail.records {
      MoveKeepsCount(env.cfg, s.fail, move, Wall(env, s.now), a);
    }
  }

  lemma OtherKeepsBlock(env: Env, s: System, a: Action, i: nat)
    requires RecordsInv(env, s) && Enabled(env, s, a) && !a.Restart? && !a.FailMove? && i < |s.blocks|
    ensures KeepsBlock(s, Apply(env, s, a), i)
  {
    BlockHasRecord(env, s, i);
  }

  lemma ActionKeepsBlock(env: Env, s: System, a: Action, i: nat)
    requires Inv(env, s) && Enabled(env, s, a) && !a.Restart? && i < |s.blocks|
    ensures KeepsBlock(s, Apply(env, s, a), i)
  {
    if a.FailMove? {
      RecordsInvAfterMove(env, s, a.move);
      MoveKeepsBlock(env, s, a.move, i);
    } else {
      OtherKeepsBlock(env, s, a, i);
    }
  }

  lemma KeepsBlockTransitive(s: System, t: System, u: System, i: nat)
    requires i < |s.blocks| && KeepsBlock(s, t, i) && KeepsBlock(t, u, i)
    ensures KeepsBlock(s, u, i)
  {
  }

  /**
   * As long as a block is not over, its address keeps its record and the count in it never falls:
   * a count cannot start again while its address is blocked.
   */
  lemma {:induction false} CountOutlastsBlock(env: Env, states: seq<System>, actions: seq<Action>,
                                              k: nat, l: nat, i: nat)
    requires IsRun(env, states, actions) && k <= l < |states| && i < |states[k].blocks|
    requires forall m :: k <= m < l ==> !actions[m].Restart?
    ensures KeepsBlock(states[k], states[l], i)
    decreases l
  {
    if k == l {
      InvOverRun(env, states, actions, k);
      BlockHasRecord(env, states[k], i);
    } else {
      CountOutlastsBlock(env, states, actions, k, l - 1, i);
      InvOverRun(env, states, actions, l - 1);
      ActionKeepsBlock(env, states[l - 1], actions[l - 1], i);
      KeepsBlockTransitive(states[k], states[l - 1], states[l], i);
    }
  }

  /**
   * A record reports blocked for less than a second, and the time from arming to stamping, after
   * the rule is due: that is how long failures can be counted without a rule and without a new one.
   */
  lemma RecordOutlivesRule(env: Env, states: seq<System>, actions: seq<Action>, k: nat, a: Addr) returns (i: nat)
    requires IsRun(env, states, actions) && k < |states|
    requires a in states[k].fail.records && Blocked(states[k].fail.records[a], Wall(env, states[k].now))
    ensures i < |states[k].blocks|
    ensures
      var s, b := states[k], states[k].blocks[i];
      && b.addr == a && b.id < |s.io.tasks|
      && s.now < s.io.tasks[b.id].due + 1.0 + (b.stamped - b.armed)
  {
    InvOverRun(env, states, actions, k);
    var s := states[k];
    i :| 0 <= i < |s.blocks| && s.blocks[i].addr == a && Holds(env, s.fail.records, s.blocks[i]);
  }

  /**
   * Between events, the table of the failed-login thread is the fold of a history that can happen:
   * the delivered events but those still waiting, in order, at the times at which they were popped.
   */
  lemma ThreadRefinesFold(env: Env, states: seq<System>, actions: seq<Action>, k: nat)
    requires IsRun(env, states, actions) && k < |states| && states[k].fail.pc.Idle?
    ensures
      var s := states[k];
      && Genuine(env.cfg, s.fail.log)
      && s.fail.records == State(env.cfg, s.fail.log)
      && Addresses(s.fail.log) + s.events == s.delivered
      && BlockAddresses(s.blocks) == StartedSince(env.cfg, s.fail.log, 0)
  {
    InvOverRun(env, states, actions, k);
  }

  lemma ActionKeepsOrder(env: Env, s: System, a: Action)
    requires Inv(env, s) && R.OrderInv(s.io) && Enabled(env, s, a)
    ensures R.OrderInv(Apply(env, s, a).io)
  {
    if IsIoAction(a) {
      IoPartIsEnabled(env, s, a);
      R.OrderKeptByInv(s.io, s.base, IoPart(env, s, a), s.now);
    } else if a.Restart? {
      R.OrderInitially(a.cleaned);
    }
  }

  lemma {:induction false} OrderOverRun(env: Env, states: seq<System>, actions: seq<Action>, k: nat)
    requires IsRun(env, states, actions) && k < |states|
    ensures R.OrderInv(states[k].io)
  {
    if k == 0 {
      R.OrderInitially(states[0].base);
    } else {
      OrderOverRun(env, states, actions, k - 1);
      InvOverRun(env, states, actions, k - 1);
      ActionKeepsOrder(env, states[k - 1], actions[k - 1]);
    }
  }

  /**
   * Each rule lives once through its stages, and the firewall holds the rules that the last clean-up
   * has left and the live ones. No rule whose name does not contain the prefix is ever touched.
   */
  lemma RulesInEveryRun(env: Env, states: seq<System>, actions: seq<Action>, k: nat)
    requires IsRun(env, states, actions) && k < |states|
    ensures R.InOrder(states[k].io.history)
    ensures R.AddsInPostOrder(states[k].io.history) && R.DeletesInExpiryOrder(states[k].io.history)
    ensures states[k].io.firewall == states[k].base + R.LiveNames(states[k].io.tasks)
    ensures SameForeign(env.initial, states[k].io.firewall)
  {
    InvOverRun(env, states, actions, k);
    OrderOverRun(env, states, actions, k);
    R.AddsRunInPostOrder(states[k].io.tasks, states[k].io.history);
    R.DeletesRunInExpiryOrder(states[k].io.history);
    LiveRulesKeepForeign(env, states[k]);
  }

  /**
   * Crashing after any action of any run and starting again, with a clean-up that succeeds, leaves
   * exactly those rules of the very first firewall that the clean-up does not look for.
   */
  lemma CrashRecovery(env: Env, states: seq<System>, actions: seq<Action>, k: nat, cleaned: multiset<string>)
    requires IsRun(env, states, actions) && k < |states|
    requires Cleaned(states[k].io.firewall, cleaned, RULE_PREFIX)
    ensures Cleaned(env.initial, cleaned, RULE_PREFIX)
    ensures Enabled(env, states[k], Restart(cleaned))
    ensures Apply(env, states[k], Restart(cleaned)) == Begin(states[k].now, cleaned)
  {
    RulesInEveryRun(env, states, actions, k);
    assert Trimmed(states[k].io.firewall, cleaned, RULE_PREFIX);
  }

  /** All that the program does by itself, once no more logins come in. */
  predicate IsWork(a: Action) {
    a.FailMove? || IsIoAction(a)
  }

  function FailRank(f: Fail, stage: Stage): nat {
    match f.pc
    case Idle => 0
    case Sweeping(todo) => 2 * |todo| + 10
    case Testing(todo, _, _) => 2 * |todo| + 11
    case Finding => 9
    case Resetting => 8
    case Checking => 7
    case Blocking => if stage.ToPost? then 6 else if stage.ToArm? then 5 else 4
  }

  function SuccRank(succ: Succ): nat {
    match succ
    case Waiting => 0
    case WantsPost(_, _) => 2
    case WantsArm(_, _, _) => 1
  }

  function ThreadRank(s: System): nat {
    FailRank(s.fail, s.stage) + SuccRank(s.succ)
  }

  /** Events waiting, then how far the two threads are, then what the event loop has still to do. */
  predicate RankBelow(s: System, t: System) {
    var p, q := ThreadRank(s), ThreadRank(t);
    || |s.events| < |t.events|
    || (|s.events| == |t.events| && p < q)
    || (|s.events| == |t.events| && p == q && R.Work(s.io.tasks) < R.Work(t.io.tasks))
  }

  lemma MoveLowersRank(env: Env, s: System, move: Move)
    requires StageInv(env, s) && MoveEnabled(env, s, move)
    ensures RankBelow(ApplyMove(env, s, move), s)
  {
    if move.TestBlocked? {
      assert |s.fail.pc.todo - {move.a}| == |s.fail.pc.todo| - 1;
    }
  }

  lemma PostingLowersRank(env: Env, s: System, a: Action)
    requires StageInv(env, s) && Enabled(env, s, a) && (a.FailPost? || a.FailArm? || a.SuccPost? || a.SuccArm?)
    ensures RankBelow(Apply(env, s, a), s)
  {
  }

  lemma IoMoveLowersRank(env: Env, s: System, io: R.Action)
    requires R.QueueInv(s.io) && Enabled(env, s, IoMove(io))
    ensures RankBelow(Apply(env, s, IoMove(io)), s)
  {
    R.ActionsUseUpWork(s.io, io, s.now);
  }

  /** Every action of the program itself lowers a measure that cannot fall forever. */
  lemma WorkLowersRank(env: Env, s: System, a: Action)
    requires Inv(env, s) && Enabled(env, s, a) && IsWork(a)
    ensures RankBelow(Apply(env, s, a), s)
  {
    match a
    case FailMove(move) => MoveLowersRank(env, s, move);
    case IoMove(io) => IoMoveLowersRank(env, s, io);
    case _ => PostingLowersRank(env, s, a);
  }

  /** Some time passes, and then the program itself acts. */
  ghost predicate WorkStep(env: Env, s: System, s': System) {
    exists until, a :: s.now <= until && Enabled(env, s.(now := until), a) && IsWork(a)
                       && s' == Apply(env, s.(now := until), a)
  }

  lemma WorkStepLowersRank(env: Env, s: System, s': System)
    requires Inv(env, s) && WorkStep(env, s, s')
    ensures Inv(env, s') && RankBelow(s', s)
  {
    var until, a :| s.now <= until && Enabled(env, s.(now := until), a) && IsWork(a)
                    && s' == Apply(env, s.(now := until), a);
    TickKeepsInv(env, s, until);
    InvKept(env, s.(now := until), a);
    WorkLowersRank(env, s.(now := until), a);
  }

  ghost predicate WorksForever(env: Env, f: nat -> System) {
    forall j: nat :: WorkStep(env, f(j), f(j + 1))
  }

  lemma {:induction false} EndlessWork(env: Env, f: nat -> System, k: nat, s: System)
    requires WorksForever(env, f) && s == f(k) && Inv(env, s)
    ensures false
    decreases |s.events|, ThreadRank(s), R.Work(s.io.tasks)
  {
    var s' := f(k + 1);
    assert WorkStep(env, s, s');
    WorkStepLowersRank(env, s, s');
    EndlessWork(env, f, k + 1, s');
  }

  /** From any state of any run, when no more logins come in, the program comes to rest: it cannot act forever. */
  lemma WorkEnds(env: Env, states: seq<System>, actions: seq<Action>, k: nat, f: nat -> System)
    requires IsRun(env, states, actions) && k < |states| && f(0) == states[k]
    ensures exists j: nat :: !WorkStep(env, f(j), f(j + 1))
  {
    InvOverRun(env, states, actions, k);
    if WorksForever(env, f) {
      EndlessWork(env, f, 0, f(0));
    }
  }

  ghost predicate AtRest(env: Env, s: System) {
    forall a :: IsWork(a) ==> !Enabled(env, s, a)
  }

  lemma TestableIsThere(cfg: Config, f: Fail, w: int, a: Addr)
    requires FailInv(cfg, f, w)
    requires (f.pc.Sweeping? && a in f.pc.todo) || (f.pc.Testing? && a == f.pc.tested)
    ensures a in f.records
  {
    assert a in Swept(State(cfg, f.log), f.cur.sweep);
  }

  lemma SomeMove(cfg: Config, f: Fail, w: int) returns (move: Move)
    requires FailInv(cfg, f, w) && !f.pc.Idle?
    ensures CanMove(cfg, f, move) && !move.Pop? && (move.Stamp? ==> f.pc.Blocking?)
  {
    match f.pc
    case Sweeping(todo) =>
      if todo == {} {
        move := EndSweep;
      } else {
        var a :| a in todo;
        TestableIsThere(cfg, f, w, a);
        move := TestBlocked(a);
      }
    case Testing(_, a, _) =>
      TestableIsThere(cfg, f, w, a);
      move := TestExpired;
    case Finding => move := Find;
    case Resetting => move := Reset;
    case Checking => move := Check(AnyDelay(cfg));
    case Blocking => move := Stamp;
  }

  /** The rules that the two threads may still post without another login. */
  function PostsAhead(s: System): nat {
    |s.events|
    + (if s.fail.pc.Idle? || (s.fail.pc.Blocking? && !s.stage.ToPost?) then 0 else 1)
    + (if s.succ.WantsPost? then 1 else 0)
  }

  /** There are names enough for them that are free. */
  predicate NamesSuffice(s: System, names: set<string>) {
    PostsAhead(s) <= |names| && forall name :: name in names ==> R.NameIsFree(s.io, name)
  }

  lemma SomeNameIsFree(s: System, names: set<string>) returns (name: string)
    requires NamesSuffice(s, names)
    ensures PostsAhead(s) > 0 ==> name in names && R.NameIsFree(s.io, name)
  {
    if PostsAhead(s) > 0 {
      assert names != {};
      name :| name in names;
    } else {
      name := "";
    }
  }

  /** The action posts under one of these names, if it posts at all. */
  predicate UsesName(a: Action, names: set<string>) {
    a.FailPost? || a.SuccPost? ==> a.name in names
  }

  /** A thread in the middle of an event can always go on; only posting needs a name that is free. */
  lemma FailThreadGoesOn(env: Env, s: System, name: string) returns (a: Action)
    requires Inv(env, s) && !s.fail.pc.Idle? && (s.stage.ToPost? ==> R.NameIsFree(s.io, name))
    ensures Enabled(env, s, a) && IsWork(a) && (a == FailPost(name) || a.FailArm? || a.FailMove?)
  {
    if s.stage.ToPost? {
      a := FailPost(name);
    } else if s.stage.ToArm? {
      a := FailArm;
    } else {
      var move := SomeMove(env.cfg, s.fail, Wall(env, s.now));
      a := FailMove(move);
    }
  }

  lemma SuccThreadGoesOn(env: Env, s: System, name: string) returns (a: Action)
    requires StageInv(env, s) && !s.succ.Waiting? && (s.succ.WantsPost? ==> R.NameIsFree(s.io, name))
    ensures Enabled(env, s, a) && IsWork(a) && (a == SuccPost(name) || a.SuccArm?)
  {
    a := if s.succ.WantsPost? then SuccPost(name) else SuccArm;
  }

  lemma NextEventIsPopped(env: Env, s: System) returns (a: Action)
    requires s.fail.pc.Idle? && s.events != []
    ensures Enabled(env, s, a) && IsWork(a) && a.FailMove?
  {
    a := FailMove(Pop(s.events[0]));
  }

  /** Every event is handled, both threads are between events, and every rule has lived its life. */
  predicate Done(s: System) {
    s.events == [] && s.fail.pc.Idle? && s.succ.Waiting? && s.io.queue == [] && R.AllFinished(s.io.tasks)
  }

  lemma DoneIsRest(env: Env, s: System)
    requires StageInv(env, s) && Done(s)
    ensures AtRest(env, s) && R.DeadlinesPassed(s.io, s.now)
  {
  }

  lemma LoopGoesOn(env: Env, s: System) returns (until: real, a: Action)
    requires R.QueueInv(s.io) && StageInv(env, s) && s.events == [] && s.fail.pc.Idle? && s.succ.Waiting? && !Done(s)
    ensures s.now <= until && Enabled(env, s.(now := until), a) && a.IoMove? && (a.io.Run? ==> a.io.ok)
  {
    var io;
    io, until := R.NextStep(s.io, s.now);
    a := IoMove(io);
  }

  /** Short of that, the program can act, at once or when the next timer is due. */
  lemma NextWork(env: Env, s: System, names: set<string>) returns (until: real, a: Action)
    requires Inv(env, s) && NamesSuffice(s, names) && !Done(s)
    ensures s.now <= until && Enabled(env, s.(now := until), a) && IsWork(a) && UsesName(a, names)
    ensures a.IoMove? && a.io.Run? ==> a.io.ok
  {
    until := s.now;
    assert s.(now := until) == s;
    var name := SomeNameIsFree(s, names);
    if !s.fail.pc.Idle? {
      a := FailThreadGoesOn(env, s, name);
    } else if s.events != [] {
      a := NextEventIsPopped(env, s);
    } else if !s.succ.Waiting? {
      a := SuccThreadGoesOn(env, s, name);
    } else {
      until, a := LoopGoesOn(env, s);
    }
  }

  lemma PostsAheadAfter(env: Env, s: System, a: Action)
    requires StageInv(env, s) && Enabled(env, s, a) && IsWork(a)
    ensures PostsAhead(Apply(env, s, a)) <= PostsAhead(s) - if a.FailPost? || a.SuccPost? then 1 else 0
  {
  }

  lemma NamesStayFree(env: Env, s: System, a: Action, name: string)
    requires R.QueueInv(s.io) && Enabled(env, s, a) && IsWork(a) && R.NameIsFree(s.io, name)
    requires a.FailPost? || a.SuccPost? ==> a.name != name
    ensures R.NameIsFree(Apply(env, s, a).io, name)
  {
    if IsIoAction(a) {
      IoPartIsEnabled(env, s, a);
      R.NameStaysFree(s.io, IoPart(env, s, a), s.now, name);
    }
  }

  /** What is left of the names after an action that used one of them suffices for what is left to post. */
  lemma NamesStillSuffice(env: Env, s: System, a: Action, names: set<string>) returns (left: set<string>)
    requires R.QueueInv(s.io) && StageInv(env, s) && Enabled(env, s, a) && IsWork(a)
    requires NamesSuffice(s, names) && UsesName(a, names)
    ensures NamesSuffice(Apply(env, s, a), left)
  {
    left := if a.FailPost? || a.SuccPost? then names - {a.name} else names;
    PostsAheadAfter(env, s, a);
    forall name | name in left ensures R.NameIsFree(Apply(env, s, a).io, name) {
      NamesStayFree(env, s, a, name);
    }
  }

  lemma RunGrows(env: Env, states: seq<System>, actions: seq<Action>, a: Action)
    requires IsRun(env, states, actions) && Enabled(env, states[|actions|], a)
    ensures IsRun(env, states + [Apply(env, states[|actions|], a)], actions + [a])
  {
  }

  /** From action `n` on nothing comes in: time passes and the program acts, and no deletion fails. */
  predicate OnlyWorkFrom(actions: seq<Action>, n: nat) {
    forall k :: n <= k < |actions| ==>
      actions[k].Tick? || (IsWork(actions[k]) && (actions[k].IoMove? && actions[k].io.Run? ==> actions[k].io.ok))
  }

  /** `s'` comes out of `s` by work alone. */
  ghost predicate WorkedOn(s: System, s': System) {
    && s'.delivered == s.delivered && s'.base == s.base
    && (R.NoDeleteFailed(s.io.history) ==> R.NoDeleteFailed(s'.io.history))
  }

  /** What work leaves alone, and that it loses no rule if its deletions succeed. */
  lemma WorkKeeps(env: Env, s: System, a: Action)
    requires Enabled(env, s, a) && IsWork(a) && (a.IoMove? && a.io.Run? ==> a.io.ok)
    ensures WorkedOn(s, Apply(env, s, a))
  {
    if IsIoAction(a) && R.NoDeleteFailed(s.io.history) {
      IoPartIsEnabled(env, s, a);
      R.NoDeleteFails(s.io, IoPart(env, s, a), s.now);
    }
  }

  lemma TickAndWork(env: Env, states: seq<System>, actions: seq<Action>, until: real, a: Action)
    returns (states': seq<System>, actions': seq<Action>)
    requires IsRun(env, states, actions) && states[|actions|].now <= until
    requires Enabled(env, states[|actions|].(now := until), a)
    requires IsWork(a) && (a.IoMove? && a.io.Run? ==> a.io.ok)
    ensures IsRun(env, states', actions') && states <= states' && actions <= actions'
    ensures OnlyWorkFrom(actions', |actions|)
    ensures states'[|actions'|] == Apply(env, states[|actions|].(now := until), a)
  {
    var t := states[|actions|].(now := until);
    RunGrows(env, states, actions, Tick(until));
    RunGrows(env, states + [t], actions + [Tick(until)], a);
    states', actions' := states + [t] + [Apply(env, t, a)], actions + [Tick(until)] + [a];
  }

  /** One tick and one action towards rest. */
  lemma OneMoreWork(env: Env, s: System, names: set<string>) returns (until: real, a: Action, left: set<string>)
    requires Inv(env, s) && NamesSuffice(s, names) && !Done(s)
    ensures s.now <= until && Enabled(env, s.(now := until), a)
    ensures IsWork(a) && (a.IoMove? && a.io.Run? ==> a.io.ok)
    ensures
      var s' := Apply(env, s.(now := until), a);
      NamesSuffice(s', left) && RankBelow(s', s) && WorkedOn(s, s')
  {
    until, a := NextWork(env, s, names);
    var t := s.(now := until);
    TickKeepsInv(env, s, until);
    WorkLowersRank(env, t, a);
    WorkKeeps(env, t, a);
    left := NamesStillSuffice(env, t, a, names);
  }

  lemma {:induction false} WorkUntilDone(env: Env, states: seq<System>, actions: seq<Action>, names: set<string>)
    returns (states': seq<System>, actions': seq<Action>)
    requires IsRun(env, states, actions) && NamesSuffice(states[|actions|], names)
    ensures IsRun(env, states', actions') && Done(states'[|actions'|])
    ensures states <= states' && actions <= actions' && OnlyWorkFrom(actions', |actions|)
    ensures WorkedOn(states[|actions|], states'[|actions'|])
    decreases |states[|actions|].events|, ThreadRank(states[|actions|]), R.Work(states[|actions|].io.tasks)
  {
    if Done(states[|actions|]) {
      states', actions' := states, actions;
    } else {
      InvOverRun(env, states, actions, |actions|);
      var until, a, left := OneMoreWork(env, states[|actions|], names);
      var longer, more := TickAndWork(env, states, actions, until, a);
      states', actions' := WorkUntilDone(env, longer, more, left);
    }
  }

  lemma HandledWhenDone(s: System)
    requires EventsInv(s) && s.events == [] && s.fail.pc.Idle?
    ensures Addresses(s.fail.log) == s.delivered
  {
  }

  /**
   * From every state of every run in which there are names enough, time and the program's own work
   * lead to rest with all deadlines passed. Every delivered event has been handled then, and the
   * firewall is as it was at the start if no deletion had failed before.
   */
  lemma ComesToRest(env: Env, states: seq<System>, actions: seq<Action>, names: set<string>)
    returns (states': seq<System>, actions': seq<Action>)
    requires IsRun(env, states, actions) && NamesSuffice(states[|actions|], names)
    ensures IsRun(env, states', actions') && states <= states' && actions <= actions'
    ensures OnlyWorkFrom(actions', |actions|)
    ensures
      var s, s' := states[|actions|], states'[|actions'|];
      && AtRest(env, s') && R.DeadlinesPassed(s'.io, s'.now)
      && Addresses(s'.fail.log) == s'.delivered == s.delivered
      && (R.NoDeleteFailed(s.io.history) ==> s'.io.firewall == s'.base == s.base)
  {
    states', actions' := WorkUntilDone(env, states, actions, names);
    var s' := states'[|actions'|];
    InvOverRun(env, states', actions', |actions'|);
    DoneIsRest(env, s');
    HandledWhenDone(s');
    if R.NoDeleteFailed(states[|actions|].io.history) {
      R.FinishedMeansDeleted(s'.io);
      R.RestoredIffAllDeleted(s'.io, s'.base);
    }
  }

  lemma SuccAtRest(env: Env, s: System, name: string)
    requires StageInv(env, s) && AtRest(env, s) && R.NameIsFree(s.io, name)
    ensures s.succ.Waiting?
  {
    assert !Enabled(env, s, SuccPost(name));
    assert !Enabled(env, s, SuccArm);
  }

  lemma FailAtRest(env: Env, s: System, name: string)
    requires Inv(env, s) && AtRest(env, s) && R.NameIsFree(s.io, name)
    ensures s.events == [] && s.fail.pc.Idle?
  {
    if !s.fail.pc.Idle? {
      var a := FailThreadGoesOn(env, s, name);
      assert false;
    } else if s.events != [] {
      var a := NextEventIsPopped(env, s);
      assert false;
    }
  }

  /** With both threads idle there is no task left to arm. */
  lemma LoopAtRest(env: Env, s: System)
    requires StageInv(env, s) && AtRest(env, s) && s.fail.pc.Idle? && s.succ.Waiting?
    ensures R.Quiet(s.io, s.now)
  {
    forall a | R.Enabled(s.io, a, s.now) ensures a.Post? {
      assert !Enabled(env, s, IoMove(a));
    }
  }

  /**
   * Whenever a run is at rest with all deadlines passed, every event has been handled and the firewall
   * is as it was at the start, but for the rules whose deletion failed; a name must be free for a rule
   * that may be waiting for one.
   */
  lemma RestRestoresFirewall(env: Env, states: seq<System>, actions: seq<Action>, k: nat, name: string)
    requires IsRun(env, states, actions) && k < |states|
    requires
      var s := states[k];
      AtRest(env, s) && R.DeadlinesPassed(s.io, s.now) && R.NameIsFree(s.io, name)
    ensures
      var s := states[k];
      && Done(s) && Addresses(s.fail.log) == s.delivered
      && (s.io.firewall == s.base <==> R.AllDeleted(s.io.history))
  {
    var s := states[k];
    InvOverRun(env, states, actions, k);
    FailAtRest(env, s, name);
    SuccAtRest(env, s, name);
    LoopAtRest(env, s);
    R.QuietMeansRestored(s.io, s.base, s.now);
    HandledWhenDone(s);
  }
}
