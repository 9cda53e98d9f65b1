/** Which decision every rule comes from: that of a failed login, or that of a successful login which was blocked. */
module RuleOrigins {
  import opened FailBan
  import opened FailMachine
  import opened BlockingSystem
  import R = RuleTasks

  /** What a thread wants of a rule: its address, the number of its task, and its deadline once it is armed. */
  datatype Origin = Unarmed(addr: Addr, id: nat) | Due(addr: Addr, id: nat, due: real)

  function BlockOrigins(blocks: seq<Block>): seq<Origin> {
    seq(|blocks|, i requires 0 <= i < |blocks| =>
      Due(blocks[i].addr, blocks[i].id, blocks[i].armed + blocks[i].duration as real))
  }

  function LoginOrigins(logins: seq<LoginRule>): seq<Origin> {
    seq(|logins|, i requires 0 <= i < |logins| =>
      Due(logins[i].addr, logins[i].id, logins[i].armed + logins[i].duration as real))
  }

  /** The failban rule that is not stamped yet. */
  function StageOrigin(env: Env, s: System): seq<Origin> {
    match s.stage
    case ToArm(id, _) => [Unarmed(s.fail.cur.addr, id)]
    case Ready(id, _, armed) => [Due(s.fail.cur.addr, id, armed + CurDuration(env, s) as real)]
    case _ => []
  }

  /** The rule of a login that is not armed yet. */
  function SuccOrigin(succ: Succ): seq<Origin> {
    match succ
    case WantsArm(addr, id, _) => [Unarmed(addr, id)]
    case _ => []
  }

  /** All rules posted since the start, by the decisions behind them. */
  function Origins(env: Env, s: System): seq<Origin> {
    BlockOrigins(s.blocks) + StageOrigin(env, s) + LoginOrigins(s.logins) + SuccOrigin(s.succ)
  }

  function Ids(origins: seq<Origin>): seq<nat> {
    seq(|origins|, i requires 0 <= i < |origins| => origins[i].id)
  }

  /** The task is the one that the decision asked for. */
  predicate Serves(tasks: seq<R.Task>, o: Origin) {
    && o.id < |tasks| && tasks[o.id].addr == o.addr
    && match o
       case Unarmed(_, _) => tasks[o.id].delete.Unarmed?
       case Due(_, _, due) => !tasks[o.id].delete.Unarmed? && tasks[o.id].due == due
  }

  ghost predicate LoginsServed(s: System) {
    forall i :: 0 <= i < |s.logins| ==> s.logins[i].armed <= s.now && Serves(s.io.tasks, LoginOrigins(s.logins)[i])
  }

  /** Each of the first `n` numbers is in the list once, and no other number is. */
  ghost predicate Numbers(ids: seq<nat>, n: nat) {
    forall id: nat :: multiset(ids)[id] == if id < n then 1 else 0
  }

  /** Addresses that may be blocked. */
  predicate MayBlock(cfg: Config, a: Addr) {
    cfg.isAddress(a) && !exists k :: 0 <= k < |cfg.whitelist| && cfg.matches(cfg.whitelist[k], a)
  }

  ghost predicate TargetsInv(env: Env, s: System) {
    && (s.succ.WantsPost? ==> MayBlock(env.cfg, s.succ.addr))
    && (forall id :: 0 <= id < |s.io.tasks| ==> MayBlock(env.cfg, s.io.tasks[id].addr))
  }

  ghost predicate OriginsInv(env: Env, s: System) {
    LoginsServed(s) && Numbers(Ids(Origins(env, s)), |s.io.tasks|) && TargetsInv(env, s)
  }

  lemma IdsOfConcat(before: seq<Origin>, after: seq<Origin>)
    ensures Ids(before + after) == Ids(before) + Ids(after)
  {
  }

  lemma NumberInserted(before: seq<nat>, after: seq<nat>, n: nat)
    requires Numbers(before + after, n)
    ensures Numbers(before + [n] + after, n + 1)
  {
    assert multiset(before + [n] + after) == multiset(before + after) + multiset{n};
  }

  lemma NumbersGrow(before: seq<Origin>, o: Origin, after: seq<Origin>, n: nat)
    requires Numbers(Ids(before + after), n) && o.id == n
    ensures Numbers(Ids(before + [o] + after), n + 1)
  {
    IdsOfConcat(before, after);
    NumberInserted(Ids(before), Ids(after), n);
    assert Ids(before + [o] + after) == Ids(before) + [n] + Ids(after);
  }

  lemma FailPostAddsOrigin(env: Env, s: System, a: Action)
    requires Numbers(Ids(Origins(env, s)), |s.io.tasks|) && Enabled(env, s, a) && a.FailPost?
    ensures Numbers(Ids(Origins(env, Apply(env, s, a))), |s.io.tasks| + 1)
  {
    var before, after := BlockOrigins(s.blocks), LoginOrigins(s.logins) + SuccOrigin(s.succ);
    var o := Unarmed(s.fail.cur.addr, |s.io.tasks|);
    assert Origins(env, s) == before + after;
    assert Origins(env, Apply(env, s, a)) == before + [o] + after;
    NumbersGrow(before, o, after, |s.io.tasks|);
  }

  lemma SuccPostAddsOrigin(env: Env, s: System, a: Action)
    requires Numbers(Ids(Origins(env, s)), |s.io.tasks|) && Enabled(env, s, a) && a.SuccPost?
    ensures Numbers(Ids(Origins(env, Apply(env, s, a))), |s.io.tasks| + 1)
  {
    var o := Unarmed(s.succ.addr, |s.io.tasks|);
    assert Origins(env, s) + [] == Origins(env, s);
    assert Origins(env, Apply(env, s, a)) == Origins(env, s) + [o] + [];
    NumbersGrow(Origins(env, s), o, [], |s.io.tasks|);
  }

  /** Arming and stamping pass a rule on under its number. */
  lemma ArmKeepsIds(env: Env, s: System, a: Action)
    requires Enabled(env, s, a) && (a.FailArm? || a.SuccArm?)
    ensures Ids(Origins(env, Apply(env, s, a))) == Ids(Origins(env, s))
  {
  }

  lemma MoveKeepsIds(env: Env, s: System, move: Move)
    requires StageInv(env, s) && MoveEnabled(env, s, move)
    ensures Ids(Origins(env, ApplyMove(env, s, move))) == Ids(Origins(env, s))
  {
  }

  /** Everything else leaves alone both the tasks that there are and what the threads want of them. */
  lemma OthersKeepIds(env: Env, s: System, a: Action)
    requires R.QueueInv(s.io) && Enabled(env, s, a) && (a.Tick? || a.Deliver? || a.SuccBlock? || a.IoMove?)
    ensures Ids(Origins(env, Apply(env, s, a))) == Ids(Origins(env, s))
    ensures |Apply(env, s, a).io.tasks| == |s.io.tasks|
  {
    assert Origins(env, Apply(env, s, a)) == Origins(env, s);
    if a.IoMove? {
      R.TasksAfter(s.io, a.io, s.now);
    }
  }

  lemma NumbersKept(env: Env, s: System, a: Action)
    requires StageInv(env, s) && R.QueueInv(s.io) && Numbers(Ids(Origins(env, s)), |s.io.tasks|) && Enabled(env, s, a)
    ensures Numbers(Ids(Origins(env, Apply(env, s, a))), |Apply(env, s, a).io.tasks|)
  {
    match a
    case FailPost(_) => FailPostAddsOrigin(env, s, a);
    case SuccPost(_) => SuccPostAddsOrigin(env, s, a);
    case FailArm => ArmKeepsIds(env, s, a);
    case SuccArm => ArmKeepsIds(env, s, a);
    case FailMove(move) => MoveKeepsIds(env, s, move);
    case Restart(_) => assert Ids(Origins(env, Apply(env, s, a))) == [];
    case _ => OthersKeepIds(env, s, a);
  }

  lemma ArmServesLogin(env: Env, s: System, a: Action)
    requires StageInv(env, s) && R.QueueInv(s.io) && LoginsServed(s) && Enabled(env, s, a) && a.SuccArm?
    ensures LoginsServed(Apply(env, s, a))
  {
    var s' := Apply(env, s, a);
    IoPartIsEnabled(env, s, a);
    R.TasksAfter(s.io, IoPart(env, s, a), s.now);
    forall i | 0 <= i < |s'.logins|
      ensures s'.logins[i].armed <= s'.now && Serves(s'.io.tasks, LoginOrigins(s'.logins)[i])
    {
      if i < |s.logins| {
        assert Serves(s.io.tasks, LoginOrigins(s.logins)[i]);
      }
    }
  }

  lemma IoActionServesLogins(env: Env, s: System, a: Action)
    requires R.QueueInv(s.io) && LoginsServed(s) && Enabled(env, s, a) && IsIoAction(a) && !a.SuccArm?
    ensures LoginsServed(Apply(env, s, a))
  {
    var s' := Apply(env, s, a);
    IoPartIsEnabled(env, s, a);
    R.TasksAfter(s.io, IoPart(env, s, a), s.now);
    assert s'.logins == s.logins;
    forall i | 0 <= i < |s.logins| ensures Serves(s'.io.tasks, LoginOrigins(s.logins)[i]) {
      assert Serves(s.io.tasks, LoginOrigins(s.logins)[i]);
    }
  }

  lemma LoginsKept(env: Env, s: System, a: Action)
    requires StageInv(env, s) && R.QueueInv(s.io) && LoginsServed(s) && Enabled(env, s, a)
    ensures LoginsServed(Apply(env, s, a))
  {
    if a.SuccArm? {
      ArmServesLogin(env, s, a);
    } else if IsIoAction(a) {
      IoActionServesLogins(env, s, a);
    }
  }

  lemma BlockingIsCountable(cfg: Config, f: Fail, w: int)
    requires FailInv(cfg, f, w) && f.pc.Blocking?
    ensures MayBlock(cfg, f.cur.addr)
  {
    assert Countable(cfg, f.cur.addr);
  }

  lemma TargetsKept(env: Env, s: System, a: Action)
    requires R.QueueInv(s.io) && (s.stage.ToPost? ==> MayBlock(env.cfg, s.fail.cur.addr))
    requires TargetsInv(env, s) && Enabled(env, s, a)
    ensures TargetsInv(env, Apply(env, s, a))
  {
    if IsIoAction(a) {
      IoPartIsEnabled(env, s, a);
      R.TasksAfter(s.io, IoPart(env, s, a), s.now);
    }
  }

  lemma OriginsKept(env: Env, s: System, a: Action)
    requires Inv(env, s) && OriginsInv(env, s) && Enabled(env, s, a)
    ensures OriginsInv(env, Apply(env, s, a))
  {
    NumbersKept(env, s, a);
    LoginsKept(env, s, a);
    if s.stage.ToPost? {
      BlockingIsCountable(env.cfg, s.fail, Wall(env, s.now));
    }
    TargetsKept(env, s, a);
  }

  lemma OriginsAtStart(env: Env, now: real, cleaned: multiset<string>)
    ensures OriginsInv(env, Begin(now, cleaned))
  {
    assert Ids(Origins(env, Begin(now, cleaned))) == [];
  }

  lemma {:induction false} OriginsOverRun(env: Env, states: seq<System>, actions: seq<Action>, k: nat)
    requires IsRun(env, states, actions) && k < |states|
    ensures OriginsInv(env, states[k])
  {
    if k == 0 {
      OriginsAtStart(env, states[0].now, states[0].base);
    } else {
      OriginsOverRun(env, states, actions, k - 1);
      InvOverRun(env, states, actions, k - 1);
      OriginsKept(env, states[k - 1], actions[k - 1]);
    }
  }

  lemma NumbersDiffer(ids: seq<nat>, n: nat, i: nat, j: nat)
    requires Numbers(ids, n) && i < j < |ids|
    ensures ids[i] != ids[j]
  {
    var before, after := ids[..j], ids[j + 1..];
    assert ids == before + [ids[j]] + after;
    assert multiset(ids)[ids[j]] == multiset(before)[ids[j]] + 1 + multiset(after)[ids[j]];
    assert ids[i] in multiset(before) by {
      assert before[i] == ids[i];
    }
  }

  lemma NumberIsListed(ids: seq<nat>, n: nat, id: nat) returns (i: nat)
    requires Numbers(ids, n) && id < n
    ensures i < |ids| && ids[i] == id
  {
    assert id in multiset(ids);
    i :| 0 <= i < |ids| && ids[i] == id;
  }

  lemma OriginIsServed(env: Env, s: System, i: nat)
    requires StageInv(env, s) && RulesInv(s) && LoginsServed(s) && i < |Origins(env, s)|
    ensures Serves(s.io.tasks, Origins(env, s)[i])
  {
    var n := |s.blocks| + |StageOrigin(env, s)|;
    if n <= i < n + |s.logins| {
      assert Serves(s.io.tasks, LoginOrigins(s.logins)[i - n]);
    }
  }

  /** In every run, every decision that is listed has the task that it asked for, and no two have the same. */
  lemma EveryDecisionIsServed(env: Env, states: seq<System>, actions: seq<Action>, k: nat, i: nat, j: nat)
    requires IsRun(env, states, actions) && k < |states| && i < |Origins(env, states[k])|
    ensures Serves(states[k].io.tasks, Origins(env, states[k])[i])
    ensures j < |Origins(env, states[k])| && i != j ==> Origins(env, states[k])[i].id != Origins(env, states[k])[j].id
  {
    var s := states[k];
    InvOverRun(env, states, actions, k);
    OriginsOverRun(env, states, actions, k);
    var os := Origins(env, s);
    if j < |os| && i != j {
      NumbersDiffer(Ids(os), |s.io.tasks|, if i < j then i else j, if i < j then j else i);
    }
    OriginIsServed(env, s, i);
  }

  /**
   * In every run, every rule ever posted is that of exactly one decision, of the failed-login thread or
   * of the successful-login thread, and its address is well formed and not whitelisted.
   */
  lemma EveryRuleHasOneDecision(env: Env, states: seq<System>, actions: seq<Action>, k: nat, id: nat) returns (i: nat)
    requires IsRun(env, states, actions) && k < |states| && id < |states[k].io.tasks|
    ensures
      var s := states[k];
      && i < |Origins(env, s)| && Origins(env, s)[i].id == id && Serves(s.io.tasks, Origins(env, s)[i])
      && (forall j :: 0 <= j < |Origins(env, s)| && j != i ==> Origins(env, s)[j].id != id)
      && MayBlock(env.cfg, s.io.tasks[id].addr)
  {
    var os := Origins(env, states[k]);
    OriginsOverRun(env, states, actions, k);
    i := NumberIsListed(Ids(os), |states[k].io.tasks|, id);
    EveryDecisionIsServed(env, states, actions, k, i, i);
    forall j | 0 <= j < |os| && j != i ensures os[j].id != id {
      EveryDecisionIsServed(env, states, actions, k, i, j);
    }
  }

  /** No restart from action `j` to action `k`. */
  predicate SameStart(actions: seq<Action>, j: nat, k: nat)
    requires k <= |actions|
  {
    forall m :: j <= m < k ==> !actions[m].Restart?
  }

  predicate NoLoginPost(actions: seq<Action>, j: nat, k: nat)
    requires k <= |actions|
  {
    forall m :: j <= m < k ==> !actions[m].SuccPost?
  }

  predicate NoLoginArm(actions: seq<Action>, j: nat, k: nat)
    requires k <= |actions|
  {
    forall m :: j <= m < k ==> !actions[m].SuccArm?
  }

  lemma {:induction false} LoginWaitsToPost(env: Env, states: seq<System>, actions: seq<Action>, k: nat, p: nat)
    requires IsRun(env, states, actions) && k < p < |states| && SameStart(actions, k, p)
    requires actions[k].SuccBlock? && env.cfg.blockTime + actions[k].delay > 0
    requires NoLoginPost(actions, k, p)
    ensures states[p].succ == WantsPost(actions[k].addr, env.cfg.blockTime + actions[k].delay)
    decreases p
  {
    if k + 1 < p {
      LoginWaitsToPost(env, states, actions, k, p - 1);
    }
    assert Enabled(env, states[p - 1], actions[p - 1]);
  }

  /** An action leaves the address of a task alone, and its deadline unless it arms it. */
  lemma ActionKeepsTask(env: Env, s: System, a: Action, id: nat)
    requires Inv(env, s) && Enabled(env, s, a) && !a.Restart?
    ensures
      var tasks, tasks' := s.io.tasks, Apply(env, s, a).io.tasks;
      id < |tasks| ==>
        && id < |tasks'| && tasks'[id].addr == tasks[id].addr
        && (!tasks[id].delete.Unarmed? ==> !tasks'[id].delete.Unarmed? && tasks'[id].due == tasks[id].due)
  {
    if IsIoAction(a) {
      IoPartIsEnabled(env, s, a);
      R.TasksAfter(s.io, IoPart(env, s, a), s.now);
    }
  }

  /** What the successful-login thread has posted, and not yet armed. */
  predicate Posted(s: System, addr: Addr, id: nat, duration: int) {
    s.succ == WantsArm(addr, id, duration) && id < |s.io.tasks| && s.io.tasks[id].addr == addr
  }

  lemma PostingLogin(env: Env, s: System, a: Action, addr: Addr, duration: int)
    requires s.succ == WantsPost(addr, duration) && a.SuccPost? && Enabled(env, s, a)
    ensures Posted(Apply(env, s, a), addr, |s.io.tasks|, duration)
  {
  }

  lemma PostedStays(env: Env, s: System, a: Action, addr: Addr, id: nat, duration: int)
    requires Inv(env, s) && Posted(s, addr, id, duration) && Enabled(env, s, a) && !a.SuccArm? && !a.Restart?
    ensures Posted(Apply(env, s, a), addr, id, duration)
  {
    ActionKeepsTask(env, s, a, id);
  }

  lemma {:induction false} LoginWaitsToArm(env: Env, states: seq<System>, actions: seq<Action>, p: nat, q: nat,
                                           addr: Addr, duration: int)
    requires IsRun(env, states, actions) && p < q < |states| && SameStart(actions, p, q)
    requires states[p].succ == WantsPost(addr, duration) && actions[p].SuccPost?
    requires NoLoginArm(actions, p + 1, q)
    ensures Posted(states[q], addr, |states[p].io.tasks|, duration)
    decreases q
  {
    if p + 1 < q {
      LoginWaitsToArm(env, states, actions, p, q - 1, addr, duration);
      InvOverRun(env, states, actions, q - 1);
      PostedStays(env, states[q - 1], actions[q - 1], addr, |states[p].io.tasks|, duration);
    } else {
      PostingLogin(env, states[p], actions[p], addr, duration);
    }
  }

  /** The task is armed for `addr`, and due at `due`. */
  predicate ArmedFor(tasks: seq<R.Task>, id: nat, addr: Addr, due: real) {
    id < |tasks| && !tasks[id].delete.Unarmed? && tasks[id].addr == addr && tasks[id].due == due
  }

  lemma {:induction false} ArmedStays(env: Env, states: seq<System>, actions: seq<Action>, q: nat, l: nat,
                                      id: nat, addr: Addr, due: real)
    requires IsRun(env, states, actions) && q <= l < |states| && SameStart(actions, q, l)
    requires ArmedFor(states[q].io.tasks, id, addr, due)
    ensures ArmedFor(states[l].io.tasks, id, addr, due)
    decreases l
  {
    if q < l {
      ArmedStays(env, states, actions, q, l - 1, id, addr, due);
      InvOverRun(env, states, actions, l - 1);
      ActionKeepsTask(env, states[l - 1], actions[l - 1], id);
    }
  }

  lemma ArmingLogin(env: Env, s: System, addr: Addr, id: nat, duration: int)
    requires Posted(s, addr, id, duration) && Enabled(env, s, SuccArm)
    ensures ArmedFor(Apply(env, s, SuccArm).io.tasks, id, addr, s.now + duration as real)
  {
  }

  /**
   * In every run, a decision to block a successful login, once it is posted and armed, has a rule for
   * the address of that login, due its block time and delay after it was armed; for good.
   */
  lemma BlockedLoginHasItsRule(env: Env, states: seq<System>, actions: seq<Action>, k: nat, p: nat, q: nat, l: nat)
    requires IsRun(env, states, actions) && k < p < q < l < |states| && SameStart(actions, k, l)
    requires actions[k].SuccBlock? && env.cfg.blockTime + actions[k].delay > 0
    requires actions[p].SuccPost? && NoLoginPost(actions, k, p)
    requires actions[q].SuccArm? && NoLoginArm(actions, p + 1, q)
    ensures ArmedFor(states[l].io.tasks, |states[p].io.tasks|, actions[k].addr,
                     states[q].now + (env.cfg.blockTime + actions[k].delay) as real)
  {
    var addr, duration := actions[k].addr, env.cfg.blockTime + actions[k].delay;
    var id := |states[p].io.tasks|;
    LoginWaitsToPost(env, states, actions, k, p);
    LoginWaitsToArm(env, states, actions, p, q, addr, duration);
    ArmingLogin(env, states[q], addr, id, duration);
    ArmedStays(env, states, actions, q + 1, l, id, addr, states[q].now + duration as real);
  }
}
