/**
 * The whole program: the start-up clean-up, the callback that delivers failed logins, the two event
 * threads, the event loop with its timers, and restarts after a crash. Their actions interleave freely.
 *
 * Time is a real instant, read as it is by the steady clock; `time(0)` is the same instant, moved by
 * an arbitrary phase and cut down to whole seconds.
 */
module BlockingSystem {
  import opened RemoteAddressStatus
  import opened FailBan
  import opened FailMachine
  import opened FirewallController
  import R = RuleTasks

  /** `initial` holds the firewall rules that are there before the first start. */
  datatype Env = Env(cfg: Config, phase: real, initial: multiset<string>)

  function Wall(env: Env, t: real): int {
    (t + env.phase).Floor
  }

  /** How far the failed-login thread is with the rule of the block it has decided, and the instants of its steps. */
  datatype Stage = NoRule | ToPost | ToArm(id: nat, posted: real) | Ready(id: nat, posted: real, armed: real)

  /** Where the successful-login thread stands, between two decisions to block. */
  datatype Succ = Waiting | WantsPost(addr: Addr, duration: int) | WantsArm(addr: Addr, id: nat, duration: int)

  /** A rule of a successful login that was blocked: the number of its task, and the instant at which it was armed. */
  datatype LoginRule = LoginRule(addr: Addr, duration: int, id: nat, armed: real)

  /** A failban block: the number of its rule's task, and the instants at which it was posted, armed and stamped. */
  datatype Block = Block(addr: Addr, duration: int, id: nat, posted: real, armed: real, stamped: real)

  /** `base` holds the firewall rules that the clean-up at the last start has left. */
  datatype System = System(
    now: real, delivered: seq<Addr>, events: seq<Addr>,
    fail: Fail, stage: Stage, succ: Succ, base: multiset<string>, io: R.Io, blocks: seq<Block>,
    logins: seq<LoginRule>)

  datatype Action =
    | Tick(until: real)
    | Deliver(addr: Addr)
    | FailMove(move: Move)
    | FailPost(name: string)
    | FailArm
    | SuccBlock(addr: Addr, delay: int)
    | SuccPost(name: string)
    | SuccArm
    | IoMove(io: R.Action)
    | Restart(cleaned: multiset<string>)

  /** The program starts, whether or not its clean-up has succeeded: nobody looks. */
  function Begin(now: real, cleaned: multiset<string>): System {
    System(now, [], [], Start(), NoRule, Waiting, cleaned, R.Io([], [], cleaned, []), [], [])
  }

  function CurDuration(env: Env, s: System): int {
    Duration(env.cfg, s.fail.cur)
  }

  predicate MoveEnabled(env: Env, s: System, move: Move) {
    && CanMove(env.cfg, s.fail, move)
    && (move.Pop? ==> s.events != [] && s.events[0] == move.addr)
    && (move.Stamp? ==> s.stage.NoRule? || s.stage.Ready?)
  }

  /** Handlers and timers act by themselves; posting and arming is for the two threads. */
  ghost predicate Enabled(env: Env, s: System, a: Action) {
    match a
    case Tick(until) => s.now <= until
    case Deliver(_) => true
    case FailMove(move) => MoveEnabled(env, s, move)
    case FailPost(name) => s.stage.ToPost? && R.NameIsFree(s.io, name)
    case FailArm => s.stage.ToArm? && R.Enabled(s.io, R.Arm(s.stage.id, s.now + CurDuration(env, s) as real), s.now)
    case SuccBlock(addr, delay) =>
      s.succ.Waiting? && env.cfg.isAddress(addr) && !WhiteAddress(env.cfg, addr) && DelayOk(env.cfg, delay)
    case SuccPost(name) => s.succ.WantsPost? && R.NameIsFree(s.io, name)
    case SuccArm => s.succ.WantsArm? && R.Enabled(s.io, R.Arm(s.succ.id, s.now + s.succ.duration as real), s.now)
    case IoMove(io) => (io.Expire? || io.Run?) && R.Enabled(s.io, io, s.now)
    case Restart(cleaned) => Trimmed(s.io.firewall, cleaned, RULE_PREFIX)
  }

  function ApplyMove(env: Env, s: System, move: Move): System
    requires MoveEnabled(env, s, move)
  {
    var fail := Moved(env.cfg, s.fail, move, Wall(env, s.now));
    match move
    case Pop(_) => s.(fail := fail, events := s.events[1..])
    case Check(delay) =>
      s.(fail := fail, stage := if fail.pc.Blocking? && Duration(env.cfg, fail.cur) > 0 then ToPost else NoRule)
    case Stamp =>
      var blocks :=
        match s.stage
        case Ready(id, posted, armed) => [Block(s.fail.cur.addr, CurDuration(env, s), id, posted, armed, s.now)]
        case _ => [];
      s.(fail := fail, stage := NoRule, blocks := s.blocks + blocks)
    case _ => s.(fail := fail)
  }

  ghost function Apply(env: Env, s: System, a: Action): System
    requires Enabled(env, s, a)
  {
    match a
    case Tick(until) => s.(now := until)
    case Deliver(addr) => s.(delivered := s.delivered + [addr], events := s.events + [addr])
    case FailMove(move) => ApplyMove(env, s, move)
    case FailPost(name) =>
      s.(io := R.Apply(s.io, R.Post(name, s.fail.cur.addr), s.now), stage := ToArm(|s.io.tasks|, s.now))
    case FailArm =>
      s.(io := R.Apply(s.io, R.Arm(s.stage.id, s.now + CurDuration(env, s) as real), s.now),
         stage := Ready(s.stage.id, s.stage.posted, s.now))
    case SuccBlock(addr, delay) =>
      var duration := env.cfg.blockTime + delay;
      s.(succ := if duration > 0 then WantsPost(addr, duration) else Waiting)
    case SuccPost(name) =>
      s.(io := R.Apply(s.io, R.Post(name, s.succ.addr), s.now),
         succ := WantsArm(s.succ.addr, |s.io.tasks|, s.succ.duration))
    case SuccArm =>
      s.(io := R.Apply(s.io, R.Arm(s.succ.id, s.now + s.succ.duration as real), s.now),
         succ := Waiting,
         logins := s.logins + [LoginRule(s.succ.addr, s.succ.duration, s.succ.id, s.now)])
    case IoMove(io) => s.(io := R.Apply(s.io, io, s.now))
    case Restart(cleaned) => Begin(s.now, cleaned)
  }

  function InHand(f: Fail): seq<Addr> {
    if f.pc.Idle? then [] else [f.cur.addr]
  }

  /** The events handled, the one in hand and those still waiting are those delivered, in order. */
  ghost predicate EventsInv(s: System) {
    s.delivered == Addresses(s.fail.log) + InHand(s.fail) + s.events
  }

  /** The rule that each of the two threads is at work on, and no other task is waiting to be armed. */
  ghost predicate StageInv(env: Env, s: System) {
    && (s.fail.pc.Blocking? || s.stage.NoRule?)
    && (s.fail.pc.Blocking? ==> (s.stage.NoRule? <==> CurDuration(env, s) <= 0))
    && (s.stage.ToArm? ==>
          && s.stage.id < |s.io.tasks| && s.io.tasks[s.stage.id].delete.Unarmed? && s.stage.posted <= s.now
          && s.io.tasks[s.stage.id].addr == s.fail.cur.addr)
    && (s.stage.Ready? ==>
          && s.stage.id < |s.io.tasks| && !s.io.tasks[s.stage.id].delete.Unarmed?
          && s.stage.posted <= s.stage.armed <= s.now
          && s.io.tasks[s.stage.id].addr == s.fail.cur.addr
          && s.io.tasks[s.stage.id].due == s.stage.armed + CurDuration(env, s) as real)
    && (s.succ.WantsPost? ==> s.succ.duration > 0)
    && (s.succ.WantsArm? ==>
          && s.succ.id < |s.io.tasks| && s.io.tasks[s.succ.id].delete.Unarmed? && s.succ.duration > 0
          && s.io.tasks[s.succ.id].addr == s.succ.addr
          && (s.stage.ToArm? ==> s.stage.id != s.succ.id))
    && (forall id :: 0 <= id < |s.io.tasks| && s.io.tasks[id].delete.Unarmed? ==>
          (s.stage.ToArm? && s.stage.id == id) || (s.succ.WantsArm? && s.succ.id == id))
  }

  /** What the event loop knows of each block: its rule is for that address and due `duration` after it was armed. */
  ghost predicate RulesInv(s: System) {
    forall i :: 0 <= i < |s.blocks| ==>
      var b := s.blocks[i];
      && b.duration > 0 && b.posted <= b.armed <= b.stamped <= s.now
      && b.id < |s.io.tasks| && !s.io.tasks[b.id].delete.Unarmed?
      && s.io.tasks[b.id].addr == b.addr && s.io.tasks[b.id].due == b.armed + b.duration as real
  }

  /** The record of a block's address holds that block. */
  predicate Holds(env: Env, records: Table, b: Block) {
    b.addr in records && records[b.addr].blockTime == b.duration && records[b.addr].blockStamp == Wall(env, b.stamped)
  }

  predicate Over(b: Block, t: real) {
    t > b.stamped + b.duration as real
  }

  /** The record of every block is there until the block is over. */
  ghost predicate RecordsInv(env: Env, s: System) {
    forall i :: 0 <= i < |s.blocks| ==> Over(s.blocks[i], s.now) || Holds(env, s.fail.records, s.blocks[i])
  }

  /** Every block time in the table is that of some block, or not positive. */
  ghost predicate OriginInv(env: Env, s: System) {
    forall a :: a in s.fail.records && s.fail.records[a].blockTime > 0 ==>
      exists i :: 0 <= i < |s.blocks| && s.blocks[i].addr == a && Holds(env, s.fail.records, s.blocks[i])
  }

  /** Blocks of one address come one after the other, and so does the one being made. */
  ghost predicate WindowsInv(s: System) {
    && (forall i, j :: 0 <= i < j < |s.blocks| && s.blocks[i].addr == s.blocks[j].addr ==>
          Over(s.blocks[i], s.blocks[j].posted))
    && (forall i :: 0 <= i < |s.blocks| && s.fail.pc.Blocking? && s.blocks[i].addr == s.fail.cur.addr ==>
          && Over(s.blocks[i], s.now)
          && (s.stage.ToArm? || s.stage.Ready? ==> Over(s.blocks[i], s.stage.posted)))
  }

  function BlockAddresses(blocks: seq<Block>): seq<Addr> {
    seq(|blocks|, i requires 0 <= i < |blocks| => blocks[i].addr)
  }

  /** The failban rules are one for each decision of the history that has a positive duration. */
  ghost predicate DecisionsInv(env: Env, s: System) {
    BlockAddresses(s.blocks) == StartedSince(env.cfg, s.fail.log, 0)
  }

  /** The same rules of every name that the clean-up does not look for. */
  ghost predicate SameForeign(rules: multiset<string>, others: multiset<string>) {
    forall n :: !Contains(n, RULE_PREFIX) ==> rules[n] == others[n]
  }

  /** No start has touched a rule whose name does not contain the prefix. */
  ghost predicate BaseInv(env: Env, s: System) {
    SameForeign(env.initial, s.base)
  }

  ghost predicate Inv(env: Env, s: System) {
    && FailInv(env.cfg, s.fail, Wall(env, s.now)) && R.Inv(s.io, s.base, s.now) && BaseInv(env, s)
    && EventsInv(s) && StageInv(env, s) && RulesInv(s)
    && RecordsInv(env, s) && OriginInv(env, s) && WindowsInv(s) && DecisionsInv(env, s)
  }

  lemma WallIsMonotone(env: Env, t: real, u: real)
    requires t <= u
    ensures Wall(env, t) <= Wall(env, u)
  {
  }

  /** A whole-second timeout, counted from a cut-down stamp, comes only after the real duration. */
  lemma TimeoutMeansOver(env: Env, b: Block, r: Record, w: int, t: real)
    requires r.blockTime == b.duration > 0 && r.blockStamp == Wall(env, b.stamped)
    requires !Blocked(r, w) && w <= Wall(env, t)
    ensures Over(b, t)
  {
  }

  /** What a move of the failed-login thread can do to the block that a record holds. */
  lemma MoveKeepsBlocks(cfg: Config, f: Fail, move: Move, w: int, a: Addr)
    requires FailInv(cfg, f, w) && CanMove(cfg, f, move)
    ensures
      var f' := Moved(cfg, f, move, w);
      && (a in f.records && a !in f'.records ==>
            move.TestExpired? && f.pc.at <= w && !Blocked(f.records[a], f.pc.at))
      && (a in f.records && a in f'.records && !(move.Stamp? && a == f.cur.addr) ==>
            f'.records[a].blockTime == f.records[a].blockTime && f'.records[a].blockStamp == f.records[a].blockStamp)
      && (a !in f.records && a in f'.records ==> f'.records[a].blockTime == 0)
  {
    if move.TestExpired? {
      var before := State(cfg, f.log);
      assert f.records[f.pc.tested] == Swept(before, f.cur.sweep)[f.pc.tested];
    }
  }

  lemma BeginInv(env: Env, now: real, cleaned: multiset<string>)
    requires SameForeign(env.initial, cleaned)
    ensures Inv(env, Begin(now, cleaned))
  {
    FailInvInitially(env.cfg, Wall(env, now));
    R.InvInitially(cleaned, now);
  }

  /** A clean-up, successful or not, leaves the foreign rules alone. */
  lemma TrimmedKeepsForeign(before: multiset<string>, after: multiset<string>)
    requires Trimmed(before, after, RULE_PREFIX)
    ensures SameForeign(before, after)
  {
  }

  /** And so does everything that the program does between two starts. */
  lemma LiveRulesKeepForeign(env: Env, s: System)
    requires R.Inv(s.io, s.base, s.now) && BaseInv(env, s)
    ensures SameForeign(env.initial, s.io.firewall)
  {
    R.ForeignRulesStay(s.io, s.base, s.now);
  }

  lemma EventsInvKept(env: Env, s: System, move: Move)
    requires EventsInv(s) && MoveEnabled(env, s, move)
    ensures EventsInv(ApplyMove(env, s, move))
  {
    var s' := ApplyMove(env, s, move);
    if move.Pop? {
      assert s.events == [move.addr] + s'.events;
    } else if s'.fail.pc.Idle? {
      AddressesAppend(s.fail.log, s'.fail.cur);
    }
  }

  lemma StageInvAfterMove(env: Env, s: System, move: Move)
    requires StageInv(env, s) && MoveEnabled(env, s, move)
    ensures StageInv(env, ApplyMove(env, s, move))
  {
  }

  lemma RulesInvAfterMove(env: Env, s: System, move: Move)
    requires StageInv(env, s) && RulesInv(s) && MoveEnabled(env, s, move)
    ensures RulesInv(ApplyMove(env, s, move))
  {
    if move.Stamp? && s.stage.Ready? {
      assert CurDuration(env, s) > 0;
    }
  }

  /** A move erases or replaces the record of a block only once the block is over. */
  lemma RecordsInvAfterMove(env: Env, s: System, move: Move)
    requires FailInv(env.cfg, s.fail, Wall(env, s.now)) && RecordsInv(env, s) && RulesInv(s) && WindowsInv(s)
    requires MoveEnabled(env, s, move)
    ensures RecordsInv(env, ApplyMove(env, s, move))
  {
    var s' := ApplyMove(env, s, move);
    forall i | 0 <= i < |s.blocks| ensures Over(s.blocks[i], s.now) || Holds(env, s'.fail.records, s.blocks[i]) {
      var b := s.blocks[i];
      if !Over(b, s.now) {
        MoveKeepsBlocks(env.cfg, s.fail, move, Wall(env, s.now), b.addr);
        if b.addr !in s'.fail.records {
          TimeoutMeansOver(env, b, s.fail.records[b.addr], s.fail.pc.at, s.now);
        }
      }
    }
  }

  lemma OriginInvAfterMove(env: Env, s: System, move: Move)
    requires FailInv(env.cfg, s.fail, Wall(env, s.now)) && OriginInv(env, s) && StageInv(env, s)
    requires MoveEnabled(env, s, move)
    ensures OriginInv(env, ApplyMove(env, s, move))
  {
    var s' := ApplyMove(env, s, move);
    forall a | a in s'.fail.records && s'.fail.records[a].blockTime > 0
      ensures exists i :: 0 <= i < |s'.blocks| && s'.blocks[i].addr == a && Holds(env, s'.fail.records, s'.blocks[i])
    {
      MoveKeepsBlocks(env.cfg, s.fail, move, Wall(env, s.now), a);
      if move.Stamp? && a == s.fail.cur.addr {
        assert s'.blocks[|s.blocks|].addr == a;
        assert Holds(env, s'.fail.records, s'.blocks[|s.blocks|]);
      } else {
        var i :| 0 <= i < |s.blocks| && s.blocks[i].addr == a && Holds(env, s.fail.records, s.blocks[i]);
        assert s'.blocks[i] == s.blocks[i];
        assert Holds(env, s'.fail.records, s'.blocks[i]);
      }
    }
  }

  /** A block is decided for an address only once its earlier blocks are over. */
  lemma WindowsInvAfterMove(env: Env, s: System, move: Move)
    requires RecordsInv(env, s) && RulesInv(s) && WindowsInv(s) && StageInv(env, s) && MoveEnabled(env, s, move)
    ensures WindowsInv(ApplyMove(env, s, move))
  {
    var s' := ApplyMove(env, s, move);
    if move.Check? && s'.fail.pc.Blocking? {
      var a := s.fail.cur.addr;
      forall i | 0 <= i < |s.blocks| && s.blocks[i].addr == a ensures Over(s.blocks[i], s.now) {
        if !Over(s.blocks[i], s.now) {
          TimeoutMeansOver(env, s.blocks[i], s.fail.records[a], Wall(env, s.now), s.now);
        }
      }
    }
  }

  lemma DecisionsInvAfterMove(env: Env, s: System, move: Move)
    requires FailInv(env.cfg, s.fail, Wall(env, s.now)) && StageInv(env, s) && DecisionsInv(env, s)
    requires MoveEnabled(env, s, move)
    ensures DecisionsInv(env, ApplyMove(env, s, move))
  {
    StartedAfterMove(env.cfg, s.fail, move, Wall(env, s.now));
  }

  lemma FailMoveKeepsInv(env: Env, s: System, move: Move)
    requires Inv(env, s) && MoveEnabled(env, s, move)
    ensures Inv(env, ApplyMove(env, s, move))
  {
    FailInvKept(env.cfg, s.fail, move, Wall(env, s.now));
    EventsInvKept(env, s, move);
    StageInvAfterMove(env, s, move);
    RulesInvAfterMove(env, s, move);
    RecordsInvAfterMove(env, s, move);
    OriginInvAfterMove(env, s, move);
    WindowsInvAfterMove(env, s, move);
    DecisionsInvAfterMove(env, s, move);
  }

  /** Handlers and timers, and the two threads when they post and arm. */
  predicate IsIoAction(a: Action) {
    a.FailPost? || a.FailArm? || a.SuccPost? || a.SuccArm? || a.IoMove?
  }

  /** The event loop's own action behind an action of the system. */
  function IoPart(env: Env, s: System, a: Action): R.Action
    requires IsIoAction(a)
  {
    match a
    case FailPost(name) => R.Post(name, s.fail.cur.addr)
    case FailArm => R.Arm(if s.stage.ToArm? then s.stage.id else 0, s.now + CurDuration(env, s) as real)
    case SuccPost(name) => R.Post(name, if s.succ.WantsPost? then s.succ.addr else "")
    case SuccArm =>
      if s.succ.WantsArm? then R.Arm(s.succ.id, s.now + s.succ.duration as real) else R.Arm(0, s.now)
    case IoMove(io) => io
  }

  lemma IoPartIsEnabled(env: Env, s: System, a: Action)
    requires Enabled(env, s, a) && IsIoAction(a)
    ensures R.Enabled(s.io, IoPart(env, s, a), s.now)
    ensures Apply(env, s, a).io == R.Apply(s.io, IoPart(env, s, a), s.now)
    ensures Apply(env, s, a).fail == s.fail && Apply(env, s, a).blocks == s.blocks && Apply(env, s, a).now == s.now
  {
  }

  lemma IoActionKeepsRules(env: Env, s: System, a: Action)
    requires R.QueueInv(s.io) && RulesInv(s) && Enabled(env, s, a) && IsIoAction(a)
    ensures RulesInv(Apply(env, s, a))
  {
    IoPartIsEnabled(env, s, a);
    R.TasksAfter(s.io, IoPart(env, s, a), s.now);
  }

  lemma PostKeepsStages(env: Env, s: System, a: Action)
    requires R.QueueInv(s.io) && StageInv(env, s) && Enabled(env, s, a) && (a.FailPost? || a.SuccPost?)
    ensures StageInv(env, Apply(env, s, a))
  {
    IoPartIsEnabled(env, s, a);
    R.TasksAfter(s.io, IoPart(env, s, a), s.now);
  }

  lemma ArmKeepsStages(env: Env, s: System, a: Action)
    requires R.QueueInv(s.io) && StageInv(env, s) && Enabled(env, s, a) && (a.FailArm? || a.SuccArm?)
    ensures StageInv(env, Apply(env, s, a))
  {
    IoPartIsEnabled(env, s, a);
    R.TasksAfter(s.io, IoPart(env, s, a), s.now);
  }

  lemma IoMoveKeepsStages(env: Env, s: System, a: Action)
    requires R.QueueInv(s.io) && StageInv(env, s) && Enabled(env, s, a) && a.IoMove?
    ensures StageInv(env, Apply(env, s, a))
  {
    IoPartIsEnabled(env, s, a);
    R.TasksAfter(s.io, a.io, s.now);
  }

  lemma IoActionKeepsInv(env: Env, s: System, a: Action)
    requires Inv(env, s) && Enabled(env, s, a) && IsIoAction(a)
    ensures Inv(env, Apply(env, s, a))
  {
    IoPartIsEnabled(env, s, a);
    R.InvKept(s.io, s.base, IoPart(env, s, a), s.now);
    IoActionKeepsRules(env, s, a);
    if a.IoMove? {
      IoMoveKeepsStages(env, s, a);
    } else if a.FailPost? || a.SuccPost? {
      PostKeepsStages(env, s, a);
    } else {
      ArmKeepsStages(env, s, a);
    }
  }

  lemma TickKeepsInv(env: Env, s: System, until: real)
    requires Inv(env, s) && s.now <= until
    ensures Inv(env, s.(now := until))
  {
    WallIsMonotone(env, s.now, until);
    FailInvLater(env.cfg, s.fail, Wall(env, s.now), Wall(env, until));
  }

  lemma RestartKeepsInv(env: Env, s: System, cleaned: multiset<string>)
    requires Inv(env, s) && Trimmed(s.io.firewall, cleaned, RULE_PREFIX)
    ensures Inv(env, Begin(s.now, cleaned))
  {
    LiveRulesKeepForeign(env, s);
    TrimmedKeepsForeign(s.io.firewall, cleaned);
    BeginInv(env, s.now, cleaned);
  }

  lemma LoginKeepsInv(env: Env, s: System, a: Action)
    requires Inv(env, s) && Enabled(env, s, a) && (a.Deliver? || a.SuccBlock?)
    ensures Inv(env, Apply(env, s, a))
  {
  }

  lemma InvKept(env: Env, s: System, a: Action)
    requires Inv(env, s) && Enabled(env, s, a)
    ensures Inv(env, Apply(env, s, a))
  {
    match a
    case Tick(until) => TickKeepsInv(env, s, until);
    case Deliver(_) => LoginKeepsInv(env, s, a);
    case FailMove(move) => FailMoveKeepsInv(env, s, move);
    case SuccBlock(_, _) => LoginKeepsInv(env, s, a);
    case Restart(cleaned) => RestartKeepsInv(env, s, cleaned);
    case _ => IoActionKeepsInv(env, s, a);
  }

  /** A start from the initial rules: its clean-up may have removed all of the rules it looks for, some, or none. */
  ghost predicate IsStart(env: Env, s: System) {
    s == Begin(s.now, s.base) && Trimmed(env.initial, s.base, RULE_PREFIX)
  }

  lemma StartInv(env: Env, s: System)
    requires IsStart(env, s)
    ensures Inv(env, s)
  {
    TrimmedKeepsForeign(env.initial, s.base);
    BeginInv(env, s.now, s.base);
  }

  ghost predicate IsRun(env: Env, states: seq<System>, actions: seq<Action>) {
    && |states| == |actions| + 1
    && IsStart(env, states[0])
    && (forall k :: 0 <= k < |actions| ==> Enabled(env, states[k], actions[k]))
    && (forall k :: 0 <= k < |actions| ==> states[k + 1] == Apply(env, states[k], actions[k]))
  }

  lemma {:induction false} InvOverRun(env: Env, states: seq<System>, actions: seq<Action>, k: nat)
    requires IsRun(env, states, actions) && k < |states|
    ensures Inv(env, states[k])
  {
    if k == 0 {
      StartInv(env, states[0]);
    } else {
      InvOverRun(env, states, actions, k - 1);
      InvKept(env, states[k - 1], actions[k - 1]);
    }
  }
}
