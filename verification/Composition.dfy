/**
 * The program with its queue spelled out: callbacks on any number of threads push failed logins
 * through the monitor, and the failed-login thread, which is thread 0 of the monitor, pops them.
 */
module Composition {
  import opened FailBan
  import opened FailMachine
  import opened BlockingSystem
  import Q = MonitorQueue

  datatype Whole = Whole(queue: Q.Queue<Addr>, sys: System)

  /** A push and a pop take effect in the queue and in the rest of the program at once, under the lock. */
  datatype Step =
    | Queue(q: Q.Action<Addr>)
    | Push(i: nat)
    | Pop
    | Sys(a: Action)

  /** Callbacks only push; the thread only pops, between events, and handles what it popped once out of the queue. */
  ghost predicate StepEnabled(env: Env, w: Whole, step: Step) {
    match step
    case Queue(q) =>
      && Q.Enabled(w.queue, q) && !q.Append? && !q.Take? && !q.StartTryPop?
      && (q.StartPush? ==> q.i != 0)
      && (q.StartPop? ==> q.i == 0 && w.sys.fail.pc.Idle?)
    case Push(i) => Q.Enabled(w.queue, Q.Append(i))
    case Pop =>
      Q.Enabled(w.queue, Q.Take(0)) && Enabled(env, w.sys, FailMove(FailMachine.Pop(w.queue.items[0])))
    case Sys(a) =>
      && Enabled(env, w.sys, a) && !a.Deliver? && !(a.FailMove? && a.move.Pop?)
      && (a.FailMove? || a.FailPost? || a.FailArm? ==> w.queue.pcs != [] && w.queue.pcs[0].Idle?)
  }

  /** A restart starts with a new queue. */
  ghost function StepApply(env: Env, w: Whole, step: Step): Whole
    requires StepEnabled(env, w, step)
  {
    match step
    case Queue(q) => Whole(Q.Apply(w.queue, q), w.sys)
    case Push(i) => Whole(Q.Apply(w.queue, Q.Append(i)), Apply(env, w.sys, Deliver(w.queue.pcs[i].value)))
    case Pop => Whole(Q.Apply(w.queue, Q.Take(0)), Apply(env, w.sys, FailMove(FailMachine.Pop(w.queue.items[0]))))
    case Sys(a) =>
      Whole(if a.Restart? then Q.Initial(|w.queue.pcs|) else w.queue, Apply(env, w.sys, a))
  }

  predicate PushesOnly(pc: Q.Pc<Addr>) {
    pc.Idle? || pc.Pushing? || pc.PushLocked? || pc.Pushed? || pc.Notifying?
  }

  predicate PopsOnly(pc: Q.Pc<Addr>) {
    pc.Idle? || pc.Popping? || pc.Testing? || pc.Waiting? || pc.Woken? || pc.Retesting? || pc.Taking? || pc.Took?
  }

  ghost predicate Roles(w: Whole) {
    && 0 < |w.queue.pcs| && PopsOnly(w.queue.pcs[0])
    && (forall i :: 0 < i < |w.queue.pcs| ==> PushesOnly(w.queue.pcs[i]))
    && (w.queue.pcs[0].Idle? || w.queue.pcs[0].Took? || w.sys.fail.pc.Idle?)
  }

  /** The value that the thread has taken out of the queue is the address of the event that it has in hand. */
  ghost predicate TakenIsInHand(w: Whole) {
    0 < |w.queue.pcs| && w.queue.pcs[0].Took? ==>
      !w.sys.fail.pc.Idle? && w.sys.fail.cur.addr == w.queue.pcs[0].taken
  }

  ghost predicate WholeInv(env: Env, w: Whole) {
    && Q.Inv(w.queue) && Inv(env, w.sys) && Roles(w) && TakenIsInHand(w)
    && w.queue.items == w.sys.events && w.queue.pushed == w.sys.delivered
  }

  lemma RolesKept(env: Env, w: Whole, step: Step)
    requires Q.Mutex(w.queue) && Roles(w) && StepEnabled(env, w, step)
    ensures Roles(StepApply(env, w, step))
  {
  }

  lemma TakenKept(env: Env, w: Whole, step: Step)
    requires Roles(w) && TakenIsInHand(w) && StepEnabled(env, w, step)
    ensures TakenIsInHand(StepApply(env, w, step))
  {
  }

  lemma SysKeepsEvents(env: Env, s: System, a: Action)
    requires Enabled(env, s, a) && !a.Deliver? && !(a.FailMove? && a.move.Pop?)
    ensures
      var s' := Apply(env, s, a);
      if a.Restart? then s'.events == [] && s'.delivered == []
      else s'.events == s.events && s'.delivered == s.delivered
  {
  }

  lemma SysKeepsWhole(env: Env, w: Whole, a: Action)
    requires WholeInv(env, w) && StepEnabled(env, w, Sys(a))
    ensures WholeInv(env, StepApply(env, w, Sys(a)))
  {
    RolesKept(env, w, Sys(a));
    TakenKept(env, w, Sys(a));
    InvKept(env, w.sys, a);
    SysKeepsEvents(env, w.sys, a);
    if a.Restart? {
      Q.InvInitially<Addr>(|w.queue.pcs|);
    }
  }

  lemma WholeInvKept(env: Env, w: Whole, step: Step)
    requires WholeInv(env, w) && StepEnabled(env, w, step)
    ensures WholeInv(env, StepApply(env, w, step))
  {
    RolesKept(env, w, step);
    TakenKept(env, w, step);
    match step
    case Queue(q) => Q.InvKept(w.queue, q);
    case Push(i) =>
      Q.InvKept(w.queue, Q.Append(i));
      InvKept(env, w.sys, Deliver(w.queue.pcs[i].value));
    case Pop =>
      Q.InvKept(w.queue, Q.Take(0));
      InvKept(env, w.sys, FailMove(FailMachine.Pop(w.queue.items[0])));
    case Sys(a) => SysKeepsWhole(env, w, a);
  }

  ghost predicate IsWholeRun(env: Env, threads: nat, states: seq<Whole>, steps: seq<Step>) {
    && 0 < threads && |states| == |steps| + 1
    && states[0].queue == Q.Initial(threads) && IsStart(env, states[0].sys)
    && (forall k :: 0 <= k < |steps| ==> StepEnabled(env, states[k], steps[k]))
    && (forall k :: 0 <= k < |steps| ==> states[k + 1] == StepApply(env, states[k], steps[k]))
  }

  lemma {:induction false} WholeInvOverRun(env: Env, threads: nat, states: seq<Whole>, steps: seq<Step>, k: nat)
    requires IsWholeRun(env, threads, states, steps) && k < |states|
    ensures WholeInv(env, states[k])
  {
    if k == 0 {
      Q.InvInitially<Addr>(threads);
      StartInv(env, states[0].sys);
    } else {
      WholeInvOverRun(env, threads, states, steps, k - 1);
      WholeInvKept(env, states[k - 1], steps[k - 1]);
    }
  }

  /** A step that ends a call of the thread to the queue, when it is not a restart, is the end of a pop with a value. */
  lemma CallEndsWithValue(env: Env, w: Whole, step: Step)
    requires Roles(w) && StepEnabled(env, w, step) && !(step.Sys? && step.a.Restart?)
    requires !w.queue.pcs[0].Idle? && StepApply(env, w, step).queue.pcs[0].Idle?
    ensures w.queue.pcs[0].Took?
  {
    if step.Queue? {
      if Q.InWaitPop(w.queue.pcs[0]) {
        Q.WaitPopStep(w.queue, step.q, 0);
      } else {
        Q.TakerStep(w.queue, step.q, 0);
      }
    }
  }

  lemma CancelSuffix(s: seq<Addr>, t: seq<Addr>, suffix: seq<Addr>)
    requires s + suffix == t + suffix
    ensures s == t
  {
    assert s == (s + suffix)[..|s|];
  }

  /**
   * In every interleaving, whenever the thread is between events its table is the fold of the
   * sequential step over what it has popped, which is a prefix of what the callbacks have pushed.
   */
  lemma RefinesSequentialFold(env: Env, threads: nat, states: seq<Whole>, steps: seq<Step>, k: nat)
    requires IsWholeRun(env, threads, states, steps) && k < |states| && states[k].sys.fail.pc.Idle?
    ensures
      var w := states[k];
      && Genuine(env.cfg, w.sys.fail.log)
      && w.sys.fail.records == State(env.cfg, w.sys.fail.log)
      && Addresses(w.sys.fail.log) == w.queue.popped <= w.queue.pushed
  {
    WholeInvOverRun(env, threads, states, steps, k);
    var w := states[k];
    CancelSuffix(w.queue.popped, Addresses(w.sys.fail.log), w.queue.items);
  }

  /**
   * In every interleaving, the thread comes back from the queue only with the oldest value pushed and
   * not yet popped, and that is the event that it then handles.
   */
  lemma PopReturnsNextEvent(env: Env, threads: nat, states: seq<Whole>, steps: seq<Step>, k: nat)
    requires IsWholeRun(env, threads, states, steps) && k < |steps| && !(steps[k].Sys? && steps[k].a.Restart?)
    requires states[k].queue.pcs != [] && states[k + 1].queue.pcs != []
    requires !states[k].queue.pcs[0].Idle? && states[k + 1].queue.pcs[0].Idle?
    ensures
      var w := states[k];
      && !w.sys.fail.pc.Idle? && w.queue.popped != []
      && w.queue.popped == Addresses(w.sys.fail.log) + [w.sys.fail.cur.addr] <= w.queue.pushed
      && w.queue.pcs[0] == Q.Took(w.sys.fail.cur.addr)
  {
    WholeInvOverRun(env, threads, states, steps, k);
    var w := states[k];
    CallEndsWithValue(env, w, steps[k]);
    CancelSuffix(w.queue.popped, Addresses(w.sys.fail.log) + [w.sys.fail.cur.addr], w.queue.items);
  }

  /** The thread sleeps, and no callback is about to notify it, only once every pushed failure has been handled. */
  lemma AsleepMeansDone(env: Env, threads: nat, states: seq<Whole>, steps: seq<Step>, k: nat)
    requires IsWholeRun(env, threads, states, steps) && k < |states|
    requires states[k].queue.pcs != [] && states[k].queue.pcs[0].Waiting?
    requires forall i :: 0 <= i < |states[k].queue.pcs| ==> !Q.OwesNotify(states[k].queue.pcs[i])
    ensures Addresses(states[k].sys.fail.log) == states[k].queue.pushed
    ensures states[k].sys.fail.records == State(env.cfg, states[k].sys.fail.log)
  {
    WholeInvOverRun(env, threads, states, steps, k);
    var w := states[k];
    assert Q.NotifiesPending(w.queue.pcs) == {} && Q.Awake(w.queue.pcs) == {};
    RefinesSequentialFold(env, threads, states, steps, k);
  }
}
