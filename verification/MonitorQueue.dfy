/**
 * `concurrent_queue` as a monitor: any number of threads push, pop and try to pop; each step of the
 * code that other threads can see is an action, and the actions of all threads interleave freely.
 */
module MonitorQueue {
  import opened Wrappers

  /** Where a thread stands in `push`, in `wait_pop` or in `try_pop`. */
  datatype Pc<T> =
    | Idle
    | Pushing(value: T)          // before the lock
    | PushLocked(value: T)       // has the lock, has not pushed
    | Pushed                     // has the lock, has pushed
    | Notifying                  // has unlocked, has not notified
    | Popping                    // before the lock
    | Testing                    // has the lock, before the first test of the loop
    | Waiting                    // sleeps on the condition variable, without the lock
    | Woken                      // notified, or woken for no reason; before the lock
    | Retesting                  // has the lock again, before the next test
    | TryPopping                 // before the lock
    | TryTesting                 // has the lock, before the only test
    | Taking(woken: bool)        // has the lock, has seen a value
    | Took(taken: T)             // has the lock, has the value

  predicate HoldsLock<T>(pc: Pc<T>) {
    pc.PushLocked? || pc.Pushed? || pc.Testing? || pc.Retesting? || pc.TryTesting? || pc.Taking? || pc.Took?
  }

  predicate WantsLock<T>(pc: Pc<T>) {
    pc.Pushing? || pc.Popping? || pc.Woken? || pc.TryPopping?
  }

  /** `pushed` and `popped` are the values in the order in which they went in and out under the lock. */
  datatype Queue<T> = Queue(items: seq<T>, owner: Option<nat>, pcs: seq<Pc<T>>, pushed: seq<T>, popped: seq<T>)

  datatype Action<T> =
    | StartPush(i: nat, value: T)
    | StartPop(i: nat)
    | StartTryPop(i: nat)
    | Lock(i: nat)
    | Append(i: nat)
    | Unlock(i: nat)
    | Notify(i: nat, chosen: Option<nat>)
    | Test(i: nat)
    | Take(i: nat)
    | WakeSpuriously(i: nat)

  predicate Enabled<T(==)>(s: Queue<T>, a: Action<T>) {
    && a.i < |s.pcs|
    && var pc := s.pcs[a.i];
       match a
       case StartPush(_, _) => pc.Idle?
       case StartPop(_) => pc.Idle?
       case StartTryPop(_) => pc.Idle?
       case Lock(_) => WantsLock(pc) && s.owner.None?
       case Append(_) => pc.PushLocked?
       case Unlock(_) => pc.Pushed? || pc.Took?
       case Notify(_, chosen) =>
         && pc.Notifying?
         && if chosen.Some? then chosen.value < |s.pcs| && s.pcs[chosen.value].Waiting?
            else forall j :: 0 <= j < |s.pcs| ==> !s.pcs[j].Waiting?
       case Test(_) => pc.Testing? || pc.Retesting? || pc.TryTesting?
       case Take(_) => pc.Taking? && s.items != []
       case WakeSpuriously(_) => pc.Waiting?
  }

  function Goto<T>(s: Queue<T>, i: nat, pc: Pc<T>): Queue<T>
    requires i < |s.pcs|
  {
    s.(pcs := s.pcs[i := pc])
  }

  function Locked<T>(pc: Pc<T>): Pc<T>
    requires WantsLock(pc)
  {
    match pc
    case Pushing(v) => PushLocked(v)
    case Popping => Testing
    case Woken => Retesting
    case TryPopping => TryTesting
  }

  function Apply<T(==)>(s: Queue<T>, a: Action<T>): Queue<T>
    requires Enabled(s, a)
  {
    var pc := s.pcs[a.i];
    match a
    case StartPush(i, v) => Goto(s, i, Pushing(v))
    case StartPop(i) => Goto(s, i, Popping)
    case StartTryPop(i) => Goto(s, i, TryPopping)
    case Lock(i) => Goto(s, i, Locked(pc)).(owner := Some(i))
    case Append(i) => Goto(s, i, Pushed).(items := s.items + [pc.value], pushed := s.pushed + [pc.value])
    case Unlock(i) => Goto(s, i, if pc.Pushed? then Notifying else Idle).(owner := None)
    case Notify(i, chosen) =>
      var s' := Goto(s, i, Idle);
      if chosen.Some? then Goto(s', chosen.value, Woken) else s'
    case Test(i) =>
      if s.items != [] then Goto(s, i, Taking(pc.Retesting?))
      else Goto(s, i, if pc.TryTesting? then Idle else Waiting).(owner := None)
    case Take(i) =>
      Goto(s, i, Took(s.items[0])).(items := s.items[1..], popped := s.popped + [s.items[0]])
    case WakeSpuriously(i) => Goto(s, i, Woken)
  }

  /** The thread has pushed a value but has not yet notified. */
  predicate OwesNotify<T>(pc: Pc<T>) {
    pc.Pushed? || pc.Notifying?
  }

  /** The thread was woken and has not yet taken a value or found that there is none. */
  predicate IsAwake<T>(pc: Pc<T>) {
    pc.Woken? || pc.Retesting? || (pc.Taking? && pc.woken)
  }

  ghost function NotifiesPending<T>(pcs: seq<Pc<T>>): set<nat> {
    set i: nat | i < |pcs| && OwesNotify(pcs[i])
  }

  ghost function Awake<T>(pcs: seq<Pc<T>>): set<nat> {
    set i: nat | i < |pcs| && IsAwake(pcs[i])
  }

  predicate SomeoneWaits<T>(pcs: seq<Pc<T>>) {
    exists i :: 0 <= i < |pcs| && pcs[i].Waiting?
  }

  /** At most one thread is in a critical section: the owner of the lock. */
  ghost predicate Mutex<T>(s: Queue<T>) {
    && (forall i: nat :: i < |s.pcs| ==> (HoldsLock(s.pcs[i]) <==> s.owner == Some(i)))
    && (s.owner.Some? ==> s.owner.value < |s.pcs|)
  }

  ghost predicate Fifo<T>(s: Queue<T>) {
    s.popped + s.items == s.pushed
  }

  ghost predicate TakersFindValues<T>(s: Queue<T>) {
    forall i :: 0 <= i < |s.pcs| && s.pcs[i].Taking? ==> s.items != []
  }

  /** A thread that has taken a value, and has not yet given up the lock, has the last value that came out. */
  ghost predicate TakenIsLast<T>(s: Queue<T>) {
    forall i :: 0 <= i < |s.pcs| && s.pcs[i].Took? ==> s.popped != [] && s.pcs[i].taken == s.popped[|s.popped| - 1]
  }

  /** While someone sleeps, there are no more values than wake-ups still to come or still at work. */
  ghost predicate NoLostWakeup<T>(s: Queue<T>) {
    SomeoneWaits(s.pcs) ==> |s.items| <= |NotifiesPending(s.pcs)| + |Awake(s.pcs)|
  }

  ghost predicate Inv<T>(s: Queue<T>) {
    Mutex(s) && Fifo(s) && TakersFindValues(s) && TakenIsLast(s) && NoLostWakeup(s)
  }

  function Initial<T>(threads: nat): Queue<T> {
    Queue([], None, seq(threads, _ => Idle), [], [])
  }

  lemma InvInitially<T>(threads: nat)
    ensures Inv(Initial<T>(threads))
  {
  }

  lemma MutexKept<T>(s: Queue<T>, a: Action<T>)
    requires Mutex(s) && Enabled(s, a)
    ensures Mutex(Apply(s, a))
  {
  }

  lemma FifoKept<T>(s: Queue<T>, a: Action<T>)
    requires Fifo(s) && Enabled(s, a)
    ensures Fifo(Apply(s, a))
  {
  }

  lemma TakersKept<T>(s: Queue<T>, a: Action<T>)
    requires Mutex(s) && TakersFindValues(s) && Enabled(s, a)
    ensures TakersFindValues(Apply(s, a))
  {
  }

  lemma TakenKept<T>(s: Queue<T>, a: Action<T>)
    requires Mutex(s) && TakenIsLast(s) && Enabled(s, a)
    ensures TakenIsLast(Apply(s, a))
  {
    forall i | 0 <= i < |s.pcs| && Apply(s, a).pcs[i].Took? && i != a.i
      ensures Apply(s, a).popped == s.popped && s.pcs[i].Took?
    {
      assert HoldsLock(s.pcs[i]);
    }
  }

  function One(b: bool): nat {
    if b then 1 else 0
  }

  ghost function Marked(marks: seq<bool>): set<nat> {
    set i: nat | i < |marks| && marks[i]
  }

  lemma MarkOne(marks: seq<bool>, i: nat, mark: bool)
    requires i < |marks|
    ensures |Marked(marks[i := mark])| == |Marked(marks)| - One(marks[i]) + One(mark)
  {
    if mark {
      assert Marked(marks[i := mark]) == Marked(marks) + {i};
    } else {
      assert Marked(marks[i := mark]) == Marked(marks) - {i};
    }
  }

  lemma NotifiesAfterMove<T>(pcs: seq<Pc<T>>, i: nat, pc: Pc<T>)
    requires i < |pcs|
    ensures |NotifiesPending(pcs[i := pc])| == |NotifiesPending(pcs)| - One(OwesNotify(pcs[i])) + One(OwesNotify(pc))
  {
    var marks := seq(|pcs|, k requires 0 <= k < |pcs| => OwesNotify(pcs[k]));
    MarkOne(marks, i, OwesNotify(pc));
    assert NotifiesPending(pcs) == Marked(marks);
    assert NotifiesPending(pcs[i := pc]) == Marked(marks[i := OwesNotify(pc)]);
  }

  lemma AwakeAfterMove<T>(pcs: seq<Pc<T>>, i: nat, pc: Pc<T>)
    requires i < |pcs|
    ensures |Awake(pcs[i := pc])| == |Awake(pcs)| - One(IsAwake(pcs[i])) + One(IsAwake(pc))
  {
    var marks := seq(|pcs|, k requires 0 <= k < |pcs| => IsAwake(pcs[k]));
    MarkOne(marks, i, IsAwake(pc));
    assert Awake(pcs) == Marked(marks);
    assert Awake(pcs[i := pc]) == Marked(marks[i := IsAwake(pc)]);
  }

  /** How the counts change when one thread moves. */
  lemma CountsAfterMove<T>(pcs: seq<Pc<T>>, i: nat, pc: Pc<T>)
    requires i < |pcs|
    ensures |NotifiesPending(pcs[i := pc])| == |NotifiesPending(pcs)| - One(OwesNotify(pcs[i])) + One(OwesNotify(pc))
    ensures |Awake(pcs[i := pc])| == |Awake(pcs)| - One(IsAwake(pcs[i])) + One(IsAwake(pc))
    ensures SomeoneWaits(pcs[i := pc]) && !pc.Waiting? ==> SomeoneWaits(pcs)
  {
    NotifiesAfterMove(pcs, i, pc);
    AwakeAfterMove(pcs, i, pc);
    if SomeoneWaits(pcs[i := pc]) && !pc.Waiting? {
      var j :| 0 <= j < |pcs| && pcs[i := pc][j].Waiting?;
      assert pcs[j].Waiting?;
    }
  }

  lemma NotifyKeepsWakeups<T>(s: Queue<T>, a: Action<T>)
    requires Inv(s) && Enabled(s, a) && a.Notify?
    ensures NoLostWakeup(Apply(s, a))
  {
    var mid := s.pcs[a.i := Idle];
    CountsAfterMove(s.pcs, a.i, Idle);
    if a.chosen.Some? {
      assert mid[a.chosen.value].Waiting?;
      CountsAfterMove(mid, a.chosen.value, Woken);
    }
  }

  lemma NoLostWakeupKept<T>(s: Queue<T>, a: Action<T>)
    requires Inv(s) && Enabled(s, a)
    ensures NoLostWakeup(Apply(s, a))
  {
    if a.Notify? {
      NotifyKeepsWakeups(s, a);
    } else {
      CountsAfterMove(s.pcs, a.i, Apply(s, a).pcs[a.i]);
    }
  }

  lemma InvKept<T>(s: Queue<T>, a: Action<T>)
    requires Inv(s) && Enabled(s, a)
    ensures Inv(Apply(s, a))
  {
    MutexKept(s, a);
    FifoKept(s, a);
    TakersKept(s, a);
    TakenKept(s, a);
    NoLostWakeupKept(s, a);
  }

  ghost predicate IsRun<T>(threads: nat, states: seq<Queue<T>>, actions: seq<Action<T>>) {
    && |states| == |actions| + 1
    && states[0] == Initial(threads)
    && (forall k :: 0 <= k < |actions| ==> Enabled(states[k], actions[k]))
    && (forall k :: 0 <= k < |actions| ==> states[k + 1] == Apply(states[k], actions[k]))
  }

  lemma {:induction false} InvOverRun<T>(threads: nat, states: seq<Queue<T>>, actions: seq<Action<T>>, k: nat)
    requires IsRun(threads, states, actions) && k < |states|
    ensures Inv(states[k])
  {
    if k == 0 {
      InvInitially<T>(threads);
    } else {
      InvOverRun(threads, states, actions, k - 1);
      InvKept(states[k - 1], actions[k - 1]);
    }
  }

  /** In `wait_pop`, without having seen a value. */
  predicate InWaitPop<T>(pc: Pc<T>) {
    pc.Popping? || pc.Testing? || pc.Waiting? || pc.Woken? || pc.Retesting?
  }

  /** In `try_pop`, before its test. */
  predicate InTryPop<T>(pc: Pc<T>) {
    pc.TryPopping? || pc.TryTesting?
  }

  predicate HasSeenValue<T>(pc: Pc<T>) {
    pc.Taking? || pc.Took?
  }

  /** A waiting pop goes to sleep exactly when its test finds nothing; it cannot end without having seen a value. */
  lemma WaitPopStep<T>(s: Queue<T>, a: Action<T>, i: nat)
    requires Enabled(s, a) && i < |s.pcs| && InWaitPop(s.pcs[i])
    ensures
      var pc, pc' := s.pcs[i], Apply(s, a).pcs[i];
      && (InWaitPop(pc') || pc'.Taking?)
      && (a == Test(i) ==> if s.items == [] then pc'.Waiting? else pc'.Taking?)
      && (a != Test(i) && !pc.Waiting? ==> !pc'.Waiting? && !pc'.Taking?)
  {
  }

  /** A pop that does not wait never sleeps, and gives up exactly when its test finds nothing. */
  lemma TryPopStep<T>(s: Queue<T>, a: Action<T>, i: nat)
    requires Enabled(s, a) && i < |s.pcs| && InTryPop(s.pcs[i])
    ensures
      var pc' := Apply(s, a).pcs[i];
      if a == Test(i) then (if s.items == [] then pc'.Idle? && Apply(s, a).owner.None? else pc'.Taking?)
      else InTryPop(pc')
  {
  }

  /** Either kind of pop that has seen a value takes the oldest one, and ends with the one it took. */
  lemma TakerStep<T>(s: Queue<T>, a: Action<T>, i: nat)
    requires Enabled(s, a) && i < |s.pcs| && HasSeenValue(s.pcs[i])
    ensures
      var pc, pc' := s.pcs[i], Apply(s, a).pcs[i];
      if a == Take(i) then pc' == Took(s.items[0])
      else if a == Unlock(i) then pc.Took? && pc'.Idle?
      else pc' == pc
  {
  }

  /** From action `j` to action `k` the thread is in one and the same call. */
  ghost predicate SameCall<T>(states: seq<Queue<T>>, i: nat, j: nat, k: nat)
    requires k <= |states|
  {
    forall m :: j <= m < k ==> i < |states[m].pcs| && !states[m].pcs[i].Idle?
  }

  /** Where a call of `wait_pop` can be after a step that it was in before: returning means having had a value. */
  predicate WaitPopGoesOn<T>(before: Pc<T>, after: Pc<T>) {
    InWaitPop(after) || HasSeenValue(after) || (after.Idle? && before.Took?)
  }

  /** In every run, a call of `wait_pop` that has returned had a value: it cannot come back empty-handed. */
  lemma {:induction false} WaitPopEndsWithValue<T>(threads: nat, states: seq<Queue<T>>, actions: seq<Action<T>>,
                                                   j: nat, k: nat, i: nat)
    requires IsRun(threads, states, actions) && j < k < |states| && actions[j] == StartPop(i)
    requires SameCall(states, i, j + 1, k)
    ensures i < |states[k - 1].pcs| && i < |states[k].pcs| && WaitPopGoesOn(states[k - 1].pcs[i], states[k].pcs[i])
    decreases k
  {
    var s, a := states[k - 1], actions[k - 1];
    if j < k - 1 {
      WaitPopEndsWithValue(threads, states, actions, j, k - 1, i);
      if InWaitPop(s.pcs[i]) {
        WaitPopStep(s, a, i);
      } else {
        TakerStep(s, a, i);
      }
    } else {
      assert Enabled(s, a);
    }
  }

  /** The same for `try_pop`: it returns with a value, or straight from a test that found nothing. */
  predicate TryPopGoesOn<T>(s: Queue<T>, i: nat, after: Pc<T>)
    requires i < |s.pcs|
  {
    || InTryPop(after) || HasSeenValue(after)
    || (after.Idle? && (s.pcs[i].Took? || (s.pcs[i].TryTesting? && s.items == [])))
  }

  /** In every run, a call of `try_pop` is never asleep, and has returned without a value only if there was none. */
  lemma {:induction false} TryPopNeverSleeps<T>(threads: nat, states: seq<Queue<T>>, actions: seq<Action<T>>,
                                                j: nat, k: nat, i: nat)
    requires IsRun(threads, states, actions) && j < k < |states| && actions[j] == StartTryPop(i)
    requires SameCall(states, i, j + 1, k)
    ensures i < |states[k - 1].pcs| && i < |states[k].pcs| && TryPopGoesOn(states[k - 1], i, states[k].pcs[i])
    decreases k
  {
    var s, a := states[k - 1], actions[k - 1];
    if j < k - 1 {
      TryPopNeverSleeps(threads, states, actions, j, k - 1, i);
      if InTryPop(s.pcs[i]) {
        TryPopStep(s, a, i);
      } else {
        TakerStep(s, a, i);
      }
    } else {
      assert Enabled(s, a);
    }
  }

  /** Where a call of `push` stands: it still has its value, or it has put it in. */
  ghost predicate InPush<T>(pc: Pc<T>, value: T, done: bool) {
    if done then pc.Pushed? || pc.Notifying? || pc.Idle? else pc == Pushing(value) || pc == PushLocked(value)
  }

  /** What an action puts in. */
  function PutIn<T>(s: Queue<T>, a: Action<T>): seq<T> {
    if a.Append? && a.i < |s.pcs| && s.pcs[a.i].PushLocked? then [s.pcs[a.i].value] else []
  }

  /** A push takes its value through the call, and puts it in last. */
  lemma PushStep<T>(s: Queue<T>, a: Action<T>, i: nat, value: T, done: bool)
    requires Enabled(s, a) && i < |s.pcs| && InPush(s.pcs[i], value, done) && !s.pcs[i].Idle?
    ensures Apply(s, a).pushed == s.pushed + PutIn(s, a)
    ensures
      var put := if a.i == i then PutIn(s, a) else [];
      InPush(Apply(s, a).pcs[i], value, done || put != []) && (put == [] || (!done && put == [value]))
  {
  }

  /** The values that thread `i` puts in from action `j` to action `k`. */
  function PutInBy<T>(states: seq<Queue<T>>, actions: seq<Action<T>>, i: nat, j: nat, k: nat): seq<T>
    requires j <= k <= |actions| && k <= |states|
  {
    if j == k then []
    else
      PutInBy(states, actions, i, j, k - 1)
      + if actions[k - 1].i == i then PutIn(states[k - 1], actions[k - 1]) else []
  }

  /** Since action `j`, where thread `i` called `push`, it has put in its value, once, or it still has it. */
  ghost predicate PushGoesOn<T>(states: seq<Queue<T>>, actions: seq<Action<T>>, i: nat, j: nat, k: nat, value: T)
    requires j <= k <= |actions| && k < |states|
  {
    var put := PutInBy(states, actions, i, j, k);
    && (put == [] || put == [value])
    && i < |states[k].pcs| && InPush(states[k].pcs[i], value, put != [])
  }

  lemma PushStarts<T>(threads: nat, states: seq<Queue<T>>, actions: seq<Action<T>>, j: nat, i: nat, value: T)
    requires IsRun(threads, states, actions) && j + 1 < |states| && actions[j] == StartPush(i, value)
    ensures PushGoesOn(states, actions, i, j, j + 1, value)
  {
    assert PutInBy(states, actions, i, j, j) == [];
    assert Enabled(states[j], actions[j]);
  }

  lemma PushContinues<T>(states: seq<Queue<T>>, actions: seq<Action<T>>, i: nat, j: nat, k: nat, value: T)
    requires j < k <= |actions| && k < |states| && PushGoesOn(states, actions, i, j, k - 1, value)
    requires Enabled(states[k - 1], actions[k - 1]) && states[k] == Apply(states[k - 1], actions[k - 1])
    requires !states[k - 1].pcs[i].Idle?
    ensures PushGoesOn(states, actions, i, j, k, value)
  {
    var put := PutInBy(states, actions, i, j, k - 1);
    PushStep(states[k - 1], actions[k - 1], i, value, put != []);
  }

  /** In every run, a call of `push` puts in its value, once, and before it returns. */
  lemma {:induction false} PushPutsInOnce<T>(threads: nat, states: seq<Queue<T>>, actions: seq<Action<T>>,
                                             j: nat, k: nat, i: nat, value: T)
    requires IsRun(threads, states, actions) && j < k < |states| && actions[j] == StartPush(i, value)
    requires SameCall(states, i, j + 1, k)
    ensures PushGoesOn(states, actions, i, j, k, value)
    decreases k
  {
    if j + 1 < k {
      PushPutsInOnce(threads, states, actions, j, k - 1, i, value);
      PushContinues(states, actions, i, j, k, value);
    } else {
      PushStarts(threads, states, actions, j, i, value);
    }
  }

  /** The values with which calls have returned, in the order in which they returned. */
  function Returned<T>(states: seq<Queue<T>>, actions: seq<Action<T>>, k: nat): seq<T>
    requires k <= |states| && k <= |actions|
  {
    if k == 0 then []
    else
      var s, a := states[k - 1], actions[k - 1];
      Returned(states, actions, k - 1)
      + if a.Unlock? && a.i < |s.pcs| && s.pcs[a.i].Took? then [s.pcs[a.i].taken] else []
  }

  /** The value of the thread that has taken one and is about to return it. */
  function InHand<T>(s: Queue<T>): seq<T> {
    if s.owner.Some? && s.owner.value < |s.pcs| && s.pcs[s.owner.value].Took? then [s.pcs[s.owner.value].taken] else []
  }

  lemma HandAfter<T>(s: Queue<T>, a: Action<T>)
    requires Mutex(s) && Enabled(s, a)
    ensures
      var s' := Apply(s, a);
      if a.Take? then InHand(s) == [] && s'.popped == s.popped + InHand(s')
      else if a.Unlock? && s.pcs[a.i].Took? then
        s'.popped == s.popped && InHand(s') == [] && InHand(s) == [s.pcs[a.i].taken]
      else s'.popped == s.popped && InHand(s') == InHand(s)
  {
    assert HoldsLock(s.pcs[a.i]) <==> s.owner == Some(a.i);
    MutexKept(s, a);
  }

  lemma {:induction false} ReturnedInOrder<T>(threads: nat, states: seq<Queue<T>>, actions: seq<Action<T>>, k: nat)
    requires IsRun(threads, states, actions) && k < |states|
    ensures Returned(states, actions, k) + InHand(states[k]) == states[k].popped
  {
    if k > 0 {
      ReturnedInOrder(threads, states, actions, k - 1);
      InvOverRun(threads, states, actions, k - 1);
      HandAfter(states[k - 1], actions[k - 1]);
    }
  }

  /**
   * In every interleaving, the calls return the values in the order in which they went in, none lost and
   * none twice: those returned, the one that is about to be returned, and the queue are those pushed.
   */
  lemma LinearizableFifo<T>(threads: nat, states: seq<Queue<T>>, actions: seq<Action<T>>, k: nat)
    requires IsRun(threads, states, actions) && k < |states|
    ensures Returned(states, actions, k) + InHand(states[k]) + states[k].items == states[k].pushed
    ensures forall i, j :: 0 <= i < j < |states[k].pcs| ==>
      !(HoldsLock(states[k].pcs[i]) && HoldsLock(states[k].pcs[j]))
  {
    InvOverRun(threads, states, actions, k);
    ReturnedInOrder(threads, states, actions, k);
  }

  /** Everyone who pops sleeps, and everyone else is done: then there is nothing to pop. */
  lemma NoSleepOverValues<T>(threads: nat, states: seq<Queue<T>>, actions: seq<Action<T>>, k: nat)
    requires IsRun(threads, states, actions) && k < |states|
    requires SomeoneWaits(states[k].pcs)
    requires forall i :: 0 <= i < |states[k].pcs| ==> !OwesNotify(states[k].pcs[i]) && !IsAwake(states[k].pcs[i])
    ensures states[k].items == []
  {
    InvOverRun(threads, states, actions, k);
    assert NotifiesPending(states[k].pcs) == {} && Awake(states[k].pcs) == {};
  }

  /** While a value waits for a sleeper, some thread in the middle of a call can go on without a spurious wake-up. */
  lemma ValuesKeepMoving<T>(s: Queue<T>) returns (a: Action<T>)
    requires Inv(s) && s.items != [] && SomeoneWaits(s.pcs)
    ensures Enabled(s, a) && !a.WakeSpuriously? && !a.StartPush? && !a.StartPop? && !a.StartTryPop?
  {
    if s.owner.Some? {
      var i := s.owner.value;
      var pc := s.pcs[i];
      a := if pc.PushLocked? then Append(i)
           else if pc.Pushed? || pc.Took? then Unlock(i)
           else if pc.Taking? then Take(i)
           else Test(i);
    } else if NotifiesPending(s.pcs) != {} {
      var i: nat :| i in NotifiesPending(s.pcs);
      var j :| 0 <= j < |s.pcs| && s.pcs[j].Waiting?;
      a := Notify(i, Some(j));
    } else {
      assert Awake(s.pcs) != {};
      var i: nat :| i in Awake(s.pcs);
      a := Lock(i);
    }
  }
}
