/**
 * The tasks that add a blocking rule now and delete it later, on an event loop whose handlers one
 * thread runs in the order in which they were queued. Any number of threads may post tasks.
 */
module RuleTasks {
  import opened FirewallController

  datatype AddStage = AddQueued | AddRan(ok: bool)
  datatype DeleteStage = Unarmed | Armed | DeleteQueued | DeleteRan(ok: bool)

  /** `due` is the steady-clock instant that the timer was armed for; 0 until then. */
  datatype Task = Task(name: string, addr: string, add: AddStage, delete: DeleteStage, due: real)

  datatype Handler = Add(id: nat) | Delete(id: nat)

  datatype Effect = Posted(id: nat) | Expired(id: nat) | Added(id: nat, ok: bool) | Deleted(id: nat, ok: bool)

  /** A task is known by its place in `tasks`; `history` is what has happened so far. */
  datatype Io = Io(tasks: seq<Task>, queue: seq<Handler>, firewall: multiset<string>, history: seq<Effect>)

  datatype Action = Post(name: string, addr: string) | Arm(id: nat, due: real) | Expire(id: nat) | Run(ok: bool)

  /** The assumption on random names: a new one is neither in the firewall nor that of a task that is not finished. */
  predicate NameIsFree(io: Io, name: string) {
    && IsRuleName(name) && io.firewall[name] == 0
    && forall id :: 0 <= id < |io.tasks| && io.tasks[id].name == name ==> io.tasks[id].delete.DeleteRan?
  }

  predicate CanApply(io: Io, a: Action, now: real) {
    match a
    case Post(_, _) => true
    case Arm(id, _) => id < |io.tasks| && io.tasks[id].delete.Unarmed?
    case Expire(id) => id < |io.tasks| && io.tasks[id].delete.Armed? && io.tasks[id].due <= now
    case Run(_) => io.queue != [] && io.queue[0].id < |io.tasks|
  }

  predicate Enabled(io: Io, a: Action, now: real) {
    CanApply(io, a, now) && (a.Post? ==> NameIsFree(io, a.name))
  }

  function Apply(io: Io, a: Action, now: real): Io
    requires CanApply(io, a, now)
  {
    match a
    case Post(name, addr) =>
      var id := |io.tasks|;
      io.(tasks := io.tasks + [Task(name, addr, AddQueued, Unarmed, 0.0)],
          queue := io.queue + [Add(id)],
          history := io.history + [Posted(id)])
    case Arm(id, due) =>
      io.(tasks := io.tasks[id := io.tasks[id].(delete := Armed, due := due)])
    case Expire(id) =>
      io.(tasks := io.tasks[id := io.tasks[id].(delete := DeleteQueued)],
          queue := io.queue + [Delete(id)],
          history := io.history + [Expired(id)])
    case Run(ok) =>
      var id, rest := io.queue[0].id, io.queue[1..];
      if io.queue[0].Add? then
        io.(tasks := io.tasks[id := io.tasks[id].(add := AddRan(ok))],
            queue := rest,
            firewall := io.firewall + if ok then multiset{io.tasks[id].name} else multiset{},
            history := io.history + [Added(id, ok)])
      else
        io.(tasks := io.tasks[id := io.tasks[id].(delete := DeleteRan(ok))],
            queue := rest,
            firewall := io.firewall - if ok then multiset{io.tasks[id].name} else multiset{},
            history := io.history + [Deleted(id, ok)])
  }

  /** The rule that a task has in the firewall at the moment, if any. */
  function Live(t: Task): multiset<string> {
    if t.add == AddRan(true) && t.delete != DeleteRan(true) then multiset{t.name} else multiset{}
  }

  /** The task is not finished, or its rule was left behind because deleting it failed. */
  predicate InUse(t: Task) {
    !t.delete.DeleteRan? || Live(t) != multiset{}
  }

  function LiveNames(tasks: seq<Task>): multiset<string> {
    if tasks == [] then multiset{} else LiveNames(tasks[..|tasks| - 1]) + Live(tasks[|tasks| - 1])
  }

  /** No handler is queued twice, and no delete handler stands before the add handler of its task. */
  ghost predicate QueueInOrder(queue: seq<Handler>) {
    && (forall i, j :: 0 <= i < j < |queue| ==> queue[i] != queue[j])
    && (forall i, j :: 0 <= i < j < |queue| && queue[i].Delete? ==> queue[j] != Add(queue[i].id))
  }

  /** The queue holds exactly the handlers that the tasks are waiting for. */
  ghost predicate QueueMatches(tasks: seq<Task>, queue: seq<Handler>) {
    && (forall h :: h in queue ==> h.id < |tasks|)
    && (forall id: nat :: id < |tasks| ==> (Add(id) in queue <==> tasks[id].add.AddQueued?))
    && (forall id: nat :: id < |tasks| ==> (Delete(id) in queue <==> tasks[id].delete.DeleteQueued?))
  }

  ghost predicate AddedBeforeDeleted(tasks: seq<Task>) {
    forall id :: 0 <= id < |tasks| && tasks[id].delete.DeleteRan? ==> tasks[id].add.AddRan?
  }

  ghost predicate QueueInv(io: Io) {
    QueueInOrder(io.queue) && QueueMatches(io.tasks, io.queue) && AddedBeforeDeleted(io.tasks)
  }

  /** Names in use are distinct, and foreign to the rules that were there before. */
  ghost predicate NamesInv(io: Io, base: multiset<string>) {
    && (forall id :: 0 <= id < |io.tasks| ==> IsRuleName(io.tasks[id].name))
    && (forall id :: 0 <= id < |io.tasks| && InUse(io.tasks[id]) ==> base[io.tasks[id].name] == 0)
    && (forall i, j :: 0 <= i < j < |io.tasks| && InUse(io.tasks[i]) && InUse(io.tasks[j]) ==>
          io.tasks[i].name != io.tasks[j].name)
  }

  /** The history has the stages that the tasks have reached. */
  ghost predicate HistoryMatches(tasks: seq<Task>, h: seq<Effect>) {
    && (forall id: nat :: Posted(id) in h <==> id < |tasks|)
    && (forall id: nat :: Expired(id) in h <==>
          id < |tasks| && (tasks[id].delete.DeleteQueued? || tasks[id].delete.DeleteRan?))
    && (forall id: nat, ok :: Added(id, ok) in h <==> id < |tasks| && tasks[id].add == AddRan(ok))
    && (forall id: nat, ok :: Deleted(id, ok) in h <==> id < |tasks| && tasks[id].delete == DeleteRan(ok))
  }

  predicate SameStage(e: Effect, f: Effect) {
    && e.id == f.id
    && (e.Posted? <==> f.Posted?) && (e.Expired? <==> f.Expired?) && (e.Deleted? <==> f.Deleted?)
  }

  ghost predicate StagesOnce(h: seq<Effect>) {
    forall i, j :: 0 <= i < j < |h| ==> !SameStage(h[i], h[j])
  }

  /** Every stage happens at most once, an add after its post, a delete after its expiry and its add. */
  ghost predicate InOrder(h: seq<Effect>) {
    && StagesOnce(h)
    && (forall i :: 0 <= i < |h| && h[i].Added? ==> Posted(h[i].id) in h[..i])
    && (forall i :: 0 <= i < |h| && h[i].Deleted? ==>
          Expired(h[i].id) in h[..i] && (Added(h[i].id, true) in h[..i] || Added(h[i].id, false) in h[..i]))
  }

  /** The handler that an effect has put into the queue. */
  function QueuedBy(e: Effect): seq<Handler> {
    match e
    case Posted(id) => [Add(id)]
    case Expired(id) => [Delete(id)]
    case _ => []
  }

  /** The handler whose run an effect is. */
  function RunBy(e: Effect): seq<Handler> {
    match e
    case Added(id, _) => [Add(id)]
    case Deleted(id, _) => [Delete(id)]
    case _ => []
  }

  function Queued(h: seq<Effect>): seq<Handler> {
    if h == [] then [] else Queued(h[..|h| - 1]) + QueuedBy(h[|h| - 1])
  }

  function Ran(h: seq<Effect>): seq<Handler> {
    if h == [] then [] else Ran(h[..|h| - 1]) + RunBy(h[|h| - 1])
  }

  /** At every moment of the history, the handlers that had run were the first of those queued, in that order. */
  ghost predicate FirstInFirstRun(h: seq<Effect>) {
    h == [] || (FirstInFirstRun(h[..|h| - 1]) && Ran(h) <= Queued(h))
  }

  /** Posts are numbered in their order. */
  ghost predicate PostsNumbered(h: seq<Effect>) {
    forall i, j :: 0 <= i < j < |h| && h[i].Posted? && h[j].Posted? ==> h[i].id < h[j].id
  }

  /** The handlers that have run and those that still wait are those queued, in the order in which they were. */
  ghost predicate OrderInv(io: Io) {
    && Ran(io.history) + io.queue == Queued(io.history) && FirstInFirstRun(io.history)
    && PostsNumbered(io.history)
  }

  ghost predicate HistoryInv(io: Io) {
    HistoryMatches(io.tasks, io.history) && InOrder(io.history)
  }

  /** No delete handler is queued or run before its deadline. */
  ghost predicate DueInv(io: Io, now: real) {
    forall id :: 0 <= id < |io.tasks| && (io.tasks[id].delete.DeleteQueued? || io.tasks[id].delete.DeleteRan?) ==>
      io.tasks[id].due <= now
  }

  ghost predicate Inv(io: Io, base: multiset<string>, now: real) {
    && QueueInv(io) && NamesInv(io, base) && HistoryInv(io) && DueInv(io, now)
    && io.firewall == base + LiveNames(io.tasks)
  }

  lemma {:induction false} OwnRuleIsLive(tasks: seq<Task>, id: nat)
    requires id < |tasks|
    ensures Live(tasks[id]) <= LiveNames(tasks)
  {
    if id < |tasks| - 1 {
      OwnRuleIsLive(tasks[..|tasks| - 1], id);
    }
  }

  lemma LiveCountLast(tasks: seq<Task>, t: Task, name: string)
    ensures LiveNames(tasks + [t])[name] == LiveNames(tasks)[name] + Live(t)[name]
  {
    assert (tasks + [t])[..|tasks|] == tasks;
  }

  lemma {:induction false} LiveCountUpdate(tasks: seq<Task>, id: nat, t: Task, name: string)
    requires id < |tasks|
    ensures Live(tasks[id])[name] <= LiveNames(tasks)[name]
    ensures LiveNames(tasks[id := t])[name] == LiveNames(tasks)[name] - Live(tasks[id])[name] + Live(t)[name]
  {
    var before, last := tasks[..|tasks| - 1], tasks[|tasks| - 1];
    assert tasks == before + [last];
    LiveCountLast(before, last, name);
    if id < |before| {
      assert tasks[id := t] == before[id := t] + [last];
      LiveCountLast(before[id := t], last, name);
      LiveCountUpdate(before, id, t, name);
    } else {
      assert tasks[id := t] == before + [t];
      LiveCountLast(before, t, name);
    }
  }

  lemma LiveNamesUpdate(tasks: seq<Task>, id: nat, t: Task)
    requires id < |tasks|
    ensures LiveNames(tasks[id := t]) == LiveNames(tasks) - Live(tasks[id]) + Live(t)
  {
    forall name: string {
      LiveCountUpdate(tasks, id, t, name);
    }
  }

  lemma {:induction false} LiveNameHasTask(tasks: seq<Task>, name: string) returns (id: nat)
    requires name in LiveNames(tasks)
    ensures id < |tasks| && tasks[id].name == name && name in Live(tasks[id])
  {
    var n := |tasks| - 1;
    if name in Live(tasks[n]) {
      id := n;
    } else {
      id := LiveNameHasTask(tasks[..n], name);
    }
  }

  lemma QueueGrows(queue: seq<Handler>, h: Handler)
    requires QueueInOrder(queue) && h !in queue && (h.Add? ==> Delete(h.id) !in queue)
    ensures QueueInOrder(queue + [h])
  {
  }

  lemma QueueShrinks(queue: seq<Handler>)
    requires QueueInOrder(queue) && queue != []
    ensures QueueInOrder(queue[1..])
    ensures forall h :: h in queue[1..] <==> h in queue && h != queue[0]
    ensures queue[0].Delete? ==> Add(queue[0].id) !in queue
  {
    assert queue == [queue[0]] + queue[1..];
  }

  /** The handler at the head is the next one that its task waits for; a delete handler finds the rule added. */
  lemma AddRunsBeforeDelete(io: Io)
    requires QueueInv(io) && io.queue != []
    ensures io.queue[0].Add? ==> io.tasks[io.queue[0].id].add.AddQueued? && !io.tasks[io.queue[0].id].delete.DeleteRan?
    ensures io.queue[0].Delete? ==>
              io.tasks[io.queue[0].id].add.AddRan? && io.tasks[io.queue[0].id].delete.DeleteQueued?
  {
    assert io.queue[0] in io.queue;
    QueueShrinks(io.queue);
  }

  lemma QueueInvAfterRun(io: Io, a: Action, now: real)
    requires QueueInv(io) && Enabled(io, a, now) && a.Run?
    ensures QueueInv(Apply(io, a, now))
  {
    QueueShrinks(io.queue);
    assert io.queue[0] in io.queue;
  }

  lemma QueueInvKept(io: Io, a: Action, now: real)
    requires QueueInv(io) && Enabled(io, a, now)
    ensures QueueInv(Apply(io, a, now))
  {
    match a
    case Post(_, _) =>
      QueueGrows(io.queue, Add(|io.tasks|));
    case Arm(_, _) =>
    case Expire(id) =>
      QueueGrows(io.queue, Delete(id));
    case Run(_) =>
      QueueInvAfterRun(io, a, now);
  }

  lemma NamesInvAfterPost(io: Io, base: multiset<string>, a: Action, now: real)
    requires NamesInv(io, base) && Enabled(io, a, now) && io.firewall == base + LiveNames(io.tasks) && a.Post?
    ensures NamesInv(Apply(io, a, now), base)
  {
    forall id | 0 <= id < |io.tasks| && InUse(io.tasks[id]) ensures io.tasks[id].name != a.name {
      OwnRuleIsLive(io.tasks, id);
    }
  }

  lemma NamesInvUpdate(io: Io, io': Io, base: multiset<string>, id: nat, t: Task)
    requires NamesInv(io, base) && id < |io.tasks| && io'.tasks == io.tasks[id := t]
    requires t.name == io.tasks[id].name && (InUse(t) ==> InUse(io.tasks[id]))
    ensures NamesInv(io', base)
  {
  }

  lemma NamesInvKept(io: Io, base: multiset<string>, a: Action, now: real)
    requires NamesInv(io, base) && Enabled(io, a, now) && io.firewall == base + LiveNames(io.tasks) && QueueInv(io)
    ensures NamesInv(Apply(io, a, now), base)
  {
    if a.Post? {
      NamesInvAfterPost(io, base, a, now);
    } else {
      if a.Run? {
        AddRunsBeforeDelete(io);
      }
      var id := if a.Run? then io.queue[0].id else a.id;
      NamesInvUpdate(io, Apply(io, a, now), base, id, Apply(io, a, now).tasks[id]);
    }
  }

  lemma HistoryGrows(h: seq<Effect>, e: Effect)
    requires InOrder(h) && forall f :: f in h ==> !SameStage(f, e)
    requires e.Added? ==> Posted(e.id) in h
    requires e.Deleted? ==> Expired(e.id) in h && (Added(e.id, true) in h || Added(e.id, false) in h)
    ensures InOrder(h + [e])
  {
    var h' := h + [e];
    assert h'[..|h|] == h;
    forall i | 0 <= i < |h| ensures h'[..i] == h[..i] {
    }
  }

  lemma AddMatches(tasks: seq<Task>, h: seq<Effect>, id: nat, ok: bool)
    requires HistoryMatches(tasks, h) && id < |tasks| && tasks[id].add.AddQueued?
    ensures HistoryMatches(tasks[id := tasks[id].(add := AddRan(ok))], h + [Added(id, ok)])
  {
  }

  lemma AddRecorded(tasks: seq<Task>, h: seq<Effect>, id: nat, ok: bool)
    requires HistoryMatches(tasks, h) && InOrder(h) && id < |tasks| && tasks[id].add.AddQueued?
    ensures HistoryMatches(tasks[id := tasks[id].(add := AddRan(ok))], h + [Added(id, ok)])
    ensures InOrder(h + [Added(id, ok)])
  {
    AddMatches(tasks, h, id, ok);
    assert Added(id, true) !in h && Added(id, false) !in h;
    HistoryGrows(h, Added(id, ok));
  }

  lemma DeleteMatches(tasks: seq<Task>, h: seq<Effect>, id: nat, ok: bool)
    requires HistoryMatches(tasks, h) && id < |tasks| && tasks[id].delete.DeleteQueued?
    ensures HistoryMatches(tasks[id := tasks[id].(delete := DeleteRan(ok))], h + [Deleted(id, ok)])
  {
  }

  lemma DeleteRecorded(tasks: seq<Task>, h: seq<Effect>, id: nat, ok: bool)
    requires HistoryMatches(tasks, h) && InOrder(h)
    requires id < |tasks| && tasks[id].delete.DeleteQueued? && tasks[id].add.AddRan?
    ensures HistoryMatches(tasks[id := tasks[id].(delete := DeleteRan(ok))], h + [Deleted(id, ok)])
    ensures InOrder(h + [Deleted(id, ok)])
  {
    DeleteMatches(tasks, h, id, ok);
    assert Added(id, tasks[id].add.ok) in h;
    assert Deleted(id, true) !in h && Deleted(id, false) !in h;
    HistoryGrows(h, Deleted(id, ok));
  }

  lemma PostRecorded(tasks: seq<Task>, h: seq<Effect>, t: Task)
    requires HistoryMatches(tasks, h) && InOrder(h) && t.add.AddQueued? && t.delete.Unarmed?
    ensures HistoryMatches(tasks + [t], h + [Posted(|tasks|)]) && InOrder(h + [Posted(|tasks|)])
  {
    HistoryGrows(h, Posted(|tasks|));
  }

  lemma ExpiryRecorded(tasks: seq<Task>, h: seq<Effect>, id: nat)
    requires HistoryMatches(tasks, h) && InOrder(h) && id < |tasks| && tasks[id].delete.Armed?
    ensures HistoryMatches(tasks[id := tasks[id].(delete := DeleteQueued)], h + [Expired(id)])
    ensures InOrder(h + [Expired(id)])
  {
    assert Expired(id) !in h;
    HistoryGrows(h, Expired(id));
  }

  lemma HistoryInvKept(io: Io, a: Action, now: real)
    requires QueueInv(io) && HistoryInv(io) && Enabled(io, a, now)
    ensures HistoryInv(Apply(io, a, now))
  {
    match a
    case Post(name, addr) =>
      PostRecorded(io.tasks, io.history, Task(name, addr, AddQueued, Unarmed, 0.0));
    case Arm(_, _) =>
    case Expire(id) =>
      ExpiryRecorded(io.tasks, io.history, id);
    case Run(ok) =>
      QueueShrinks(io.queue);
      var id := io.queue[0].id;
      assert io.queue[0] in io.queue;
      if io.queue[0].Add? {
        AddRecorded(io.tasks, io.history, id, ok);
      } else {
        DeleteRecorded(io.tasks, io.history, id, ok);
      }
  }

  lemma NumberedGrows(h: seq<Effect>, e: Effect)
    requires PostsNumbered(h) && (e.Posted? ==> forall id: nat :: Posted(id) in h ==> id < e.id)
    ensures PostsNumbered(h + [e])
  {
    forall i | e.Posted? && 0 <= i < |h| && h[i].Posted? ensures h[i].id < e.id {
      assert Posted(h[i].id) in h;
    }
  }

  lemma OneMoreEffect(h: seq<Effect>, e: Effect)
    ensures Queued(h + [e]) == Queued(h) + QueuedBy(e) && Ran(h + [e]) == Ran(h) + RunBy(e)
  {
    assert (h + [e])[..|h|] == h;
  }

  lemma MoveAlong(ran: seq<Handler>, run: seq<Handler>, queue: seq<Handler>, queue': seq<Handler>, more: seq<Handler>)
    requires run + queue' == queue + more
    ensures ran + run + queue' == ran + queue + more
  {
    assert ran + run + queue' == ran + (run + queue');
    assert ran + queue + more == ran + (queue + more);
  }

  lemma FirstRunGrows(h: seq<Effect>, e: Effect)
    requires FirstInFirstRun(h) && Ran(h + [e]) <= Queued(h + [e])
    ensures FirstInFirstRun(h + [e])
  {
    assert (h + [e])[..|h|] == h;
  }

  /** An effect that takes its handler from the head of the queue, or puts one in last, keeps the order. */
  lemma OrderGrows(h: seq<Effect>, e: Effect, queue: seq<Handler>, queue': seq<Handler>)
    requires Ran(h) + queue == Queued(h) && FirstInFirstRun(h) && RunBy(e) + queue' == queue + QueuedBy(e)
    ensures Ran(h + [e]) + queue' == Queued(h + [e]) && FirstInFirstRun(h + [e])
  {
    var h' := h + [e];
    assert Ran(h') + queue' == Queued(h') by {
      OneMoreEffect(h, e);
      MoveAlong(Ran(h), RunBy(e), queue, queue', QueuedBy(e));
    }
    FirstRunGrows(h, e);
  }

  lemma EffectMatchesQueue(io: Io, a: Action, now: real) returns (e: Effect)
    requires Enabled(io, a, now) && !a.Arm?
    ensures
      var io' := Apply(io, a, now);
      && io'.history == io.history + [e] && RunBy(e) + io'.queue == io.queue + QueuedBy(e)
      && (e.Posted? ==> e.id == |io.tasks|)
  {
    e := Apply(io, a, now).history[|io.history|];
  }

  /** Every action of every thread keeps the order of handlers. */
  lemma OrderInvKept(io: Io, a: Action, now: real)
    requires HistoryMatches(io.tasks, io.history) && OrderInv(io) && Enabled(io, a, now)
    ensures OrderInv(Apply(io, a, now))
  {
    if !a.Arm? {
      var e := EffectMatchesQueue(io, a, now);
      NumberedGrows(io.history, e);
      OrderGrows(io.history, e, io.queue, Apply(io, a, now).queue);
    }
  }

  lemma {:induction false} QueuedHasEffect(h: seq<Effect>, g: Handler) returns (p: nat)
    requires g in Queued(h)
    ensures p < |h| && QueuedBy(h[p]) == [g]
  {
    if g in Queued(h[..|h| - 1]) {
      p := QueuedHasEffect(h[..|h| - 1], g);
    } else {
      p := |h| - 1;
    }
  }

  lemma {:induction false} RanHasEffect(h: seq<Effect>, g: Handler) returns (t: nat)
    requires g in Ran(h)
    ensures t < |h| && RunBy(h[t]) == [g]
  {
    if g in Ran(h[..|h| - 1]) {
      t := RanHasEffect(h[..|h| - 1], g);
    } else {
      t := |h| - 1;
    }
  }

  lemma {:induction false} QueuedOnce(h: seq<Effect>)
    requires StagesOnce(h)
    ensures forall i, j :: 0 <= i < j < |Queued(h)| ==> Queued(h)[i] != Queued(h)[j]
  {
    if h != [] {
      var before, e := h[..|h| - 1], h[|h| - 1];
      QueuedOnce(before);
      if QueuedBy(e) != [] && QueuedBy(e)[0] in Queued(before) {
        var p := QueuedHasEffect(before, QueuedBy(e)[0]);
        assert h[p] == before[p];
      }
    }
  }

  /** The place of a handler among those queued: after those queued before it. */
  lemma {:induction false} QueuedAt(h: seq<Effect>, p: nat, g: Handler)
    requires p < |h| && QueuedBy(h[p]) == [g]
    ensures |Queued(h[..p])| < |Queued(h)| && Queued(h)[|Queued(h[..p])|] == g
  {
    if p < |h| - 1 {
      QueuedAt(h[..|h| - 1], p, g);
      assert h[..|h| - 1][..p] == h[..p];
    }
  }

  /** What has run by some moment is, in that order, the first that was ever queued. */
  lemma {:induction false} RanByThen(h: seq<Effect>, n: nat)
    requires FirstInFirstRun(h) && n <= |h|
    ensures |Ran(h[..n])| <= |Queued(h)|
    ensures forall k :: 0 <= k < |Ran(h[..n])| ==> Ran(h[..n])[k] == Queued(h)[k]
  {
    if n < |h| {
      RanByThen(h[..|h| - 1], n);
      assert h[..|h| - 1][..n] == h[..n];
    } else {
      assert h[..n] == h;
    }
  }

  lemma {:induction false} RanAt(h: seq<Effect>, r: nat, g: Handler)
    requires FirstInFirstRun(h) && r < |h| && RunBy(h[r]) == [g]
    ensures |Ran(h[..r])| < |Queued(h)| && Queued(h)[|Ran(h[..r])|] == g
  {
    if r < |h| - 1 {
      RanAt(h[..|h| - 1], r, g);
      assert h[..|h| - 1][..r] == h[..r];
    } else {
      assert Ran(h)[|Ran(h[..r])|] == g;
    }
  }

  /** A handler queued before another one has run before it runs. */
  lemma FirstQueuedFirstRun(h: seq<Effect>, p: nat, q: nat, r: nat, first: Handler, second: Handler) returns (t: nat)
    requires StagesOnce(h) && FirstInFirstRun(h) && p < q < |h| && r < |h|
    requires QueuedBy(h[p]) == [first] && QueuedBy(h[q]) == [second] && RunBy(h[r]) == [second]
    ensures t < r && RunBy(h[t]) == [first]
  {
    var m, n := |Queued(h[..p])|, |Ran(h[..r])|;
    QueuedAt(h, p, first);
    QueuedAt(h, q, second);
    QueuedAt(h[..q], p, first);
    assert h[..q][..p] == h[..p];
    RanAt(h, r, second);
    QueuedOnce(h);
    assert m < |Queued(h[..q])| == n;
    RanByThen(h, r);
    assert Ran(h[..r])[m] == first;
    t := RanHasEffect(h[..r], first);
  }

  /** When a task's rule is added, those of all tasks posted before it have been, or adding them has failed. */
  ghost predicate AddsInPostOrder(h: seq<Effect>) {
    forall r, i: nat :: 0 <= r < |h| && h[r].Added? && i < h[r].id ==>
      Added(i, true) in h[..r] || Added(i, false) in h[..r]
  }

  /** When a task's rule is deleted, those of all tasks whose timers expired before have been, or have failed to be. */
  ghost predicate DeletesInExpiryOrder(h: seq<Effect>) {
    forall p, q, r :: 0 <= p < q < |h| && 0 <= r < |h| && h[p].Expired? && h[q].Expired?
                      && h[r].Deleted? && h[r].id == h[q].id ==>
      Deleted(h[p].id, true) in h[..r] || Deleted(h[p].id, false) in h[..r]
  }

  lemma EffectAt(h: seq<Effect>, e: Effect) returns (p: nat)
    requires e in h
    ensures p < |h| && h[p] == e
  {
    p :| 0 <= p < |h| && h[p] == e;
  }

  lemma PostedBefore(h: seq<Effect>, p: nat, q: nat)
    requires PostsNumbered(h) && p < |h| && q < |h| && h[p].Posted? && h[q].Posted? && h[p].id < h[q].id
    ensures p < q
  {
  }

  lemma AddedByThen(h: seq<Effect>, t: nat, r: nat, i: nat)
    requires t < r <= |h| && RunBy(h[t]) == [Add(i)]
    ensures Added(i, true) in h[..r] || Added(i, false) in h[..r]
  {
    assert h[..r][t] == h[t];
  }

  lemma PostsInOrder(h: seq<Effect>, i: nat, j: nat) returns (p: nat, q: nat)
    requires PostsNumbered(h) && i < j && Posted(i) in h && Posted(j) in h
    ensures p < q < |h| && h[p] == Posted(i) && h[q] == Posted(j)
  {
    p := EffectAt(h, Posted(i));
    q := EffectAt(h, Posted(j));
    PostedBefore(h, p, q);
  }

  lemma AddRunsInPostOrder(h: seq<Effect>, r: nat, i: nat)
    requires StagesOnce(h) && FirstInFirstRun(h) && PostsNumbered(h)
    requires r < |h| && h[r].Added? && i < h[r].id && Posted(i) in h && Posted(h[r].id) in h
    ensures Added(i, true) in h[..r] || Added(i, false) in h[..r]
  {
    var p, q := PostsInOrder(h, i, h[r].id);
    var t := FirstQueuedFirstRun(h, p, q, r, Add(i), Add(h[r].id));
    AddedByThen(h, t, r, i);
  }

  lemma PostedIfAdded(tasks: seq<Task>, h: seq<Effect>, r: nat, i: nat)
    requires HistoryMatches(tasks, h) && r < |h| && h[r].Added? && i <= h[r].id
    ensures Posted(i) in h
  {
    assert Added(h[r].id, h[r].ok) in h;
  }

  lemma AddsRunInPostOrder(tasks: seq<Task>, h: seq<Effect>)
    requires HistoryMatches(tasks, h) && StagesOnce(h) && FirstInFirstRun(h) && PostsNumbered(h)
    ensures AddsInPostOrder(h)
  {
    forall r, i: nat | 0 <= r < |h| && h[r].Added? && i < h[r].id
      ensures Added(i, true) in h[..r] || Added(i, false) in h[..r]
    {
      PostedIfAdded(tasks, h, r, i);
      PostedIfAdded(tasks, h, r, h[r].id);
      AddRunsInPostOrder(h, r, i);
    }
  }

  lemma DeletesRunInExpiryOrder(h: seq<Effect>)
    requires StagesOnce(h) && FirstInFirstRun(h)
    ensures DeletesInExpiryOrder(h)
  {
    forall p, q, r | 0 <= p < q < |h| && 0 <= r < |h| && h[p].Expired? && h[q].Expired?
                     && h[r].Deleted? && h[r].id == h[q].id
      ensures Deleted(h[p].id, true) in h[..r] || Deleted(h[p].id, false) in h[..r]
    {
      var t := FirstQueuedFirstRun(h, p, q, r, Delete(h[p].id), Delete(h[q].id));
      assert h[..r][t] == h[t];
    }
  }

  lemma TakeOwn(base: multiset<string>, live: multiset<string>, own: multiset<string>, name: string)
    requires if own == multiset{} then name !in base && name !in live else own == multiset{name} <= live
    ensures base + live - multiset{name} == base + (live - own)
  {
  }

  lemma AddOwn(base: multiset<string>, live: multiset<string>, own: multiset<string>)
    ensures base + live + own == base + (live - multiset{} + own)
  {
  }

  /** An unfinished task whose rule is not there shares its name with no rule that is. */
  lemma NameOfAbsentRule(io: Io, base: multiset<string>, id: nat)
    requires NamesInv(io, base) && id < |io.tasks| && InUse(io.tasks[id])
    ensures io.tasks[id].name !in base
    ensures Live(io.tasks[id]) == multiset{} ==> io.tasks[id].name !in LiveNames(io.tasks)
  {
    var name := io.tasks[id].name;
    assert base[name] == 0;
    if Live(io.tasks[id]) == multiset{} && name in LiveNames(io.tasks) {
      var other := LiveNameHasTask(io.tasks, name);
      assert false;
    }
  }

  /** Deleting the rule of a task takes away that rule and no other; nothing, if adding it had failed. */
  lemma DeleteTakesOwnRule(io: Io, base: multiset<string>, id: nat)
    requires NamesInv(io, base) && id < |io.tasks| && io.tasks[id].delete.DeleteQueued?
    ensures base + LiveNames(io.tasks) - multiset{io.tasks[id].name} ==
            base + (LiveNames(io.tasks) - Live(io.tasks[id]))
  {
    NameOfAbsentRule(io, base, id);
    OwnRuleIsLive(io.tasks, id);
    TakeOwn(base, LiveNames(io.tasks), Live(io.tasks[id]), io.tasks[id].name);
  }

  lemma SameLiveNames(tasks: seq<Task>, id: nat, t: Task)
    requires id < |tasks| && Live(t) == Live(tasks[id])
    ensures LiveNames(tasks[id := t]) == LiveNames(tasks)
  {
    OwnRuleIsLive(tasks, id);
    LiveNamesUpdate(tasks, id, t);
  }

  lemma FirewallAfterAdd(tasks: seq<Task>, base: multiset<string>, id: nat, ok: bool)
    requires id < |tasks| && tasks[id].add.AddQueued? && !tasks[id].delete.DeleteRan?
    ensures base + LiveNames(tasks) + (if ok then multiset{tasks[id].name} else multiset{}) ==
            base + LiveNames(tasks[id := tasks[id].(add := AddRan(ok))])
  {
    var t := tasks[id].(add := AddRan(ok));
    LiveNamesUpdate(tasks, id, t);
    AddOwn(base, LiveNames(tasks), Live(t));
  }

  lemma FirewallAfterDelete(io: Io, base: multiset<string>, id: nat, ok: bool)
    requires NamesInv(io, base) && id < |io.tasks| && io.tasks[id].delete.DeleteQueued?
    ensures base + LiveNames(io.tasks) - (if ok then multiset{io.tasks[id].name} else multiset{}) ==
            base + LiveNames(io.tasks[id := io.tasks[id].(delete := DeleteRan(ok))])
  {
    if ok {
      DeleteTakesOwnRule(io, base, id);
      LiveNamesUpdate(io.tasks, id, io.tasks[id].(delete := DeleteRan(true)));
    } else {
      SameLiveNames(io.tasks, id, io.tasks[id].(delete := DeleteRan(false)));
    }
  }

  lemma RunOfAdd(io: Io, ok: bool, now: real)
    requires Enabled(io, Run(ok), now) && io.queue[0].Add?
    ensures
      var id, io' := io.queue[0].id, Apply(io, Run(ok), now);
      && io'.tasks == io.tasks[id := io.tasks[id].(add := AddRan(ok))]
      && io'.firewall == io.firewall + if ok then multiset{io.tasks[id].name} else multiset{}
  {
  }

  lemma RunOfDelete(io: Io, ok: bool, now: real)
    requires Enabled(io, Run(ok), now) && io.queue[0].Delete?
    ensures
      var id, io' := io.queue[0].id, Apply(io, Run(ok), now);
      && io'.tasks == io.tasks[id := io.tasks[id].(delete := DeleteRan(ok))]
      && io'.firewall == io.firewall - if ok then multiset{io.tasks[id].name} else multiset{}
  {
  }

  lemma FirewallAfterRun(io: Io, base: multiset<string>, ok: bool, now: real)
    requires NamesInv(io, base) && QueueInv(io) && Enabled(io, Run(ok), now)
    requires io.firewall == base + LiveNames(io.tasks)
    ensures Apply(io, Run(ok), now).firewall == base + LiveNames(Apply(io, Run(ok), now).tasks)
  {
    AddRunsBeforeDelete(io);
    if io.queue[0].Delete? {
      RunOfDelete(io, ok, now);
      FirewallAfterDelete(io, base, io.queue[0].id, ok);
    } else {
      RunOfAdd(io, ok, now);
      FirewallAfterAdd(io.tasks, base, io.queue[0].id, ok);
    }
  }

  lemma QueuedTaskIsNotLive(tasks: seq<Task>, t: Task)
    requires t.add.AddQueued?
    ensures LiveNames(tasks + [t]) == LiveNames(tasks)
  {
    assert (tasks + [t])[..|tasks|] == tasks;
  }

  /** Posting, arming and expiring change no rule. */
  lemma SameRulesUnlessRun(io: Io, a: Action, now: real)
    requires Enabled(io, a, now) && !a.Run?
    ensures LiveNames(Apply(io, a, now).tasks) == LiveNames(io.tasks)
    ensures Apply(io, a, now).firewall == io.firewall
  {
    var tasks' := Apply(io, a, now).tasks;
    if a.Post? {
      QueuedTaskIsNotLive(io.tasks, tasks'[|io.tasks|]);
    } else {
      SameLiveNames(io.tasks, a.id, tasks'[a.id]);
    }
  }

  lemma FirewallKept(io: Io, base: multiset<string>, a: Action, now: real)
    requires NamesInv(io, base) && QueueInv(io) && Enabled(io, a, now)
    requires io.firewall == base + LiveNames(io.tasks)
    ensures Apply(io, a, now).firewall == base + LiveNames(Apply(io, a, now).tasks)
  {
    if a.Run? {
      FirewallAfterRun(io, base, a.ok, now);
    } else {
      SameRulesUnlessRun(io, a, now);
    }
  }

  lemma DueInvKept(io: Io, a: Action, now: real)
    requires QueueInv(io) && DueInv(io, now) && Enabled(io, a, now)
    ensures DueInv(Apply(io, a, now), now)
  {
    if a.Run? {
      AddRunsBeforeDelete(io);
    }
  }

  /** Every action of every thread keeps the invariant, and so does the passing of time. */
  lemma InvKept(io: Io, base: multiset<string>, a: Action, now: real)
    requires Inv(io, base, now) && Enabled(io, a, now)
    ensures Inv(Apply(io, a, now), base, now)
  {
    QueueInvKept(io, a, now);
    NamesInvKept(io, base, a, now);
    HistoryInvKept(io, a, now);
    FirewallKept(io, base, a, now);
    DueInvKept(io, a, now);
  }

  /** What an action leaves alone in the tasks that were there before it. */
  lemma TasksAfter(io: Io, a: Action, now: real)
    requires QueueInv(io) && Enabled(io, a, now)
    ensures
      var tasks' := Apply(io, a, now).tasks;
      && |tasks'| == |io.tasks| + (if a.Post? then 1 else 0)
      && forall id :: 0 <= id < |io.tasks| ==>
           && tasks'[id].addr == io.tasks[id].addr
           && (!(a.Arm? && a.id == id) ==>
                 tasks'[id].due == io.tasks[id].due && (tasks'[id].delete.Unarmed? <==> io.tasks[id].delete.Unarmed?))
  {
    if a.Run? {
      AddRunsBeforeDelete(io);
    }
  }

  /** A name stays free until it is posted. */
  lemma NameStaysFree(io: Io, a: Action, now: real, name: string)
    requires QueueInv(io) && Enabled(io, a, now) && NameIsFree(io, name) && (a.Post? ==> a.name != name)
    ensures NameIsFree(Apply(io, a, now), name)
  {
    if a.Run? {
      AddRunsBeforeDelete(io);
    }
  }

  lemma InvInitially(base: multiset<string>, now: real)
    ensures Inv(Io([], [], base, []), base, now)
  {
  }

  /** The actions that a task still has before it. */
  function TaskWork(t: Task): nat {
    (if t.add.AddQueued? then 1 else 0)
    + match t.delete
      case Unarmed => 3
      case Armed => 2
      case DeleteQueued => 1
      case DeleteRan(_) => 0
  }

  function Work(tasks: seq<Task>): nat {
    if tasks == [] then 0 else Work(tasks[..|tasks| - 1]) + TaskWork(tasks[|tasks| - 1])
  }

  lemma {:induction false} WorkUpdate(tasks: seq<Task>, id: nat, t: Task)
    requires id < |tasks|
    ensures Work(tasks[id := t]) == Work(tasks) - TaskWork(tasks[id]) + TaskWork(t)
  {
    var n := |tasks| - 1;
    if id < n {
      WorkUpdate(tasks[..n], id, t);
      assert tasks[id := t][..n] == tasks[..n][id := t];
    } else {
      assert tasks[id := t][..n] == tasks[..n];
    }
  }

  lemma RunUsesUpWork(io: Io, a: Action, now: real)
    requires QueueInv(io) && Enabled(io, a, now) && a.Run?
    ensures Work(Apply(io, a, now).tasks) == Work(io.tasks) - 1
  {
    AddRunsBeforeDelete(io);
    WorkUpdate(io.tasks, io.queue[0].id, Apply(io, a, now).tasks[io.queue[0].id]);
  }

  /** Posting adds the four actions of a task's life; every other action is one of them. */
  lemma ActionsUseUpWork(io: Io, a: Action, now: real)
    requires QueueInv(io) && Enabled(io, a, now)
    ensures Work(Apply(io, a, now).tasks) == if a.Post? then Work(io.tasks) + 4 else Work(io.tasks) - 1
  {
    var tasks' := Apply(io, a, now).tasks;
    match a
    case Post(_, _) =>
      assert tasks'[..|io.tasks|] == io.tasks;
    case Arm(id, _) =>
      WorkUpdate(io.tasks, id, tasks'[id]);
    case Expire(id) =>
      WorkUpdate(io.tasks, id, tasks'[id]);
    case Run(_) =>
      RunUsesUpWork(io, a, now);
  }

  /** Nothing is left to do at `now` but wait for a new block. */
  ghost predicate Quiet(io: Io, now: real) {
    forall a :: Enabled(io, a, now) ==> a.Post?
  }

  predicate DeadlinesPassed(io: Io, now: real) {
    forall id :: 0 <= id < |io.tasks| && io.tasks[id].delete.Armed? ==> io.tasks[id].due <= now
  }

  predicate Finished(t: Task) {
    t.add.AddRan? && t.delete.DeleteRan?
  }

  predicate AllFinished(tasks: seq<Task>) {
    forall id :: 0 <= id < |tasks| ==> Finished(tasks[id])
  }

  lemma {:induction false} NothingLeftToDo(tasks: seq<Task>)
    requires AllFinished(tasks)
    ensures Work(tasks) == 0
  {
    if tasks != [] {
      NothingLeftToDo(tasks[..|tasks| - 1]);
    }
  }

  lemma {:induction false} NoneLive(tasks: seq<Task>)
    requires forall id :: 0 <= id < |tasks| ==> Live(tasks[id]) == multiset{}
    ensures LiveNames(tasks) == multiset{}
  {
    if tasks != [] {
      NoneLive(tasks[..|tasks| - 1]);
    }
  }

  /** Every rule that was added has been deleted. */
  ghost predicate AllDeleted(h: seq<Effect>) {
    forall id: nat :: Added(id, true) in h ==> Deleted(id, true) in h
  }

  /** The firewall is as it was before exactly when every rule that was added has been deleted. */
  lemma RestoredIffAllDeleted(io: Io, base: multiset<string>)
    requires HistoryMatches(io.tasks, io.history) && io.firewall == base + LiveNames(io.tasks)
    ensures io.firewall == base <==> AllDeleted(io.history)
  {
    if AllDeleted(io.history) {
      forall id: nat | id < |io.tasks| ensures Live(io.tasks[id]) == multiset{} {
        assert Added(id, true) in io.history ==> Deleted(id, true) in io.history;
      }
      NoneLive(io.tasks);
    } else {
      var id: nat :| Added(id, true) in io.history && Deleted(id, true) !in io.history;
      OwnRuleIsLive(io.tasks, id);
      assert io.tasks[id].name in LiveNames(io.tasks);
    }
  }

  ghost predicate NoDeleteFailed(h: seq<Effect>) {
    forall id: nat :: Deleted(id, false) !in h
  }

  lemma NoDeleteFails(io: Io, a: Action, now: real)
    requires Enabled(io, a, now) && NoDeleteFailed(io.history) && (a.Run? ==> a.ok)
    ensures NoDeleteFailed(Apply(io, a, now).history)
  {
  }

  /** When all tasks are finished, only a failed deletion can have left a rule behind. */
  lemma FinishedMeansDeleted(io: Io)
    requires HistoryMatches(io.tasks, io.history) && AllFinished(io.tasks) && NoDeleteFailed(io.history)
    ensures AllDeleted(io.history)
  {
    forall id: nat | Added(id, true) in io.history ensures Deleted(id, true) in io.history {
      assert Finished(io.tasks[id]) && Deleted(id, false) !in io.history;
    }
  }

  lemma QuietMeansFinished(io: Io, now: real)
    requires QueueInv(io) && Quiet(io, now) && DeadlinesPassed(io, now)
    ensures io.queue == [] && AllFinished(io.tasks) && Work(io.tasks) == 0
  {
    if io.queue != [] {
      assert io.queue[0] in io.queue;
      assert Enabled(io, Run(true), now);
    }
    forall id | 0 <= id < |io.tasks| ensures io.tasks[id].delete.DeleteRan? {
      assert !Enabled(io, Arm(id, now), now);
      assert !Enabled(io, Expire(id), now);
    }
    NothingLeftToDo(io.tasks);
  }

  /**
   * Once nothing can run and every deadline has passed, all tasks are finished, and the firewall is
   * as it was before but for the rules whose deletion failed.
   */
  lemma QuietMeansRestored(io: Io, base: multiset<string>, now: real)
    requires Inv(io, base, now) && Quiet(io, now) && DeadlinesPassed(io, now)
    ensures AllFinished(io.tasks) && io.queue == [] && Work(io.tasks) == 0
    ensures io.firewall == base <==> AllDeleted(io.history)
  {
    QuietMeansFinished(io, now);
    RestoredIffAllDeleted(io, base);
  }

  /** A loop with unfinished tasks can go on, at once or when the next timer is due, without a new post. */
  lemma NextStep(io: Io, now: real) returns (a: Action, at: real)
    requires QueueInv(io) && !(io.queue == [] && AllFinished(io.tasks))
    ensures now <= at && Enabled(io, a, at) && !a.Post? && (a.Run? ==> a.ok)
  {
    if io.queue != [] {
      assert io.queue[0] in io.queue;
      a, at := Run(true), now;
    } else {
      var id: nat :| id < |io.tasks| && !Finished(io.tasks[id]);
      assert Add(id) !in io.queue && Delete(id) !in io.queue;
      if io.tasks[id].delete.Unarmed? {
        a, at := Arm(id, now), now;
      } else {
        a, at := Expire(id), if io.tasks[id].due <= now then now else io.tasks[id].due;
      }
    }
  }

  /** A run from an empty event loop: `times[k]` is the instant of action `k`. */
  ghost predicate IsRun(base: multiset<string>, states: seq<Io>, actions: seq<Action>, times: seq<real>) {
    && |states| == |actions| + 1 == |times| + 1
    && states[0] == Io([], [], base, [])
    && (forall k :: 0 <= k < |actions| ==> Enabled(states[k], actions[k], times[k]))
    && (forall k :: 0 <= k < |actions| ==> states[k + 1] == Apply(states[k], actions[k], times[k]))
    && (forall k :: 0 < k < |times| ==> times[k - 1] <= times[k])
  }

  lemma InvLater(io: Io, base: multiset<string>, now: real, later: real)
    requires Inv(io, base, now) && now <= later
    ensures Inv(io, base, later)
  {
  }

  lemma {:induction false} InvOverRun(base: multiset<string>, states: seq<Io>, actions: seq<Action>,
                                      times: seq<real>, k: nat)
    requires IsRun(base, states, actions, times) && k < |times|
    ensures Inv(states[k], base, times[k])
  {
    if k == 0 {
      InvInitially(base, times[0]);
    } else {
      InvOverRun(base, states, actions, times, k - 1);
      InvKept(states[k - 1], base, actions[k - 1], times[k - 1]);
      InvLater(states[k], base, times[k - 1], times[k]);
    }
  }

  lemma OrderInitially(base: multiset<string>)
    ensures OrderInv(Io([], [], base, []))
  {
  }

  lemma OrderKeptByInv(io: Io, base: multiset<string>, a: Action, now: real)
    requires Inv(io, base, now) && OrderInv(io) && Enabled(io, a, now)
    ensures OrderInv(Apply(io, a, now))
  {
    OrderInvKept(io, a, now);
  }

  lemma {:induction false} OrderOverRun(base: multiset<string>, states: seq<Io>, actions: seq<Action>,
                                        times: seq<real>, k: nat)
    requires IsRun(base, states, actions, times) && k < |states|
    ensures OrderInv(states[k])
  {
    if k == 0 {
      OrderInitially(base);
    } else {
      OrderOverRun(base, states, actions, times, k - 1);
      InvOverRun(base, states, actions, times, k - 1);
      OrderKeptByInv(states[k - 1], base, actions[k - 1], times[k - 1]);
    }
  }

  lemma OneOfFive(io: Io, a: Action, now: real)
    requires QueueInv(io) && Enabled(io, a, now)
    ensures 1 + Work(Apply(io, a, now).tasks) - 5 * |Apply(io, a, now).tasks| == Work(io.tasks) - 5 * |io.tasks|
  {
    ActionsUseUpWork(io, a, now);
  }

  /** Every action but a post uses up one of the four that a post brings. */
  lemma {:induction false} WorkOverRun(base: multiset<string>, states: seq<Io>, actions: seq<Action>,
                                       times: seq<real>, k: nat)
    requires IsRun(base, states, actions, times) && k < |states|
    ensures QueueInv(states[k])
    ensures k + Work(states[k].tasks) == 5 * |states[k].tasks|
  {
    if k > 0 {
      WorkOverRun(base, states, actions, times, k - 1);
      QueueInvKept(states[k - 1], actions[k - 1], times[k - 1]);
      OneOfFive(states[k - 1], actions[k - 1], times[k - 1]);
    }
  }

  lemma InvAtEnd(base: multiset<string>, states: seq<Io>, actions: seq<Action>, times: seq<real>)
    requires IsRun(base, states, actions, times) && actions != []
    ensures Inv(states[|actions|], base, times[|actions| - 1])
  {
    var k := |actions| - 1;
    InvOverRun(base, states, actions, times, k);
    InvKept(states[k], base, actions[k], times[k]);
  }

  /**
   * In every interleaving: each rule is posted, added and deleted at most once and in that order,
   * never deleted before its deadline; the firewall holds the rules that were there before and
   * those of the tasks that are live; and no run is longer than five actions a task.
   */
  lemma RuleLifecycle(base: multiset<string>, states: seq<Io>, actions: seq<Action>, times: seq<real>)
    requires IsRun(base, states, actions, times) && actions != []
    ensures
      var last, now := states[|actions|], times[|actions| - 1];
      && InOrder(last.history) && AddsInPostOrder(last.history) && DeletesInExpiryOrder(last.history)
      && last.firewall == base + LiveNames(last.tasks)
      && (forall id: nat, ok :: Deleted(id, ok) in last.history ==> id < |last.tasks| && last.tasks[id].due <= now)
      && |actions| + Work(last.tasks) == 5 * |last.tasks|
  {
    InvAtEnd(base, states, actions, times);
    OrderOverRun(base, states, actions, times, |actions|);
    AddsRunInPostOrder(states[|actions|].tasks, states[|actions|].history);
    DeletesRunInExpiryOrder(states[|actions|].history);
    WorkOverRun(base, states, actions, times, |actions|);
  }

  /**
   * A run that has come to rest after all deadlines has taken five actions a task, and leaves the
   * firewall as it found it exactly if every rule that was added has been deleted.
   */
  lemma RunRestoresFirewall(base: multiset<string>, states: seq<Io>, actions: seq<Action>, times: seq<real>, now: real)
    requires IsRun(base, states, actions, times) && actions != [] && times[|actions| - 1] <= now
    requires Quiet(states[|actions|], now) && DeadlinesPassed(states[|actions|], now)
    ensures states[|actions|].firewall == base <==> AllDeleted(states[|actions|].history)
    ensures |actions| == 5 * |states[|actions|].tasks|
  {
    InvAtEnd(base, states, actions, times);
    InvLater(states[|actions|], base, times[|actions| - 1], now);
    WorkOverRun(base, states, actions, times, |actions|);
    QuietMeansRestored(states[|actions|], base, now);
  }

  ghost predicate StartsAt(times: seq<real>, now: real) {
    times != [] ==> times[|times| - 1] <= now
  }

  lemma RunGrows(base: multiset<string>, states: seq<Io>, actions: seq<Action>, times: seq<real>, a: Action, at: real)
    requires IsRun(base, states, actions, times) && StartsAt(times, at) && Enabled(states[|actions|], a, at)
    ensures IsRun(base, states + [Apply(states[|actions|], a, at)], actions + [a], times + [at])
  {
  }

  lemma FinishedRunRestores(base: multiset<string>, states: seq<Io>, actions: seq<Action>, times: seq<real>)
    requires IsRun(base, states, actions, times)
    requires AllFinished(states[|actions|].tasks) && NoDeleteFailed(states[|actions|].history)
    ensures states[|actions|].firewall == base
  {
    if actions != [] {
      InvAtEnd(base, states, actions, times);
      FinishedMeansDeleted(states[|actions|]);
      RestoredIffAllDeleted(states[|actions|], base);
    }
  }

  lemma StepTowardsRest(io: Io, a: Action, now: real)
    requires QueueInv(io) && Enabled(io, a, now) && !a.Post? && (a.Run? ==> a.ok)
    ensures Work(Apply(io, a, now).tasks) < Work(io.tasks)
    ensures NoDeleteFailed(io.history) ==> NoDeleteFailed(Apply(io, a, now).history)
  {
    ActionsUseUpWork(io, a, now);
    if NoDeleteFailed(io.history) {
      NoDeleteFails(io, a, now);
    }
  }

  lemma FinishedIsQuiet(io: Io, now: real)
    requires io.queue == [] && AllFinished(io.tasks)
    ensures Quiet(io, now) && DeadlinesPassed(io, now)
  {
  }

  /**
   * Every run can be finished without a new post: it comes to rest, with all deadlines passed and,
   * if no deletion has failed so far, with the firewall as it was before.
   */
  lemma {:induction false} RunCanFinish(base: multiset<string>, states: seq<Io>, actions: seq<Action>, times: seq<real>,
                                        now: real)
    returns (states': seq<Io>, actions': seq<Action>, times': seq<real>, end: real)
    requires IsRun(base, states, actions, times) && StartsAt(times, now)
    ensures IsRun(base, states', actions', times') && StartsAt(times', end) && now <= end
    ensures states <= states' && actions <= actions' && times <= times'
    ensures forall k :: |actions| <= k < |actions'| ==> !actions'[k].Post? && (actions'[k].Run? ==> actions'[k].ok)
    ensures Quiet(states'[|actions'|], end) && DeadlinesPassed(states'[|actions'|], end)
    ensures NoDeleteFailed(states[|actions|].history) ==> states'[|actions'|].firewall == base
    decreases Work(states[|actions|].tasks)
  {
    var io := states[|actions|];
    WorkOverRun(base, states, actions, times, |actions|);
    if io.queue == [] && AllFinished(io.tasks) {
      states', actions', times', end := states, actions, times, now;
      FinishedIsQuiet(io, now);
      if NoDeleteFailed(io.history) {
        FinishedRunRestores(base, states, actions, times);
      }
    } else {
      var a, at := NextStep(io, now);
      RunGrows(base, states, actions, times, a, at);
      StepTowardsRest(io, a, at);
      states', actions', times', end :=
        RunCanFinish(base, states + [Apply(io, a, at)], actions + [a], times + [at], at);
    }
  }

  /** The rules of the tasks are all ones that the clean-up looks for. */
  lemma ForeignRulesStay(io: Io, base: multiset<string>, now: real)
    requires Inv(io, base, now)
    ensures forall n :: !Contains(n, RULE_PREFIX) ==> io.firewall[n] == base[n]
  {
    forall n ensures !Contains(n, RULE_PREFIX) ==> io.firewall[n] == base[n] {
      if !Contains(n, RULE_PREFIX) && n in LiveNames(io.tasks) {
        var id := LiveNameHasTask(io.tasks, n);
        RuleNameIsFound(n);
      }
    }
  }

  /** After any action of any run, cleaning up leaves exactly the foreign rules that do not look like ours. */
  lemma CleanupAfterCrash(io: Io, base: multiset<string>, now: real, cleaned: multiset<string>)
    requires Inv(io, base, now) && Cleaned(io.firewall, cleaned, RULE_PREFIX)
    ensures Cleaned(base, cleaned, RULE_PREFIX)
    ensures (forall n :: n in base ==> !Contains(n, RULE_PREFIX)) ==> cleaned == base
  {
    ForeignRulesStay(io, base, now);
  }
}
