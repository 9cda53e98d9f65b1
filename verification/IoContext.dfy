/** The event loop as an object: the tasks of `main.cpp` post to it, and its one thread runs what is queued. */
module IoContext {
  import opened FirewallController
  import opened RuleTasks

  class Context {
    var tasks: seq<Task>
    var queue: seq<Handler>
    var steady: real
    const firewall: Firewall
    ghost var history: seq<Effect>

    ghost function View(): Io
      reads this, firewall
    {
      Io(tasks, queue, firewall.Names(), history)
    }

    constructor (firewall: Firewall, steady: real)
      ensures this.firewall == firewall && this.steady == steady
      ensures View() == Io([], [], firewall.Names(), [])
    {
      this.firewall := firewall;
      tasks, queue, history := [], [], [];
      this.steady := steady;
    }

    /** The steady clock may have advanced by any amount. */
    method SteadyNow() returns (t: real)
      modifies this`steady
      ensures old(steady) <= t == steady
    {
      var pause: real := *;
      t := if pause > 0.0 then steady + pause else steady;
      steady := t;
    }

    method AsyncBlock(name: string, address: string) returns (id: nat)
      modifies this
      ensures steady == old(steady) && id == |old(tasks)|
      ensures tasks == old(tasks) + [Task(name, address, AddQueued, Unarmed, 0.0)] && queue == old(queue) + [Add(id)]
      ensures View() == Apply(old(View()), Post(name, address), steady)
    {
      id := |tasks|;
      tasks := tasks + [Task(name, address, AddQueued, Unarmed, 0.0)];
      queue := queue + [Add(id)];
      history := history + [Posted(id)];
    }

    method AsyncUnblock(id: nat, seconds: int)
      requires id < |tasks| && tasks[id].delete.Unarmed?
      modifies this
      ensures old(steady) <= steady
      ensures tasks == old(tasks)[id := old(tasks)[id].(delete := Armed, due := steady + seconds as real)]
      ensures View() == Apply(old(View()), Arm(id, steady + seconds as real), steady)
    {
      var now := SteadyNow();
      tasks := tasks[id := tasks[id].(delete := Armed, due := now + seconds as real)];
    }

    /** Nothing is posted for a duration that is not positive. */
    method CreateBlockTasks(address: string, blockTime: int) returns (ghost name: string)
      modifies this
      ensures IsRuleName(name) && old(steady) <= steady
      ensures
        var started := blockTime > 0;
        && queue == old(queue) + (if started then [Add(|old(tasks)|)] else [])
        && tasks == old(tasks) +
                    if started then [Task(name, address, AddQueued, Armed, steady + blockTime as real)] else []
      ensures
        var id, posted := |old(tasks)|, Apply(old(View()), Post(name, address), steady);
        View() ==
        if blockTime > 0 then Apply(posted, Arm(id, steady + blockTime as real), steady) else old(View())
    {
      var ruleName := RandomRuleName();
      name := ruleName;
      if blockTime > 0 {
        var id := AsyncBlock(ruleName, address);
        AsyncUnblock(id, blockTime);
      }
    }

    /** The timer of a task whose deadline has passed queues its delete handler. */
    method ExpireTimer(id: nat)
      requires id < |tasks| && tasks[id].delete.Armed? && tasks[id].due <= steady
      modifies this
      ensures queue == old(queue) + [Delete(id)] && tasks == old(tasks)[id := old(tasks)[id].(delete := DeleteQueued)]
      ensures steady == old(steady) && View() == Apply(old(View()), Expire(id), steady)
    {
      tasks := tasks[id := tasks[id].(delete := DeleteQueued)];
      queue := queue + [Delete(id)];
      history := history + [Expired(id)];
    }

    /**
     * Runs the handler at the head of the queue. The rule is added or deleted if the rules can be
     * reached and the calls succeed; what the controller reports is not looked at.
     */
    method RunOne(reachable: bool, ok: bool)
      requires queue != [] && queue[0].id < |tasks|
      modifies this, firewall
      ensures queue == old(queue)[1..]
      ensures steady == old(steady) && View() == Apply(old(View()), Run(reachable && ok), steady)
      ensures
        var task := old(tasks)[old(queue)[0].id];
        if !(reachable && ok) then firewall.rules == old(firewall.rules)
        else if old(queue)[0].Add? then firewall.rules == old(firewall.rules) + [Rule(task.name, task.addr)]
        else OneRemoved(old(firewall.rules), firewall.rules, task.name)
    {
      var handler := queue[0];
      var id, task := handler.id, tasks[handler.id];
      queue := queue[1..];
      if handler.Add? {
        var _ := firewall.BlockInboundIP(task.name, task.addr, reachable && ok);
        tasks := tasks[id := task.(add := AddRan(reachable && ok))];
        history := history + [Added(id, reachable && ok)];
      } else {
        var _ := firewall.DeleteRuleByName(task.name, reachable, ok);
        tasks := tasks[id := task.(delete := DeleteRan(reachable && ok))];
        history := history + [Deleted(id, reachable && ok)];
      }
    }
  }
}
