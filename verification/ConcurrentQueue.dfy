/** `concurrent_queue` as an object, seen by the one thread that runs a method, and the callback that fills it. */
module ConcurrentQueue {
  import opened Wrappers

  /** What other threads do while this one sleeps: they push some values, then pop at most `taken` of what is there. */
  datatype Round<T> = Round(pushes: seq<T>, taken: nat)

  /** What a round leaves of the queue. */
  function Left<T>(items: seq<T>, round: Round<T>): seq<T> {
    var all := items + round.pushes;
    if round.taken <= |all| then all[round.taken..] else []
  }

  function LeftAfter<T>(items: seq<T>, rounds: seq<Round<T>>): seq<T> {
    if rounds == [] then items else Left(LeftAfter(items, rounds[..|rounds| - 1]), rounds[|rounds| - 1])
  }

  function Pushes<T>(rounds: seq<Round<T>>): seq<T> {
    if rounds == [] then [] else Pushes(rounds[..|rounds| - 1]) + rounds[|rounds| - 1].pushes
  }

  class Queue<T> {
    var items: seq<T>
    ghost var pushed: seq<T>
    ghost var popped: seq<T>

    ghost predicate Valid()
      reads this
    {
      popped + items == pushed
    }

    constructor ()
      ensures Valid() && pushed == [] && popped == []
    {
      items, pushed, popped := [], [], [];
    }

    method Push(value: T)
      requires Valid()
      modifies this
      ensures Valid() && pushed == old(pushed) + [value] && popped == old(popped)
    {
      items := items + [value];
      pushed := pushed + [value];
    }

    /** Gives the oldest value, or nothing at once. */
    method TryPop() returns (value: Option<T>)
      requires Valid()
      modifies this
      ensures Valid() && pushed == old(pushed)
      ensures value.None? <==> old(items) == []
      ensures old(items) == if value.Some? then [value.value] + items else items
      ensures popped == old(popped) + if value.Some? then [value.value] else []
    {
      if items == [] {
        return None;
      }
      value := Some(items[0]);
      popped := popped + [items[0]];
      items := items[1..];
    }

    /** The lock is given up, and is back when the method returns. */
    method Wait(round: Round<T>)
      requires Valid()
      modifies this
      ensures Valid() && pushed == old(pushed) + round.pushes
      ensures items == Left(old(items), round)
    {
      items, pushed := items + round.pushes, pushed + round.pushes;
      var n := if round.taken <= |items| then round.taken else |items|;
      assert items == items[..n] + items[n..];
      items, popped := items[n..], popped + items[..n];
    }

    /**
     * Sleeps for as long as there is nothing to pop, which is for `slept` of the rounds. `None`
     * means that after all of `rounds` there still is nothing, and the thread still sleeps.
     */
    method WaitPop(rounds: seq<Round<T>>) returns (value: Option<T>, ghost slept: nat)
      requires Valid()
      modifies this
      ensures Valid() && slept <= |rounds| && pushed == old(pushed) + Pushes(rounds[..slept])
      ensures forall k :: 0 <= k < slept ==> LeftAfter(old(items), rounds[..k]) == []
      ensures LeftAfter(old(items), rounds[..slept]) == if value.Some? then [value.value] + items else []
      ensures value.None? ==> slept == |rounds| && items == []
    {
      var round := 0;
      while items == [] && round < |rounds|
        invariant round <= |rounds| && Valid()
        invariant pushed == old(pushed) + Pushes(rounds[..round])
        invariant items == LeftAfter(old(items), rounds[..round])
        invariant forall k :: 0 <= k < round ==> LeftAfter(old(items), rounds[..k]) == []
      {
        assert rounds[..round + 1][..round] == rounds[..round];
        Wait(rounds[round]);
        round := round + 1;
      }
      slept := round;
      value := TryPop();
    }
  }

  datatype NotifyAction = ActionError | ActionDeliver | ActionUnknown

  /** Only a delivered event whose data could be rendered reaches the queue. */
  method SubscriptionCallback<T>(queue: Queue<T>, action: NotifyAction, rendered: Option<T>)
    requires queue.Valid()
    modifies queue
    ensures queue.Valid() && queue.popped == old(queue.popped)
    ensures queue.pushed == old(queue.pushed) + if action.ActionDeliver? && rendered.Some? then [rendered.value] else []
  {
    match action
    case ActionDeliver =>
      if rendered.Some? {
        queue.Push(rendered.value);
      }
    case _ =>
  }
}
