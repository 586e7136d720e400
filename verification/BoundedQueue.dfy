/** The drop-oldest queue between the pipeline and the IPC sender, against its history. */
module BoundedQueues {
  import opened Sequences

  datatype Policy = DropOldest | DropNewest

  /** What became of an accepted item that is no longer queued. */
  datatype Fate = Popped | Evicted

  /** The queue with everything that ever happened to it: `accepted` in push
      order, and the fate of those that have left, which leave in that order. */
  datatype Record<T> = Record(queue: seq<T>, closed: bool, accepted: seq<T>, fates: seq<Fate>)

  datatype Op<T> = Push(item: T) | Pop | Close

  function Fresh<T>(): Record<T> {
    Record([], false, [], [])
  }

  function PushSpec<T>(r: Record<T>, capacity: nat, policy: Policy, item: T): Record<T>
    requires 0 < capacity
  {
    if r.closed then r
    else if |r.queue| >= capacity then
      match policy
      case DropOldest =>
        r.(queue := r.queue[1..] + [item], accepted := r.accepted + [item], fates := r.fates + [Evicted])
      case DropNewest => r
    else r.(queue := r.queue + [item], accepted := r.accepted + [item])
  }

  function PopSpec<T>(r: Record<T>): Record<T> {
    if r.queue == [] then r else r.(queue := r.queue[1..], fates := r.fates + [Popped])
  }

  function OpSpec<T>(r: Record<T>, capacity: nat, policy: Policy, op: Op<T>): Record<T>
    requires 0 < capacity
  {
    match op
    case Push(item) => PushSpec(r, capacity, policy, item)
    case Pop => PopSpec(r)
    case Close => r.(closed := true)
  }

  function RunOps<T>(r: Record<T>, capacity: nat, policy: Policy, ops: seq<Op<T>>): Record<T>
    requires 0 < capacity
    decreases |ops|
  {
    if ops == [] then r else RunOps(OpSpec(r, capacity, policy, ops[0]), capacity, policy, ops[1..])
  }

  /** The queue content is the accepted items that have not left: a contiguous
      suffix of the history, never longer than the capacity. */
  ghost predicate Refines<T(!new)>(r: Record<T>, capacity: nat) {
    && |r.fates| <= |r.accepted|
    && r.queue == r.accepted[|r.fates|..]
    && |r.queue| <= capacity
  }

  /** The items that left with the given fate, in order. */
  function Left<T>(items: seq<T>, fates: seq<Fate>, f: Fate): seq<T>
    requires |fates| <= |items|
  {
    if fates == [] then []
    else if fates[0] == f then [items[0]] + Left(items[1..], fates[1..], f)
    else Left(items[1..], fates[1..], f)
  }

  lemma OpRefines<T(!new)>(r: Record<T>, capacity: nat, policy: Policy, op: Op<T>)
    requires 0 < capacity && Refines(r, capacity)
    ensures Refines(OpSpec(r, capacity, policy, op), capacity)
  {
    if op.Push? && policy.DropOldest? && !r.closed && |r.queue| >= capacity {
      assert (r.accepted + [op.item])[|r.fates| + 1..] == r.accepted[|r.fates|..][1..] + [op.item];
    } else if op.Push? {
      assert (r.accepted + [op.item])[|r.fates|..] == r.accepted[|r.fates|..] + [op.item];
    }
  }

  /** Over any sequence of operations the content stays a suffix of the history. */
  lemma {:induction false} RunRefines<T(!new)>(r: Record<T>, capacity: nat, policy: Policy, ops: seq<Op<T>>)
    requires 0 < capacity && Refines(r, capacity)
    ensures Refines(RunOps(r, capacity, policy, ops), capacity)
    decreases |ops|
  {
    if ops != [] {
      OpRefines(r, capacity, policy, ops[0]);
      RunRefines(OpSpec(r, capacity, policy, ops[0]), capacity, policy, ops[1..]);
    }
  }

  lemma {:induction false} LeftSplit<T>(items: seq<T>, fates: seq<Fate>)
    requires |fates| <= |items|
    ensures |Left(items, fates, Popped)| + |Left(items, fates, Evicted)| == |fates|
  {
    if fates != [] {
      LeftSplit(items[1..], fates[1..]);
    }
  }

  lemma {:induction false} LeftInOrder<T>(items: seq<T>, fates: seq<Fate>, f: Fate)
    requires |fates| <= |items|
    ensures Subsequence(Left(items, fates, f), items)
  {
    if fates != [] {
      LeftInOrder(items[1..], fates[1..], f);
    }
  }

  /** A popped item is among the newest `capacity` accepted at that moment. */
  lemma PoppedIsRecent<T(!new)>(r: Record<T>, capacity: nat)
    requires Refines(r, capacity) && r.queue != []
    ensures |r.fates| < |r.accepted| && r.queue[0] == r.accepted[|r.fates|]
    ensures |r.accepted| - |r.fates| <= capacity
    ensures PopSpec(r).queue == r.accepted[|r.fates| + 1..]
  {
    assert r.accepted[|r.fates|..][1..] == r.accepted[|r.fates| + 1..];
  }

  lemma {:induction false} LeftSnoc<T>(items: seq<T>, fates: seq<Fate>, f: Fate, g: Fate)
    requires |fates| < |items|
    ensures Left(items, fates + [f], g) ==
            if f == g then Left(items, fates, g) + [items[|fates|]] else Left(items, fates, g)
  {
    if fates == [] {
      assert fates + [f] == [f];
      assert Left(items[1..], [f][1..], g) == [];
    } else {
      assert (fates + [f])[1..] == fates[1..] + [f];
      LeftSnoc(items[1..], fates[1..], f, g);
    }
  }

  lemma {:induction false} LeftLonger<T>(items: seq<T>, item: T, fates: seq<Fate>, f: Fate)
    requires |fates| <= |items|
    ensures Left(items + [item], fates, f) == Left(items, fates, f)
  {
    if fates != [] {
      assert (items + [item])[1..] == items[1..] + [item];
      LeftLonger(items[1..], item, fates[1..], f);
    }
  }

  /** What the consumer gets out of a run: the front of the queue at each pop. */
  function Received<T>(r: Record<T>, capacity: nat, policy: Policy, ops: seq<Op<T>>): seq<T>
    requires 0 < capacity
    decreases |ops|
  {
    if ops == [] then []
    else
      var rest := Received(OpSpec(r, capacity, policy, ops[0]), capacity, policy, ops[1..]);
      if ops[0].Pop? && r.queue != [] then [r.queue[0]] + rest else rest
  }

  lemma OpDelivers<T(!new)>(r: Record<T>, capacity: nat, policy: Policy, op: Op<T>)
    requires 0 < capacity && Refines(r, capacity)
    ensures var t := OpSpec(r, capacity, policy, op);
      && |t.fates| <= |t.accepted|
      && Left(t.accepted, t.fates, Popped) ==
         Left(r.accepted, r.fates, Popped) + if op.Pop? && r.queue != [] then [r.queue[0]] else []
  {
    match op
    case Push(item) =>
      LeftLonger(r.accepted, item, r.fates, Popped);
      if |r.fates| < |r.accepted| {
        LeftLonger(r.accepted, item, r.fates + [Evicted], Popped);
        LeftSnoc(r.accepted, r.fates, Evicted, Popped);
      }
    case Pop =>
      if r.queue != [] {
        LeftSnoc(r.accepted, r.fates, Popped, Popped);
      }
    case Close =>
  }

  /** The consumer receives the items whose fate is to be popped, in that order. */
  lemma {:induction false} ReceivedIsPopped<T(!new)>(r: Record<T>, capacity: nat, policy: Policy, ops: seq<Op<T>>)
    requires 0 < capacity && Refines(r, capacity)
    ensures var t := RunOps(r, capacity, policy, ops);
      && |t.fates| <= |t.accepted|
      && Left(t.accepted, t.fates, Popped) == Left(r.accepted, r.fates, Popped) + Received(r, capacity, policy, ops)
    decreases |ops|
  {
    if ops != [] {
      var s := OpSpec(r, capacity, policy, ops[0]);
      OpRefines(r, capacity, policy, ops[0]);
      OpDelivers(r, capacity, policy, ops[0]);
      ReceivedIsPopped(s, capacity, policy, ops[1..]);
      Associate(Left(r.accepted, r.fates, Popped), if ops[0].Pop? && r.queue != [] then [r.queue[0]] else [],
                Received(s, capacity, policy, ops[1..]));
    }
  }

  /** Conservation over every run from an empty queue: accepted items are received,
      evicted or queued, and the consumer receives them in push order. */
  lemma HistoryIsConserved<T(!new)>(capacity: nat, policy: Policy, ops: seq<Op<T>>)
    requires 0 < capacity
    ensures var r := RunOps(Fresh<T>(), capacity, policy, ops);
      && Refines(r, capacity)
      && Left(r.accepted, r.fates, Popped) == Received(Fresh<T>(), capacity, policy, ops)
      && |r.accepted| ==
         |Received(Fresh<T>(), capacity, policy, ops)| + |Left(r.accepted, r.fates, Evicted)| + |r.queue|
      && Subsequence(Received(Fresh<T>(), capacity, policy, ops), r.accepted)
  {
    RunRefines(Fresh<T>(), capacity, policy, ops);
    ReceivedIsPopped(Fresh<T>(), capacity, policy, ops);
    var r := RunOps(Fresh<T>(), capacity, policy, ops);
    LeftSplit(r.accepted, r.fates);
    LeftInOrder(r.accepted, r.fates, Popped);
  }

  /** The reject-newest policy never evicts. */
  lemma {:induction false} DropNewestKeeps<T(!new)>(r: Record<T>, capacity: nat, ops: seq<Op<T>>)
    requires 0 < capacity && Evicted !in r.fates
    ensures Evicted !in RunOps(r, capacity, DropNewest, ops).fates
    decreases |ops|
  {
    if ops != [] {
      DropNewestKeeps(OpSpec(r, capacity, DropNewest, ops[0]), capacity, ops[1..]);
    }
  }

  /** Nothing is accepted after close(), and what was queued can still be popped. */
  lemma {:induction false} ClosedOnlyDrains<T(!new)>(r: Record<T>, capacity: nat, policy: Policy, ops: seq<Op<T>>)
    requires r.closed && 0 < capacity && Refines(r, capacity)
    ensures var t := RunOps(r, capacity, policy, ops);
      && t.closed && t.accepted == r.accepted && |t.queue| <= |r.queue|
      && t.queue == r.queue[|r.queue| - |t.queue|..]
    decreases |ops|
  {
    if ops != [] {
      var s := OpSpec(r, capacity, policy, ops[0]);
      OpRefines(r, capacity, policy, ops[0]);
      ClosedOnlyDrains(s, capacity, policy, ops[1..]);
    }
  }

  class BoundedQueue<T(!new)> {
    const capacity: nat
    const policy: Policy
    var closed: bool
    var queue: seq<T>
    ghost var accepted: seq<T>
    ghost var fates: seq<Fate>

    ghost function Log(): Record<T>
      reads this
    {
      Record(queue, closed, accepted, fates)
    }

    ghost predicate Valid()
      reads this
    {
      0 < capacity && Refines(Log(), capacity)
    }

    constructor (capacity: nat, policy: Policy)
      requires 0 < capacity
      ensures Valid() && Log() == Fresh<T>() && this.capacity == capacity && this.policy == policy
    {
      this.capacity, this.policy := capacity, policy;
      closed, queue, accepted, fates := false, [], [], [];
    }

    /** True when the item went in without dropping another. */
    method Push(item: T) returns (kept: bool)
      requires Valid()
      modifies this
      ensures Valid()
      ensures Log() == PushSpec(old(Log()), capacity, policy, item)
      ensures kept <==> !old(closed) && |old(queue)| < capacity
    {
      OpRefines(Log(), capacity, policy, Op.Push(item));
      var dropped := false;
      if closed {
        return false;
      }
      if |queue| >= capacity {
        if policy == DropOldest {
          queue := queue[1..];
          fates := fates + [Evicted];
          dropped := true;
        } else {
          return false;
        }
      }
      queue := queue + [item];
      accepted := accepted + [item];
      kept := !dropped;
    }

    /** pop() with its deadline already waited for: an item if there is one,
        whether the wait ended by notification, time-out or close(). */
    method Pop() returns (ok: bool, item: seq<T>)
      requires Valid()
      modifies this
      ensures Valid()
      ensures Log() == PopSpec(old(Log()))
      ensures ok <==> old(queue) != []
      ensures item == if ok then [old(queue)[0]] else []
    {
      OpRefines(Log(), capacity, policy, Op.Pop);
      if queue == [] {
        return false, [];
      }
      ok, item := true, [queue[0]];
      queue := queue[1..];
      fates := fates + [Popped];
    }

    method Close()
      requires Valid()
      modifies this
      ensures Valid() && Log() == old(Log()).(closed := true)
    {
      closed := true;
    }
  }
}
