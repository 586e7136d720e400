/** The two containers the pipeline threads share: the blocking FIFO and the
    fixed pool of frame buffers.  Each operation runs under the container's
    mutex, so it is one atomic step; a wait on the condition variable returns
    only when its predicate holds, which is the precondition of the step. */
module Queues {

  /** Blocking FIFO.  The ghost history records everything ever pushed and popped. */
  class TSQueue<T> {
    var items: seq<T>
    ghost var pushed: seq<T>
    ghost var popped: seq<T>

    ghost predicate Valid()
      reads this
    {
      pushed == popped + items
    }

    constructor ()
      ensures Valid() && items == [] && pushed == [] && popped == []
    {
      items, pushed, popped := [], [], [];
    }

    method Push(v: T)
      requires Valid()
      modifies this
      ensures Valid()
      ensures items == old(items) + [v]
      ensures pushed == old(pushed) + [v] && popped == old(popped)
    {
      items := items + [v];
      pushed := pushed + [v];
    }

    /** `items != []` is the predicate the caller waits for. */
    method Pop() returns (v: T)
      requires Valid() && items != []
      modifies this
      ensures Valid()
      ensures old(items) == [v] + items
      ensures popped == old(popped) + [v] && pushed == old(pushed)
      ensures v == pushed[|old(popped)|]
    {
      v := items[0];
      items := items[1..];
      popped := popped + [v];
    }
  }

  predicate Distinct(s: seq<nat>) {
    forall i, j :: 0 <= i < j < |s| ==> s[i] != s[j]
  }

  /** Pool of `capacity` preallocated buffer pairs, named by their index.
      `lent` holds the indices currently owned outside the free list. */
  class BufPool {
    const capacity: nat
    var freeList: seq<nat>
    ghost var lent: set<nat>

    ghost predicate Valid()
      reads this
    {
      && Distinct(freeList)
      && (forall i :: 0 <= i < |freeList| ==> freeList[i] !in lent)
      && (forall b: nat :: b in freeList || b in lent <==> b < capacity)
    }

    constructor (n: nat)
      ensures Valid() && capacity == n && lent == {}
      ensures freeList == seq(n, i => i)
    {
      capacity := n;
      freeList, lent := seq(n, i => i), {};
      new;
      forall b: nat | b < n
        ensures b in freeList
      {
        assert freeList[b] == b;
      }
    }

    /** `freeList != []` is the predicate the caller waits for. */
    method Acquire() returns (idx: nat)
      requires Valid() && freeList != []
      modifies this
      ensures Valid()
      ensures old(freeList) == [idx] + freeList
      ensures idx < capacity && idx !in old(lent) && lent == old(lent) + {idx}
    {
      idx := freeList[0];
      freeList := freeList[1..];
      lent := lent + {idx};
      assert old(freeList) == [idx] + freeList;
    }

    method Release(idx: nat)
      requires Valid() && idx in lent
      modifies this
      ensures Valid()
      ensures freeList == old(freeList) + [idx] && lent == old(lent) - {idx}
    {
      freeList := freeList + [idx];
      lent := lent - {idx};
      assert freeList[|freeList| - 1] == idx;
      assert forall i :: 0 <= i < |old(freeList)| ==> freeList[i] == old(freeList)[i];
    }
  }
}
