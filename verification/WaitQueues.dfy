/**
 The intrusive wait queues of kernel/core/waitq.c: doubly linked lists threaded through the
 waiters, proved against the sequence of waiters in arrival order.
 */
module WaitQueues {
  function Nth(s: seq<Entry>, i: int): Entry? { if 0 <= i < |s| then s[i] else null }

  ghost predicate Apart(s: seq<Entry>, t: seq<Entry>) { forall i :: 0 <= i < |s| ==> s[i] !in t }

  class Entry {
    var next: Entry?
    var prev: Entry?
    var queue: Queue?
    var linked: bool
    var woken: bool
    var exclusive: bool

    /** wait_entry_init */
    constructor (exclusive: bool)
      ensures next == null && prev == null && queue == null && !linked && !woken && this.exclusive == exclusive
    {
      next, prev, queue := null, null, null;
      linked, woken := false, false;
      this.exclusive := exclusive;
    }

    // A linked entry is on the queue it points at; one off every queue has no neighbours.
    ghost predicate Placed()
      reads this, queue, if queue != null then queue.order else []
    {
      if linked then queue != null && queue.Valid() && this in queue.order else true
    }
  }

  class Queue {
    var head: Entry?
    var tail: Entry?
    ghost var order: seq<Entry>

    ghost predicate Valid()
      reads this, order
    {
      && head == Nth(order, 0) && tail == Nth(order, |order| - 1)
      && (forall i, j :: 0 <= i < j < |order| ==> order[i] != order[j])
      && (forall i {:trigger Sits(order, i)} :: 0 <= i < |order| ==> Sits(order, i))
    }

    ghost predicate Sits(s: seq<Entry>, i: int)
      requires 0 <= i < |s|
      reads s
    {
      var e := s[i];
      e.linked && !e.woken && e.queue == this && e.prev == Nth(s, i - 1) && e.next == Nth(s, i + 1)
    }

    /** wait_queue_init */
    constructor ()
      ensures Valid() && order == []
    {
      head, tail, order := null, null, [];
    }

    /** waitq_unlink: one waiter leaves, wherever it is; the others keep their order. */
    method Unlink(e: Entry, ghost k: nat)
      requires Valid() && k < |order| && order[k] == e
      modifies this, order
      ensures Valid() && order == old(order[..k] + order[k + 1..]) && e !in order
      ensures e.next == null && e.prev == null && !e.linked && e.queue == this && !e.woken
      ensures forall x <- old(order) :: x.exclusive == old(x.exclusive)
    {
      ghost var was := order;
      assert Sits(was, k);
      assert k > 0 ==> Sits(was, k - 1);
      assert k + 1 < |was| ==> Sits(was, k + 1);
      if e.prev != null {
        e.prev.next := e.next;
      } else {
        head := e.next;
      }
      if e.next != null {
        e.next.prev := e.prev;
      } else {
        tail := e.prev;
      }
      e.next, e.prev, e.linked := null, null, false;
      order := was[..k] + was[k + 1..];
      forall i | 0 <= i < |order| ensures Sits(order, i) {
        var m := if i < k then i else i + 1;
        assert old(Sits(was, m)) && order[i] == was[m] && was[m] != e;
        if i != k - 1 && k > 0 { assert was[m] != was[k - 1]; }
        if i != k && k + 1 < |was| { assert was[m] != was[k + 1]; }
      }
    }

    // The tail of wait_queue_add
    method Append(e: Entry)
      requires Valid() && !e.linked && e !in order
      modifies this, e, order
      ensures Valid() && order == old(order) + [e] && e.linked && e.queue == this
      ensures e.exclusive == old(e.exclusive) && forall x <- old(order) :: x.exclusive == old(x.exclusive)
    {
      ghost var was := order;
      assert was != [] ==> Sits(was, |was| - 1);
      e.queue, e.woken := this, false;
      e.prev, e.next := tail, null;
      if tail != null {
        tail.next := e;
      } else {
        head := e;
      }
      tail := e;
      e.linked := true;
      order := was + [e];
      forall i | 0 <= i < |order| ensures Sits(order, i) {
        assert i < |was| ==> old(Sits(was, i));
      }
    }

    /** wait_queue_add: the entry becomes the newest waiter here, and leaves whatever queue it was on. */
    method Add(e: Entry)
      requires Valid() && e.Placed() && (e.linked && e.queue != this ==> Apart(order, e.queue.order))
               && (e in order ==> e.linked && e.queue == this)
      modifies this, e, order, if e.linked
               && e.queue != null then {e.queue as object} else {}, if e.linked
                                                                && e.queue != null then e.queue.order else []
      ensures Valid() && e.linked && e.queue == this
      ensures old(e.linked && e.queue == this) ==>
                exists k: nat ::
                    k < |old(order)| && old(order)[k] == e && order == old(order)[..k] + old(order)[k + 1..] + [e]
      ensures !old(e.linked && e.queue == this) ==> order == old(order) + [e]
    {
      hide Queue.Valid, Queue.Sits;
      if e.linked {
        var q := e.queue;
        ghost var k: nat :| k < |q.order| && q.order[k] == e;
        q.Unlink(e, k);
        assert q != this ==> Valid();
      }
      Append(e);
    }

    /** waitq_wake_head: the oldest waiter leaves the queue, woken, and still points at it. */
    method WakeHead() returns (r: bool)
      requires Valid()
      modifies this, order
      ensures Valid() && (r <==> old(order) != [])
      ensures r ==> order == old(order)[1..] && var e := old(order)[0];
                    e.woken && !e.linked && e.queue == this && e !in order
      ensures !r ==> order == []
      ensures forall x <- old(order) :: x.exclusive == old(x.exclusive)
    {
      var e := head;
      if e == null { return false; }
      assert Sits(order, 0);
      Unlink(e, 0);
      e.woken := true;
      r := true;
    }

    /** wait_queue_wake_all: everybody leaves, woken, in queue order. */
    method WakeAll() returns (n: nat)
      requires Valid()
      modifies this, order
      ensures Valid() && order == [] && n == |old(order)|
      ensures forall e <- old(order) :: e.woken && !e.linked && e.queue == this
    {
      n := 0;
      var more := true;
      ghost var was := order;
      while more
        invariant Valid() && n <= |was| && order == was[n..] && (!more ==> order == [])
        invariant forall i :: 0 <= i < n ==> was[i].woken && !was[i].linked && was[i].queue == this
        modifies this, was
        decreases |order|, more
      {
        ghost var rest := order;
        more := WakeHead();
        if more {
          assert was[n] == rest[0];
          n := n + 1;
        }
      }
    }
  }

  /** wait_queue_remove: back to the idle state, woken or not. */
  method Remove(e: Entry)
    requires e.Placed()
    modifies e, if e.linked && e.queue != null then {e.queue as object}
                                                    else {}, if e.linked && e.queue != null then e.queue.order else []
    ensures !e.linked && e.queue == null && !e.woken
    ensures var q := old(e.queue); old(e.linked) ==> q.Valid() && e !in q.order && |q.order| == |old(e.queue.order)| - 1
    ensures var q := old(e.queue); old(e.linked) ==> forall x <- old(e.queue.order) :: x != e ==> x in q.order
  {
    if e.linked {
      var q := e.queue;
      ghost var k: nat :| k < |q.order| && q.order[k] == e;
      q.Unlink(e, k);
      e.queue, e.woken := null, false;
    } else {
      e.queue, e.woken := null, false;
    }
  }

  /**
   wait_queue_cancel: a waiter gives up.  If it had consumed a wake that was meant for one waiter,
   the next one in its queue gets it.
   */
  method Cancel(e: Entry)
    requires e.Placed() && (e.woken ==> !e.linked)
    requires e.woken && e.queue != null ==> e.queue.Valid() && e !in e.queue.order
    modifies e, if e.queue != null && (e.linked || e.woken) then {e.queue as object} else {},
             if e.queue != null && (e.linked || e.woken) then e.queue.order else []
    ensures !e.linked && e.queue == null && !e.woken
    ensures var q := old(e.queue); old(e.linked) ==> q.Valid() && e !in q.order && |q.order| == |old(e.queue.order)| - 1
    ensures var q := old(e.queue);
            old(e.woken && e.exclusive) && q != null ==>
              && q.Valid() && q.order == (if |old(e.queue.order)| > 0 then old(e.queue.order)[1..] else [])
              && (|old(e.queue.order)| > 0 ==> old(e.queue.order)[0].woken)
    ensures var q := old(e.queue); old(e.woken && !e.exclusive) && q != null ==>
                                     q.Valid() && q.order == old(e.queue.order)
  {
    var handoff := if e.woken && e.exclusive then e.queue else null;
    Remove(e);
    if handoff != null {
      var woke := handoff.WakeHead();
    }
  }
}
