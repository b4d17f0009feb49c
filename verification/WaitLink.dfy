/**
 The linked queues of kernel/core/waitq.c carry the waiting processes of the pipe machine: what the
 pointer code does to a queue of entries is what the machine does to a queue of process numbers.
 */
module WaitLink {
  import opened PipeWorld
  import opened PipeInvariant
  import W = WaitQueues

  // Each entry belongs to one process; the queue lists the processes of its entries in order.
  ghost predicate Lists(order: seq<W.Entry>, owner: map<W.Entry, nat>, queue: seq<nat>) {
    |order| == |queue| && forall i :: 0 <= i < |order| ==> order[i] in owner && owner[order[i]] == queue[i]
  }

  ghost predicate Carries(q: W.Queue, owner: map<W.Entry, nat>, w: World, k: nat, d: Dir)
    reads q, q.order
    requires k < |w.pipes|
  {
    q.Valid() && Lists(q.order, owner, Queue(w.pipes[k], d))
  }

  // wait_queue_wake_one on the entries is WakeOne on the processes.
  method WakeOneEntry(q: W.Queue, ghost owner: map<W.Entry, nat>, ghost w: World, ghost k: nat, ghost d: Dir)
      returns (r: bool)
    requires k < |w.pipes| && Carries(q, owner, w, k, d) && forall p <- Queue(w.pipes[k], d) :: p in w.procs
    modifies q, q.order
    ensures Carries(q, owner, WakeOne(w, k, d), k, d)
    ensures r <==> old(q.order) != []
    ensures r ==> var e := old(q.order)[0];
                  e.woken && !e.linked && e in owner && WakeOne(w, k, d).procs[owner[e]].wait == Woken(k, d)
    ensures !r ==> WakeOne(w, k, d) == w
  {
    ghost var queue := Queue(w.pipes[k], d);
    assert queue != [] ==> queue[0] in queue;
    QueueSet(w.pipes[k], d, if queue == [] then [] else queue[1..], d);
    r := q.WakeHead();
  }

  // wait_queue_wake_all
  method WakeAllEntries(q: W.Queue, ghost owner: map<W.Entry, nat>, ghost w: World, ghost k: nat, ghost d: Dir)
      returns (n: nat)
    requires k < |w.pipes| && Carries(q, owner, w, k, d)
    modifies q, q.order
    ensures Carries(q, owner, WakeAll(w, k, d), k, d) && n == |Queue(w.pipes[k], d)|
    ensures forall e <- old(q.order) ::
            e.woken && e in owner && (owner[e] in w.procs ==> WakeAll(w, k, d).procs[owner[e]].wait == Woken(k, d))
  {
    ghost var queue := Queue(w.pipes[k], d);
    QueueSet(w.pipes[k], d, [], d);
    forall e <- q.order ensures e in owner && owner[e] in queue {
      var i :| 0 <= i < |q.order| && q.order[i] == e;
      assert owner[e] == queue[i];
    }
    n := q.WakeAll();
  }

  // wait_queue_add of a process that is on no queue
  method AddEntry(q: W.Queue, e: W.Entry, ghost owner: map<W.Entry, nat>, ghost w: World, ghost k: nat, ghost d: Dir)
    requires k < |w.pipes| && Carries(q, owner, w, k, d) && e in owner && owner[e] in w.procs && !e.linked
             && e !in q.order
    modifies q, e, q.order
    ensures Carries(q, owner, Enqueue(w, k, d, owner[e]), k, d) && e.linked && !e.woken
  {
    QueueSet(w.pipes[k], d, Queue(w.pipes[k], d) + [owner[e]], d);
    q.Append(e);
    assert q.Sits(q.order, |q.order| - 1);
  }

  // The queue without one of its processes.
  lemma {:induction false} MinusAt(queue: seq<nat>, i: nat)
    requires Distinct(queue) && i < |queue|
    ensures Minus(queue, queue[i]) == queue[..i] + queue[i + 1..]
  {
    var rest := queue[1..];
    if i == 0 {
      assert queue[0] !in rest;
      MinusAbsent(rest, queue[0]);
    } else {
      assert rest[i - 1] == queue[i];
      MinusAt(rest, i - 1);
      assert [queue[0]] + (rest[..i - 1] + rest[i..]) == queue[..i] + queue[i + 1..];
    }
  }

  lemma {:induction false} MinusAbsent(queue: seq<nat>, p: nat)
    requires p !in queue
    ensures Minus(queue, p) == queue
  {
    if queue != [] { MinusAbsent(queue[1..], p); }
  }

  // waitq_unlink of a waiter that gives up while it is queued
  method UnlinkEntry(q: W.Queue, e: W.Entry, ghost i: nat, ghost owner: map<W.Entry, nat>, ghost w: World,
      ghost k: nat, ghost d: Dir)
    requires k < |w.pipes| && Carries(q, owner, w, k, d) && i < |q.order| && q.order[i] == e && e in owner
             && owner[e] in w.procs
    requires QueueOk(w, k, d) && w.procs[owner[e]].wait == Queued(k, d)
    modifies q, q.order
    ensures Carries(q, owner, PipeWorld.Cancel(w, owner[e]), k, d) && !e.linked && !e.woken
  {
    ghost var queue := Queue(w.pipes[k], d);
    ListsWithout(q.order, owner, queue, i);
    MinusAt(queue, i);
    CancelQueue(w, k, d, owner[e]);
    hide W.Queue.Valid, W.Queue.Sits, Lists, PipeWorld.Cancel, Minus, QueueOk, Queue;
    q.Unlink(e, i);
  }

  lemma ListsWithout(order: seq<W.Entry>, owner: map<W.Entry, nat>, queue: seq<nat>, i: nat)
    requires Lists(order, owner, queue) && i < |order|
    ensures Lists(order[..i] + order[i + 1..], owner, queue[..i] + queue[i + 1..])
  {
  }

  lemma CancelQueue(w: World, k: nat, d: Dir, p: nat)
    requires k < |w.pipes| && p in w.procs && w.procs[p].wait == Queued(k, d)
    ensures Queue(PipeWorld.Cancel(w, p).pipes[k], d) == Minus(Queue(w.pipes[k], d), p)
  {
    QueueSet(w.pipes[k], d, Minus(Queue(w.pipes[k], d), p), d);
  }
}
