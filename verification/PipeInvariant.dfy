/**
 What every step of the pipe machine keeps: reference counts are exact, queues hold exactly the
 waiting processes, and no wake-up is lost.
 */
module PipeInvariant {
  import opened PipeWorld

  // ---------- the invariant ----------

  // The handle slots, over all processes, that hold h.
  ghost function Holders(procs: map<nat, Proc>, h: Handle): set<(nat, nat)> {
    set p, fd | p in procs && 0 <= fd < |procs[p].handles| && procs[p].handles[fd] == h :: (p, fd)
  }

  predicate Distinct(s: seq<nat>) { forall i, j :: 0 <= i < j < |s| ==> s[i] != s[j] }

  ghost predicate QueueOk(w: World, k: nat, d: Dir)
    requires k < |w.pipes|
  {
    var queue := Queue(w.pipes[k], d);
    && Distinct(queue)
    && (forall p <- queue :: p in w.procs && w.procs[p].wait == Queued(k, d))
    && (Refs(w.pipes[k], Opposite(d)) == 0 ==> queue == [])
  }

  ghost predicate CountOk(w: World, k: nat, d: Dir)
    requires k < |w.pipes|
  {
    Refs(w.pipes[k], d) == |Holders(w.procs, End(k, d))|
  }

  // A registered process holds the end it waits on and asked for at least one byte.
  ghost predicate ProcOk(w: World, p: nat)
    requires p in w.procs
  {
    var c := w.procs[p];
    && |c.handles| == FDS
    && (c.wait.Idle? ||
        (&& c.wait.pipe < |w.pipes| && c.fd < FDS && c.handles[c.fd] == End(c.wait.pipe, c.wait.dir)
         && (if c.wait.dir.Reading? then c.want > 0 else c.text != [])
         && (c.wait.Queued? ==> p in Queue(w.pipes[c.wait.pipe], c.wait.dir))))
  }

  ghost predicate PipeOk(q: Pipe) { |q.data| <= CAPACITY && (q.used <==> q.readers > 0 || q.writers > 0) }

  ghost predicate Structure(w: World) {
    && |w.pipes| == PIPES
    && (forall k :: 0 <= k < PIPES ==> PipeOk(w.pipes[k]))
    && (forall k, d :: 0 <= k < PIPES ==> QueueOk(w, k, d))
    && (forall p <- w.procs :: ProcOk(w, p))
  }

  ghost predicate Counted(w: World) {
    && |w.pipes| == PIPES
    && (forall k, d :: 0 <= k < PIPES ==> CountOk(w, k, d))
    && (forall p, fd ::
        p in w.procs && 0 <= fd < |w.procs[p].handles| && w.procs[p].handles[fd].End? ==>
              w.procs[p].handles[fd].pipe < PIPES)
  }

  const NOBODY: int := -1

  // Somebody other than x was woken from the queue and has not resumed.
  ghost predicate Woke(w: World, k: nat, d: Dir, x: int) {
    exists p: nat :: p in w.procs && p != x && w.procs[p].wait == Woken(k, d)
  }

  // If a queued process could make progress, a woken one is on its way.
  ghost predicate Stirred(w: World, k: nat, d: Dir, x: int)
    requires k < |w.pipes|
  {
    Ready(w.pipes[k], d) && Queue(w.pipes[k], d) != [] ==> Woke(w, k, d, x)
  }

  ghost predicate NoLostWake(w: World) {
    |w.pipes| == PIPES && forall k, d :: 0 <= k < PIPES ==> Stirred(w, k, d, NOBODY)
  }

  ghost predicate Inv(w: World) { Structure(w) && Counted(w) && NoLostWake(w) }

  // ---------- counting ----------

  ghost predicate SameHandles(w: World, r: World) {
    |w.pipes| == |r.pipes| && w.procs.Keys == r.procs.Keys
        && (forall p <- w.procs :: r.procs[p].handles == w.procs[p].handles)
    && forall k, d :: 0 <= k < |w.pipes| ==> Refs(r.pipes[k], d) == Refs(w.pipes[k], d)
  }

  lemma HoldersSame(procs: map<nat, Proc>, procs': map<nat, Proc>, h: Handle)
    requires procs.Keys == procs'.Keys && forall p <- procs :: procs'[p].handles == procs[p].handles
    ensures Holders(procs, h) == Holders(procs', h)
  {
  }

  lemma CountedSame(w: World, r: World)
    requires Counted(w) && SameHandles(w, r)
    ensures Counted(r)
  {
    hide Holders;
    forall k, d | 0 <= k < PIPES ensures CountOk(r, k, d) {
      HoldersSame(w.procs, r.procs, End(k, d));
      assert CountOk(w, k, d);
    }
  }

  lemma IsHolder(procs: map<nat, Proc>, x: Handle, e: (nat, nat))
    ensures e in Holders(procs, x) <==> e.0 in procs && e.1 < |procs[e.0].handles| && procs[e.0].handles[e.1] == x
  {
  }

  function WithHandle(procs: map<nat, Proc>, p: nat, fd: nat, h: Handle): map<nat, Proc>
    requires p in procs && fd < |procs[p].handles|
  {
    procs[p := procs[p].(handles := procs[p].handles[fd := h])]
  }

  // One slot changes.
  lemma HoldersSet(procs: map<nat, Proc>, p: nat, fd: nat, h: Handle, x: Handle)
    requires p in procs && fd < |procs[p].handles|
    ensures var was := procs[p].handles[fd];
            |Holders(WithHandle(procs, p, fd, h), x)| == |Holders(procs, x)| - (if was == x then 1 else 0)
                + (if h == x then 1 else 0)
  {
    hide Holders;
    var was, now := Holders(procs, x), Holders(WithHandle(procs, p, fd, h), x);
    var other := was - {(p, fd)};
    IsHolder(procs, x, (p, fd));
    IsHolder(WithHandle(procs, p, fd, h), x, (p, fd));
    forall e: (nat, nat) | e != (p, fd) ensures e in now <==> e in was {
      IsHolder(procs, x, e);
      IsHolder(WithHandle(procs, p, fd, h), x, e);
    }
    assert now - {(p, fd)} == other;
    OneLess(now, (p, fd));
    OneLess(was, (p, fd));
  }

  lemma OneLess(s: set<(nat, nat)>, e: (nat, nat))
    ensures |s| == |s - {e}| + if e in s then 1 else 0
  {
    if e in s { assert s == (s - {e}) + {e}; } else { assert s - {e} == s; }
  }

  // A process without pipe ends does not count.
  lemma HoldersAdd(procs: map<nat, Proc>, p: nat, c: Proc, x: Handle)
    requires p !in procs && (forall fd :: 0 <= fd < |c.handles| ==> c.handles[fd] != x)
    ensures Holders(procs[p := c], x) == Holders(procs, x)
  {
  }

  lemma HoldersDrop(procs: map<nat, Proc>, p: nat, x: Handle)
    requires p in procs && (forall fd :: 0 <= fd < |procs[p].handles| ==> procs[p].handles[fd] != x)
    ensures Holders(procs - {p}, x) == Holders(procs, x)
  {
  }

  // ---------- small steps ----------

  lemma QueueSet(q: Pipe, d: Dir, queue: seq<nat>, e: Dir)
    ensures Queue(SetQueue(q, d, queue), e) == if e == d then queue else Queue(q, e)
    ensures Refs(SetQueue(q, d, queue), e) == Refs(q, e) && SetQueue(q, d, queue).data == q.data
            && SetQueue(q, d, queue).used == q.used
    ensures PipeOk(q) ==> PipeOk(SetQueue(q, d, queue))
  {
  }

  lemma RefsSet(q: Pipe, d: Dir, n: nat, e: Dir)
    ensures Refs(SetRefs(q, d, n), e) == if e == d then n else Refs(q, e)
    ensures Queue(SetRefs(q, d, n), e) == Queue(q, e) && SetRefs(q, d, n).data == q.data
            && SetRefs(q, d, n).used == q.used
  {
  }

  // What a process sees of the world depends on its own record and the queue it waits on.
  lemma OtherQueue(w: World, r: World, k: nat, d: Dir)
    requires k < |w.pipes| == |r.pipes| && QueueOk(w, k, d)
    requires Queue(r.pipes[k], d) == Queue(w.pipes[k], d)
             && (Refs(r.pipes[k], Opposite(d)) == 0 ==> Refs(w.pipes[k], Opposite(d)) == 0)
    requires forall p <- Queue(w.pipes[k], d) :: p in w.procs ==> p in r.procs && r.procs[p].wait == w.procs[p].wait
    ensures QueueOk(r, k, d)
  {
  }

  /** Waking the head of a queue keeps every queue and count. */
  lemma WakeOneKeeps(w: World, k: nat, d: Dir)
    requires Structure(w) && Counted(w) && k < PIPES
    ensures Structure(WakeOne(w, k, d)) && Counted(WakeOne(w, k, d))
    ensures forall e :: Refs(WakeOne(w, k, d).pipes[k], e) == Refs(w.pipes[k], e)
    ensures forall j :: 0 <= j < PIPES ==> WakeOne(w, k, d).pipes[j].data == w.pipes[j].data
  {
    hide QueueOk, ProcOk, PipeOk, Counted, Refs, SetQueue, Queue;
    var r := WakeOne(w, k, d);
    var queue := Queue(w.pipes[k], d);
    WakeOneIs(w, k, d);
    if queue == [] {
      return;
    }
    assert QueueOk(w, k, d);
    QueueHead(w, k, d);
    forall e: Dir
        ensures Queue(r.pipes[k], e) == (if e == d then queue[1..] else Queue(w.pipes[k], e))
                && Refs(r.pipes[k], e) == Refs(w.pipes[k], e)
                          && PipeOk(r.pipes[k]) && r.pipes[k].data == w.pipes[k].data {
      assert PipeOk(w.pipes[k]);
      QueueSet(w.pipes[k], d, queue[1..], e);
    }
    forall j, e | 0 <= j < PIPES ensures QueueOk(r, j, e) {
      assert QueueOk(w, j, e);
      if j == k && e == d {
        QueueTail(w, r, k, d);
      } else {
        NotQueued(w, k, d, j, e, queue[0]);
        OtherQueue(w, r, j, e);
      }
    }
    forall p <- r.procs ensures ProcOk(r, p) {
      assert ProcOk(w, p);
      WakeProc(w, r, k, d, p);
    }
    assert SameHandles(w, r) by {
      forall j, e | 0 <= j < PIPES ensures Refs(r.pipes[j], e) == Refs(w.pipes[j], e) {}
    }
    CountedSame(w, r);
  }

  lemma WakeOneIs(w: World, k: nat, d: Dir)
    requires k < |w.pipes| && QueueOk(w, k, d)
    ensures var queue, r := Queue(w.pipes[k], d), WakeOne(w, k, d);
            if queue == [] then r == w
            else queue[0] in w.procs && r.pipes == w.pipes[k := SetQueue(w.pipes[k], d, queue[1..])]
                 && r.procs == w.procs[queue[0] := w.procs[queue[0]].(wait := Woken(k, d))]
  {
  }

  lemma QueueHead(w: World, k: nat, d: Dir)
    requires k < |w.pipes| && QueueOk(w, k, d) && Queue(w.pipes[k], d) != []
    ensures var queue := Queue(w.pipes[k], d);
            queue[0] in w.procs && w.procs[queue[0]].wait == Queued(k, d) && queue[0] !in queue[1..]
  {
  }

  lemma QueueTail(w: World, r: World, k: nat, d: Dir)
    requires k < |w.pipes| == |r.pipes| && QueueOk(w, k, d) && Queue(w.pipes[k], d) != []
    requires Queue(r.pipes[k], d) == Queue(w.pipes[k], d)[1..]
             && Refs(r.pipes[k], Opposite(d)) == Refs(w.pipes[k], Opposite(d))
    requires r.procs == w.procs[Queue(w.pipes[k], d)[0] := w.procs[Queue(w.pipes[k], d)[0]].(wait := Woken(k, d))]
    ensures QueueOk(r, k, d)
  {
  }

  // A process waits on one queue only.
  lemma NotQueued(w: World, k: nat, d: Dir, j: nat, e: Dir, p: nat)
    requires k < |w.pipes| && j < |w.pipes| && QueueOk(w, j, e) && (k, d) != (j, e)
    requires p in w.procs && (w.procs[p].wait == Queued(k, d) || !w.procs[p].wait.Queued?)
    ensures p !in Queue(w.pipes[j], e)
  {
  }

  lemma WakeProc(w: World, r: World, k: nat, d: Dir, p: nat)
    requires k < |w.pipes| == |r.pipes| && p in w.procs && ProcOk(w, p) && Queue(w.pipes[k], d) != []
    requires Queue(w.pipes[k], d)[0] in w.procs && w.procs[Queue(w.pipes[k], d)[0]].wait == Queued(k, d)
    requires r.procs == w.procs[Queue(w.pipes[k], d)[0] := w.procs[Queue(w.pipes[k], d)[0]].(wait := Woken(k, d))]
    requires forall j, e :: 0 <= j < |w.pipes| ==>
                              Queue(r.pipes[j], e) == if (j, e) == (k, d)
                                  then Queue(w.pipes[k], d)[1..] else Queue(w.pipes[j], e)
    ensures ProcOk(r, p)
  {
    hide Queue;
    var queue := Queue(w.pipes[k], d);
    assert queue == [queue[0]] + queue[1..];
  }

  // ---------- local changes ----------

  // Only pipe k and the processes in `changed` differ.
  ghost predicate Local(w: World, r: World, k: nat, changed: set<nat>) {
    && |w.pipes| == |r.pipes| && k < |w.pipes| && w.procs.Keys == r.procs.Keys
    && (forall j :: 0 <= j < |w.pipes| && j != k ==> r.pipes[j] == w.pipes[j])
    && (forall p <- w.procs :: p !in changed ==> r.procs[p] == w.procs[p])
  }

  lemma StructureLocal(w: World, r: World, k: nat, changed: set<nat>)
    requires Structure(w) && Local(w, r, k, changed)
    requires PipeOk(r.pipes[k]) && forall d :: QueueOk(r, k, d)
    requires forall p <- changed ::
             p in r.procs && ProcOk(r, p) && (w.procs[p].wait.Queued? ==> w.procs[p].wait.pipe == k)
    requires forall d :: forall p <- Queue(w.pipes[k], d) :: p !in changed ==> p in Queue(r.pipes[k], d)
    ensures Structure(r)
  {
    hide PipeOk, Queue, Refs;
    forall j, e | 0 <= j < PIPES ensures QueueOk(r, j, e) {
      if j != k {
        assert QueueOk(w, j, e);
        forall p <- Queue(w.pipes[j], e) ensures p in r.procs && r.procs[p].wait == w.procs[p].wait {
          assert w.procs[p].wait == Queued(j, e);
        }
      }
    }
    forall p <- r.procs ensures ProcOk(r, p) {
      if p !in changed { assert ProcOk(w, p); }
    }
  }

  lemma LocalCounted(w: World, r: World, k: nat, changed: set<nat>)
    requires Counted(w) && Local(w, r, k, changed) && (forall d :: Refs(r.pipes[k], d) == Refs(w.pipes[k], d))
    requires forall p <- changed :: p in w.procs ==> r.procs[p].handles == w.procs[p].handles
    ensures Counted(r)
  {
    hide Counted;
    CountedSame(w, r);
  }

  // ---------- data ----------

  function WithData(w: World, k: nat, data: seq<bv8>): World
    requires k < |w.pipes|
  {
    SetPipe(w, k, w.pipes[k].(data := data))
  }

  lemma DataKeeps(w: World, k: nat, data: seq<bv8>)
    requires Structure(w) && Counted(w) && k < PIPES && |data| <= CAPACITY
    ensures Structure(WithData(w, k, data)) && Counted(WithData(w, k, data))
  {
    hide Counted, ProcOk, Distinct;
    var r := WithData(w, k, data);
    assert PipeOk(w.pipes[k]);
    forall d ensures QueueOk(r, k, d) { assert QueueOk(w, k, d); }
    StructureLocal(w, r, k, {});
    LocalCounted(w, r, k, {});
  }

  // ---------- joining a queue ----------

  lemma EnqueueKeeps(w: World, k: nat, d: Dir, p: nat)
    requires Structure(w) && Counted(w) && k < PIPES && p in w.procs && !w.procs[p].wait.Queued?
    requires var c := w.procs[p];
             c.fd < FDS && |c.handles| == FDS && c.handles[c.fd] == End(k, d)
                 && (if d.Reading? then c.want > 0 else c.text != [])
    requires Refs(w.pipes[k], Opposite(d)) > 0
    ensures Structure(Enqueue(w, k, d, p)) && Counted(Enqueue(w, k, d, p))
  {
    hide Counted, Refs;
    var r := Enqueue(w, k, d, p);
    assert PipeOk(w.pipes[k]);
    forall e: Dir ensures Queue(r.pipes[k], e) == (if e == d then Queue(w.pipes[k], e) + [p] else Queue(w.pipes[k], e))
                          && Refs(r.pipes[k], e) == Refs(w.pipes[k], e) && PipeOk(r.pipes[k]) {
      QueueSet(w.pipes[k], d, Queue(w.pipes[k], d) + [p], e);
    }
    hide Queue, SetQueue, PipeOk;
    forall e ensures QueueOk(r, k, e) {
      assert QueueOk(w, k, e);
    }
    StructureLocal(w, r, k, {p});
    LocalCounted(w, r, k, {p});
  }

  // ---------- leaving ----------

  lemma SetIdleKeeps(w: World, p: nat)
    requires Structure(w) && Counted(w) && p in w.procs && !w.procs[p].wait.Queued?
    ensures Structure(SetWait(w, p, Idle)) && Counted(SetWait(w, p, Idle))
  {
    hide Counted, Refs, PipeOk, Queue;
    var r := SetWait(w, p, Idle);
    assert PipeOk(w.pipes[0]) && ProcOk(w, p);
    forall e ensures QueueOk(r, 0, e) { assert QueueOk(w, 0, e); }
    StructureLocal(w, r, 0, {p});
    LocalCounted(w, r, 0, {p});
  }

  lemma {:induction false} MinusDistinct(queue: seq<nat>, p: nat)
    requires Distinct(queue)
    ensures Distinct(Minus(queue, p))
  {
    if queue != [] {
      MinusDistinct(queue[1..], p);
      var rest := Minus(queue[1..], p);
      assert queue[0] !in queue[1..];
      assert forall j :: 0 <= j < |rest| ==> rest[j] in rest;
    }
  }

  lemma LeaveKeeps(w: World, p: nat)
    requires Structure(w) && Counted(w) && p in w.procs && w.procs[p].wait.Queued? && w.procs[p].wait.pipe < PIPES
    ensures Structure(Cancel(w, p)) && Counted(Cancel(w, p))
  {
    hide Counted, Refs, Distinct;
    var k, d := w.procs[p].wait.pipe, w.procs[p].wait.dir;
    var r := Cancel(w, p);
    assert PipeOk(w.pipes[k]) && ProcOk(w, p);
    forall e: Dir
        ensures Queue(r.pipes[k], e) == (if e == d then Minus(Queue(w.pipes[k], e), p) else Queue(w.pipes[k], e))
                          && Refs(r.pipes[k], e) == Refs(w.pipes[k], e) && PipeOk(r.pipes[k]) {
      QueueSet(w.pipes[k], d, Minus(Queue(w.pipes[k], d), p), e);
    }
    hide Queue, SetQueue, PipeOk;
    forall e ensures QueueOk(r, k, e) {
      assert QueueOk(w, k, e);
      if e == d { MinusDistinct(Queue(w.pipes[k], d), p); }
    }
    StructureLocal(w, r, k, {p});
    LocalCounted(w, r, k, {p});
  }

  // ---------- waking everybody ----------

  lemma WakeAllKeeps(w: World, k: nat, d: Dir)
    requires Structure(w) && k < PIPES
    ensures Structure(WakeAll(w, k, d)) && Queue(WakeAll(w, k, d).pipes[k], d) == []
    ensures SameHandles(w, WakeAll(w, k, d))
  {
    hide Refs;
    var r := WakeAll(w, k, d);
    var queue := Queue(w.pipes[k], d);
    assert PipeOk(w.pipes[k]) && QueueOk(w, k, d);
    forall e: Dir ensures Queue(r.pipes[k], e) == (if e == d then [] else Queue(w.pipes[k], e))
                          && Refs(r.pipes[k], e) == Refs(w.pipes[k], e) && PipeOk(r.pipes[k]) {
      QueueSet(w.pipes[k], d, [], e);
    }
    hide Queue, SetQueue, PipeOk;
    forall e ensures QueueOk(r, k, e) { assert QueueOk(w, k, e); }
    var changed := set p | p in queue;
    forall p <- changed
        ensures p in r.procs && ProcOk(r, p) && (w.procs[p].wait.Queued? ==> w.procs[p].wait.pipe == k) {
      assert ProcOk(w, p);
    }
    StructureLocal(w, r, k, changed);
  }
}
