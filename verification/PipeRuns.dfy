/**
 No wake-up is lost and no pipe is recycled while it is referred to, in every run of the pipe
 machine.
 */
module PipeRuns {
  import opened PipeWorld
  import opened PipeInvariant

  // ---------- wake-ups in flight ----------

  ghost predicate StirredBut(w: World, x: int, k: nat, d: Dir) {
    forall j, e :: 0 <= j < |w.pipes| && (j, e) != (k, d) ==> Stirred(w, j, e, x)
  }

  // Whoever was woken still is.
  lemma WokeKept(w: World, r: World, k: nat, d: Dir, x: int)
    requires forall p <- w.procs :: p != x && w.procs[p].wait == Woken(k, d) ==>
                                      p in r.procs && r.procs[p].wait == Woken(k, d)
    ensures Woke(w, k, d, x) ==> Woke(r, k, d, x)
  {
    if Woke(w, k, d, x) {
      var p: nat :| p in w.procs && p != x && w.procs[p].wait == Woken(k, d);
      assert p in r.procs && r.procs[p].wait == Woken(k, d);
    }
  }

  /** Waking the head leaves every queue served; the woken process is not one that already ran. */
  lemma WakeOneStirs(w: World, k: nat, d: Dir, x: int)
    requires Structure(w) && k < PIPES && (x >= 0 && x in w.procs ==> !w.procs[x].wait.Queued?)
    ensures Stirred(WakeOne(w, k, d), k, d, x)
    ensures forall j, e :: 0 <= j < PIPES && Stirred(w, j, e, x) ==> Stirred(WakeOne(w, k, d), j, e, x)
    ensures x >= 0 && x in w.procs ==> WakeOne(w, k, d).procs[x] == w.procs[x]
  {
    hide SetQueue, Queue, Refs, ProcOk, PipeOk, Ready;
    var r := WakeOne(w, k, d);
    var queue := Queue(w.pipes[k], d);
    assert QueueOk(w, k, d);
    WakeOneIs(w, k, d);
    if queue != [] {
      QueueHead(w, k, d);
      assert r.procs[queue[0]].wait == Woken(k, d) && queue[0] != x;
      assert Woke(r, k, d, x);
      forall j, e | 0 <= j < PIPES && Stirred(w, j, e, x) ensures Stirred(r, j, e, x) {
        QueueSet(w.pipes[k], d, queue[1..], e);
        ReadyIs(w.pipes[k], r.pipes[k], e);
        WokeKept(w, r, j, e, x);
      }
    }
  }

  lemma ReadyIs(q: Pipe, q': Pipe, d: Dir)
    requires q.data == q'.data
    ensures Ready(q, d) == Ready(q', d)
  {
  }

  lemma DataStirs(w: World, k: nat, data: seq<bv8>, x: int)
    requires k < |w.pipes|
    ensures forall j, e :: 0 <= j < |w.pipes| && j != k && Stirred(w, j, e, x) ==>
                             Stirred(WithData(w, k, data), j, e, x)
  {
    var r := WithData(w, k, data);
    forall j, e | 0 <= j < |w.pipes| && j != k && Stirred(w, j, e, x) ensures Stirred(r, j, e, x) {
      WokeKept(w, r, j, e, x);
    }
  }

  // A transfer that moved bytes: all queues are served, whoever ran it.
  lemma PassOnKeeps(w: World, k: nat, d: Dir, p: nat)
    requires Structure(w) && Counted(w) && k < PIPES && p in w.procs && !w.procs[p].wait.Queued?
    requires forall j, e :: 0 <= j < PIPES && j != k ==> Stirred(w, j, e, p)
    ensures var r := PassOn(w, k, d); Structure(r) && Counted(r) && r.procs[p] == w.procs[p]
    ensures forall j, e :: 0 <= j < PIPES ==> Stirred(PassOn(w, k, d), j, e, p)
  {
    hide Structure, Counted, Stirred, WakeOne, Ready;
    StructurePipes(w);
    var w1 := WakeOne(w, k, Opposite(d));
    WakeOneKeeps(w, k, Opposite(d));
    WakeOneStirs(w, k, Opposite(d), p);
    var r := PassOn(w, k, d);
    if Ready(w.pipes[k], d) {
      WakeOneKeeps(w1, k, d);
      WakeOneStirs(w1, k, d, p);
    } else {
      ReadyIs(w.pipes[k], w1.pipes[k], d);
      NotReady(w1, k, d, p);
    }
    forall j, e | 0 <= j < PIPES ensures Stirred(r, j, e, p) {
      if j == k && e != d { assert e == Opposite(d); }
    }
  }

  lemma StructurePipes(w: World)
    requires Structure(w)
    ensures |w.pipes| == PIPES
  {
  }

  lemma NotReady(w: World, k: nat, d: Dir, x: int)
    requires k < |w.pipes| && (!Ready(w.pipes[k], d) || Queue(w.pipes[k], d) == [])
    ensures Stirred(w, k, d, x)
  {
  }

  // A reader or writer that runs, before its registration is dropped or renewed.
  lemma TransferKeeps(w: World, k: nat, d: Dir, want: nat, text: seq<bv8>, p: nat)
    requires Structure(w) && Counted(w) && k < PIPES && p in w.procs && !w.procs[p].wait.Queued?
    requires (if d.Reading? then want > 0 else text != []) && StirredBut(w, p, k, d)
    ensures var (r, reply) := Transfer(w, k, d, want, text);
            && Structure(r) && Counted(r) && r.procs[p] == w.procs[p]
            && (forall j, e :: 0 <= j < PIPES ==> Stirred(r, j, e, p))
            && (reply.Block? ==> !Ready(r.pipes[k], d) && Refs(r.pipes[k], Opposite(d)) > 0)
  {
    hide Structure, Counted, Stirred, PassOn, QueueOk;
    StructurePipes(w);
    var (r, reply) := Transfer(w, k, d, want, text);
    PipeFacts(w, k, d);
    var q := w.pipes[k];
    if d.Reading? {
      var n := Min(want, |q.data|);
      if n == 0 {
        assert r == w by { assert q.data[0..] == q.data; SameWorld(w, k); }
        NotReady(w, k, d, p);
      } else {
        DataKeeps(w, k, q.data[n..]);
        DataStirs(w, k, q.data[n..], p);
        PassOnKeeps(WithData(w, k, q.data[n..]), k, d, p);
      }
    } else if q.readers == 0 {
      NotReady(w, k, d, p);
    } else {
      var n := Min(|text|, if |q.data| < CAPACITY then CAPACITY - |q.data| else 0);
      if n == 0 {
        assert r == w by { assert q.data + text[..0] == q.data; SameWorld(w, k); }
        NotReady(w, k, d, p);
      } else {
        DataKeeps(w, k, q.data + text[..n]);
        DataStirs(w, k, q.data + text[..n], p);
        PassOnKeeps(WithData(w, k, q.data + text[..n]), k, d, p);
      }
    }
  }

  lemma SameWorld(w: World, k: nat)
    requires k < |w.pipes|
    ensures WithData(w, k, w.pipes[k].data) == w
  {
    assert w.pipes[k := w.pipes[k].(data := w.pipes[k].data)] == w.pipes;
  }

  lemma PipeFacts(w: World, k: nat, d: Dir)
    requires Structure(w) && k < PIPES
    ensures |w.pipes| == PIPES && |w.pipes[k].data| <= CAPACITY
            && (Refs(w.pipes[k], Opposite(d)) == 0 ==> Queue(w.pipes[k], d) == [])
  {
    assert PipeOk(w.pipes[k]) && QueueOk(w, k, d);
  }

  // ---------- system calls ----------

  // Everything served even without p: p may join a queue nobody could leave yet.
  lemma JoinKeeps(w: World, k: nat, d: Dir, p: nat)
    requires Structure(w) && Counted(w) && k < PIPES && p in w.procs && !w.procs[p].wait.Queued?
    requires forall j, e :: 0 <= j < PIPES ==> Stirred(w, j, e, p)
    requires !Ready(w.pipes[k], d) && Refs(w.pipes[k], Opposite(d)) > 0
    requires var c := w.procs[p];
             c.fd < FDS && |c.handles| == FDS && c.handles[c.fd] == End(k, d)
                 && (if d.Reading? then c.want > 0 else c.text != [])
    ensures Inv(Enqueue(w, k, d, p))
  {
    hide Structure, Counted, Refs;
    StructurePipes(w);
    var r := Enqueue(w, k, d, p);
    EnqueueKeeps(w, k, d, p);
    StructurePipes(r);
    forall j, e | 0 <= j < PIPES ensures Stirred(r, j, e, NOBODY) {
      QueueSet(w.pipes[k], d, Queue(w.pipes[k], d) + [p], e);
      ReadyIs(w.pipes[k], r.pipes[k], e);
      assert Stirred(w, j, e, p);
      WokeKept(w, r, j, e, p);
      WokeAny(r, j, e, p);
    }
  }

  lemma WokeAny(w: World, k: nat, d: Dir, x: int)
    ensures Woke(w, k, d, x) ==> Woke(w, k, d, NOBODY)
  {
  }

  lemma DropKeeps(w: World, p: nat)
    requires Structure(w) && Counted(w) && p in w.procs && !w.procs[p].wait.Queued?
    requires forall j, e :: 0 <= j < PIPES ==> Stirred(w, j, e, p)
    ensures Inv(SetWait(w, p, Idle))
  {
    hide Structure, Counted, Ready, Queue;
    StructurePipes(w);
    var r := SetWait(w, p, Idle);
    SetIdleKeeps(w, p);
    forall j, e | 0 <= j < PIPES ensures Stirred(r, j, e, NOBODY) {
      assert Stirred(w, j, e, p);
      WokeKept(w, r, j, e, p);
      WokeAny(r, j, e, p);
    }
  }

  // A process that is not woken from this queue is not what keeps the queue served.
  lemma StirredWithout(w: World, k: nat, d: Dir, p: nat)
    requires k < |w.pipes| && p in w.procs && w.procs[p].wait != Woken(k, d) && Stirred(w, k, d, NOBODY)
    ensures Stirred(w, k, d, p)
  {
  }

  lemma CallKeeps(w: World, p: nat, fd: nat, want: nat, text: seq<bv8>)
    requires Inv(w) && p in w.procs && w.procs[p].wait.Idle? && Asks(w, p, fd, want, text)
    ensures Inv(Call(w, p, fd, want, text))
  {
    hide Structure, Stirred, CountOk, Transfer, Enqueue;
    StructurePipes(w);
    HandleLength(w, p);
    var h := HandleOf(w, p, fd);
    if h.End? {
      forall j, e | 0 <= j < PIPES ensures Stirred(w, j, e, p) { StirredWithout(w, j, e, p); }
      TransferKeeps(w, h.pipe, h.dir, want, text, p);
      var (w1, reply) := Transfer(w, h.pipe, h.dir, want, text);
      if reply.Block? {
        var w2 := w1.(procs := w1.procs[p := w1.procs[p].(fd := fd, want := want, text := text)]);
        NoteKeeps(w1, p, fd, want, text);
        JoinKeeps(w2, h.pipe, h.dir, p);
      } else {
        SameWait(w1, p);
        DropKeeps(w1, p);
      }
    }
  }

  lemma HandleLength(w: World, p: nat)
    requires Structure(w) && p in w.procs
    ensures |w.procs[p].handles| == FDS
    ensures !w.procs[p].wait.Idle? ==>
              var c := w.procs[p]; c.wait.pipe < PIPES && c.fd < FDS && c.handles[c.fd] == End(c.wait.pipe, c.wait.dir)
                                   && (if c.wait.dir.Reading? then c.want > 0 else c.text != [])
  {
    assert ProcOk(w, p);
  }

  lemma SameWait(w: World, p: nat)
    requires p in w.procs && w.procs[p].wait.Idle?
    ensures SetWait(w, p, Idle) == w
  {
    assert w.procs[p := w.procs[p].(wait := Idle)] == w.procs;
  }

  // Remembering the arguments of the call.
  lemma NoteKeeps(w: World, p: nat, fd: nat, want: nat, text: seq<bv8>)
    requires Structure(w) && Counted(w) && p in w.procs && w.procs[p].wait.Idle? && forall j, e ::
             0 <= j < PIPES ==> Stirred(w, j, e, p)
    ensures var r := w.(procs := w.procs[p := w.procs[p].(fd := fd, want := want, text := text)]);
            Structure(r) && Counted(r) && forall j, e :: 0 <= j < PIPES ==> Stirred(r, j, e, p)
  {
    hide Counted, Refs, PipeOk, Queue, Ready;
    var r := w.(procs := w.procs[p := w.procs[p].(fd := fd, want := want, text := text)]);
    assert PipeOk(w.pipes[0]) && ProcOk(w, p);
    forall e ensures QueueOk(r, 0, e) { assert QueueOk(w, 0, e); }
    StructureLocal(w, r, 0, {p});
    LocalCounted(w, r, 0, {p});
    forall j, e | 0 <= j < PIPES ensures Stirred(r, j, e, p) {
      assert Stirred(w, j, e, p);
      WokeKept(w, r, j, e, p);
    }
  }

  lemma CancelKeeps(w: World, p: nat)
    requires Inv(w) && p in w.procs
    ensures w.procs[p].wait.Idle? || w.procs[p].wait.pipe < PIPES
    ensures Inv(Cancel(w, p)) && Cancel(w, p).procs[p].wait.Idle?
  {
    hide Structure, CountOk, Stirred, WakeOne;
    StructurePipes(w);
    HandleLength(w, p);
    match w.procs[p].wait
    case Idle =>
    case Queued(k, d) =>
      LeaveKeeps(w, p);
      LeaveStirs(w, p);
    case Woken(k, d) =>
      var w1 := SetWait(w, p, Idle);
      SetIdleKeeps(w, p);
      WakeOneKeeps(w1, k, d);
      WakeOneStirs(w1, k, d, p);
      var r := WakeOne(w1, k, d);
      forall j, e | 0 <= j < PIPES ensures Stirred(r, j, e, NOBODY) {
        if (j, e) != (k, d) {
          StirredWithout(w, j, e, p);
          IdleStirs(w, p, j, e);
        }
        StirredAny(r, j, e, p);
      }
  }

  lemma StirredAny(w: World, k: nat, d: Dir, x: int)
    requires k < |w.pipes| && Stirred(w, k, d, x)
    ensures Stirred(w, k, d, NOBODY)
  {
  }

  lemma IdleStirs(w: World, p: nat, k: nat, d: Dir)
    requires k < |w.pipes| && p in w.procs && Stirred(w, k, d, p)
    ensures Stirred(SetWait(w, p, Idle), k, d, p)
  {
    WokeKept(w, SetWait(w, p, Idle), k, d, p);
  }

  lemma LeaveStirs(w: World, p: nat)
    requires |w.pipes| == PIPES && p in w.procs && w.procs[p].wait.Queued? && w.procs[p].wait.pipe < PIPES
             && NoLostWake(w)
    ensures NoLostWake(Cancel(w, p))
  {
    hide Ready;
    var r := Cancel(w, p);
    var k, d := w.procs[p].wait.pipe, w.procs[p].wait.dir;
    forall j, e | 0 <= j < PIPES ensures Stirred(r, j, e, NOBODY) {
      assert Stirred(w, j, e, NOBODY);
      QueueSet(w.pipes[k], d, Minus(Queue(w.pipes[k], d), p), e);
      ReadyIs(w.pipes[k], r.pipes[k], e);
      WokeKept(w, r, j, e, NOBODY);
      MinusNone(Queue(w.pipes[k], d), p);
    }
  }

  lemma MinusNone(queue: seq<nat>, p: nat)
    ensures queue == [] ==> Minus(queue, p) == []
  {
  }

  /** A woken process that runs: done, waiting again, or giving up; no wake is lost either way. */
  lemma ResumeKeeps(w: World, p: nat, fault: bool)
    requires Inv(w) && p in w.procs && w.procs[p].wait.Woken?
    ensures w.procs[p].wait.pipe < PIPES && Inv(Resume(w, p, fault))
  {
    hide Structure, CountOk, Stirred, Transfer, Enqueue, Cancel;
    StructurePipes(w);
    HandleLength(w, p);
    var c := w.procs[p];
    CancelKeeps(w, p);
    if !fault {
      var k, d := c.wait.pipe, c.wait.dir;
      forall j, e | 0 <= j < PIPES && (j, e) != (k, d) ensures Stirred(w, j, e, p) { StirredWithout(w, j, e, p); }
      TransferKeeps(w, k, d, c.want, c.text, p);
      var (w1, reply) := Transfer(w, k, d, c.want, c.text);
      if reply.Block? { JoinKeeps(w1, k, d, p); } else { DropKeeps(w1, p); }
    }
  }
}
