/**
 Handles and reference counts: a pipe's counts equal the handle slots that name its ends, through
 creating, cloning, closing, inheriting and exiting.
 */
module PipeHandles {
  import opened PipeWorld
  import opened PipeInvariant
  import opened PipeRuns

  function Skew(d: Dir, dr: int, dw: int): int { if d.Reading? then dr else dw }

  // Counted, but for pipe k, whose counts are off while a call is under way.
  ghost predicate CountedBut(w: World, k: nat, dr: int, dw: int) {
    && |w.pipes| == PIPES
    && (forall j, d ::
        0 <= j < PIPES ==> Refs(w.pipes[j], d) == |Holders(w.procs, End(j, d))| + if j == k then Skew(d, dr, dw) else 0)
    && (forall p, fd ::
        p in w.procs && 0 <= fd < |w.procs[p].handles| && w.procs[p].handles[fd].End? ==>
              w.procs[p].handles[fd].pipe < PIPES)
  }

  lemma CountedExactly(w: World, k: nat)
    ensures Counted(w) <==> CountedBut(w, k, 0, 0)
  {
    hide Holders, Refs;
    if Counted(w) {
      forall j, d | 0 <= j < PIPES
          ensures Refs(w.pipes[j], d) == |Holders(w.procs, End(j, d))| + if j == k then Skew(d, 0, 0) else 0 {
        assert CountOk(w, j, d);
      }
    }
    if CountedBut(w, k, 0, 0) { forall j, d | 0 <= j < PIPES ensures CountOk(w, j, d) {} }
  }

  lemma CountedSkew(w: World, r: World, k: nat, dr: int, dw: int, dr': int, dw': int)
    requires CountedBut(w, k, dr, dw) && |r.pipes| == PIPES && k < PIPES
    requires w.procs.Keys == r.procs.Keys && forall p <- w.procs :: r.procs[p].handles == w.procs[p].handles
    requires forall j, d :: 0 <= j < PIPES && j != k ==> Refs(r.pipes[j], d) == Refs(w.pipes[j], d)
    requires forall d :: Refs(r.pipes[k], d) - Skew(d, dr', dw') == Refs(w.pipes[k], d) - Skew(d, dr, dw)
    ensures CountedBut(r, k, dr', dw')
  {
    hide Holders;
    forall j, d | 0 <= j < PIPES
        ensures Refs(r.pipes[j], d) == |Holders(r.procs, End(j, d))| + if j == k then Skew(d, dr', dw') else 0 {
      HoldersSame(w.procs, r.procs, End(j, d));
      assert Refs(w.pipes[j], d) == |Holders(w.procs, End(j, d))| + if j == k then Skew(d, dr, dw) else 0;
    }
  }

  // A slot of an idle process changes, on pipe k or between slots that are no pipe ends.
  lemma SetHandleCounts(w: World, p: nat, fd: nat, h: Handle, k: nat, dr: int, dw: int, dr': int, dw': int)
    requires CountedBut(w, k, dr, dw) && k < PIPES && p in w.procs && fd < |w.procs[p].handles|
    requires (h.End? ==> h.pipe == k) && (w.procs[p].handles[fd].End? ==> w.procs[p].handles[fd].pipe == k)
    requires forall d ::
             Skew(d, dr', dw') == Skew(d, dr, dw) + (if w.procs[p].handles[fd] == End(k, d) then 1 else 0)
                 - (if h == End(k, d) then 1 else 0)
    ensures CountedBut(SetHandle(w, p, fd, h), k, dr', dw')
  {
    hide Holders, Refs, Skew;
    var r := SetHandle(w, p, fd, h);
    forall j, d | 0 <= j < PIPES
        ensures Refs(r.pipes[j], d) == |Holders(r.procs, End(j, d))| + if j == k then Skew(d, dr', dw') else 0 {
      HoldersSet(w.procs, p, fd, h, End(j, d));
    }
  }

  lemma SetHandleKeeps(w: World, p: nat, fd: nat, h: Handle)
    requires Structure(w) && NoLostWake(w) && p in w.procs && w.procs[p].wait.Idle? && fd < |w.procs[p].handles|
    ensures Structure(SetHandle(w, p, fd, h)) && NoLostWake(SetHandle(w, p, fd, h))
  {
    hide Refs, PipeOk, Queue, Ready;
    var r := SetHandle(w, p, fd, h);
    assert PipeOk(w.pipes[0]) && ProcOk(w, p);
    forall e ensures QueueOk(r, 0, e) { assert QueueOk(w, 0, e); }
    StructureLocal(w, r, 0, {p});
    forall j, e | 0 <= j < PIPES ensures Stirred(r, j, e, NOBODY) {
      assert Stirred(w, j, e, NOBODY);
      WokeKept(w, r, j, e, NOBODY);
    }
  }

  // ---------- closing an end ----------

  lemma WakeAllStirs(w: World, k: nat, d: Dir)
    requires Structure(w) && NoLostWake(w) && k < PIPES
    ensures NoLostWake(WakeAll(w, k, d))
  {
    hide Refs, Ready, ProcOk, PipeOk;
    var r := WakeAll(w, k, d);
    var queue := Queue(w.pipes[k], d);
    assert QueueOk(w, k, d);
    forall j, e | 0 <= j < PIPES ensures Stirred(r, j, e, NOBODY) {
      assert Stirred(w, j, e, NOBODY);
      QueueSet(w.pipes[k], d, [], e);
      ReadyIs(w.pipes[k], r.pipes[k], e);
      WokeKept(w, r, j, e, NOBODY);
    }
  }

  // A count goes down; with nobody left of either kind the slot is recycled.
  lemma RefsDown(w: World, k: nat, d: Dir, n: nat)
    requires Structure(w) && NoLostWake(w) && k < PIPES && w.pipes[k].used
             && (n == 0 ==> Queue(w.pipes[k], Opposite(d)) == [])
    ensures var r := Recycle(SetPipe(w, k, SetRefs(w.pipes[k], d, n)), k);
            && Structure(r) && NoLostWake(r) && r.procs == w.procs
            && (forall j, e ::
                0 <= j < PIPES ==> Refs(r.pipes[j], e) == if (j, e) == (k, d) then n else Refs(w.pipes[j], e))
  {
    hide ProcOk, Distinct;
    var r := Recycle(SetPipe(w, k, SetRefs(w.pipes[k], d, n)), k);
    assert PipeOk(w.pipes[k]) && QueueOk(w, k, d) && QueueOk(w, k, Opposite(d));
    forall e: Dir
        ensures Queue(r.pipes[k], e) == Queue(w.pipes[k], e)
                && Refs(r.pipes[k], e) == (if e == d then n else Refs(w.pipes[k], e))
                          && (r.pipes[k].data == w.pipes[k].data || Queue(w.pipes[k], e) == []) {
    }
    assert PipeOk(r.pipes[k]);
    hide Queue, Refs, SetRefs, PipeOk, Ready;
    forall e ensures QueueOk(r, k, e) { assert QueueOk(w, k, e); }
    StructureLocal(w, r, k, {});
    forall j, e | 0 <= j < PIPES ensures Stirred(r, j, e, NOBODY) {
      assert Stirred(w, j, e, NOBODY);
      if r.pipes[j].data == w.pipes[j].data { ReadyIs(w.pipes[j], r.pipes[j], e); }
      WokeKept(w, r, j, e, NOBODY);
    }
  }

  lemma CloseOrder(w: World, k: nat, d: Dir, n: nat)
    requires k < |w.pipes|
    ensures var w1 := WakeAll(w, k, Opposite(d));
            WakeAll(SetPipe(w, k, SetRefs(w.pipes[k], d, n)), k, Opposite(d))
                == SetPipe(w1, k, SetRefs(w1.pipes[k], d, n))
  {
    var a := WakeAll(SetPipe(w, k, SetRefs(w.pipes[k], d, n)), k, Opposite(d));
    var w1 := WakeAll(w, k, Opposite(d));
    var b := SetPipe(w1, k, SetRefs(w1.pipes[k], d, n));
    assert a.pipes == b.pipes;
    assert a.procs == b.procs;
  }

  /** Closing one of several references, or the last of a kind, or the last of all. */
  lemma CloseEndKeeps(w: World, k: nat, d: Dir, dr: int, dw: int)
    requires Structure(w) && NoLostWake(w) && CountedBut(w, k, dr, dw) && k < PIPES && Refs(w.pipes[k], d) > 0
    ensures var r := CloseEnd(w, k, d);
            && Structure(r) && NoLostWake(r)
               && CountedBut(r, k, dr - (if d.Reading? then 1 else 0), dw - (if d.Writing? then 1 else 0))
            && (forall p <- w.procs :: w.procs[p].wait.Idle? ==> r.procs[p] == w.procs[p])
            && (forall e :: e != d ==> Refs(r.pipes[k], e) == Refs(w.pipes[k], e))
  {
    hide Structure, NoLostWake, CountedBut, WakeAll, Recycle, Refs;
    StructurePipes(w);
    var r := CloseEnd(w, k, d);
    UsedFrom(w, k, d);
    var n := Refs(w.pipes[k], d) - 1;
    var w1 := if n == 0 then WakeAll(w, k, Opposite(d)) else w;
    if n == 0 {
      WakeAllKeeps(w, k, Opposite(d));
      WakeAllStirs(w, k, Opposite(d));
      WakeAllUsed(w, k, Opposite(d));
      CloseOrder(w, k, d, n);
    }
    RefsDown(w1, k, d, n);
    CountedSkew(w, r, k, dr, dw, dr - (if d.Reading? then 1 else 0), dw - (if d.Writing? then 1 else 0));
  }

  lemma UsedFrom(w: World, k: nat, d: Dir)
    requires Structure(w) && k < PIPES && Refs(w.pipes[k], d) > 0
    ensures |w.pipes| == PIPES && w.pipes[k].used
  {
    assert PipeOk(w.pipes[k]);
  }

  lemma WakeAllUsed(w: World, k: nat, d: Dir)
    requires Structure(w) && k < PIPES
    ensures |w.pipes| == PIPES && WakeAll(w, k, d).pipes[k].used == w.pipes[k].used
    ensures forall p <- w.procs :: w.procs[p].wait.Idle? ==> WakeAll(w, k, d).procs[p] == w.procs[p]
  {
    assert QueueOk(w, k, d);
  }

  // ---------- releasing and cloning slots ----------

  lemma HolderCounts(w: World, p: nat, fd: nat, k: nat, dr: int, dw: int)
    requires CountedBut(w, k, dr, dw) && p in w.procs && fd < |w.procs[p].handles| && w.procs[p].handles[fd].End?
    requires k != w.procs[p].handles[fd].pipe || Skew(w.procs[p].handles[fd].dir, dr, dw) >= 0
    ensures var h := w.procs[p].handles[fd]; h.pipe < PIPES && Refs(w.pipes[h.pipe], h.dir) > 0
  {
    hide Refs;
    IsHolder(w.procs, w.procs[p].handles[fd], (p, fd));
  }

  /** process_handle_release keeps the counts exact. */
  lemma ReleaseKeeps(w: World, p: nat, fd: nat)
    requires Inv(w) && p in w.procs && w.procs[p].wait.Idle? && fd < |w.procs[p].handles|
    ensures Inv(Release(w, p, fd))
            && Release(w, p, fd).procs[p] == w.procs[p].(handles := w.procs[p].handles[fd := Free])
  {
    hide Structure, NoLostWake, Counted, CountedBut, CloseEnd, Refs;
    StructurePipes(w);
    var h := w.procs[p].handles[fd];
    var k := if h.End? then h.pipe else 0;
    CountedExactly(w, k);
    var w1 := w;
    if h.End? {
      HolderCounts(w, p, fd, k, 0, 0);
      CloseEndKeeps(w, k, h.dir, 0, 0);
      w1 := CloseEnd(w, k, h.dir);
      SetHandleCounts(w1, p, fd, Free, k, -(if h.dir.Reading? then 1 else 0), -(if h.dir.Writing? then 1 else 0), 0, 0);
    } else {
      SetHandleCounts(w1, p, fd, Free, k, 0, 0, 0, 0);
    }
    SetHandleKeeps(w1, p, fd, Free);
    CountedExactly(SetHandle(w1, p, fd, Free), k);
  }

  lemma RefsUp(w: World, k: nat, d: Dir)
    requires Structure(w) && NoLostWake(w) && k < PIPES && w.pipes[k].used
    ensures var r := SetPipe(w, k, SetRefs(w.pipes[k], d, Refs(w.pipes[k], d) + 1)); Structure(r) && NoLostWake(r)
  {
    hide ProcOk, Distinct, Ready;
    var r := SetPipe(w, k, SetRefs(w.pipes[k], d, Refs(w.pipes[k], d) + 1));
    assert PipeOk(w.pipes[k]);
    assert PipeOk(r.pipes[k]);
    forall e ensures QueueOk(r, k, e) { assert QueueOk(w, k, e); }
    StructureLocal(w, r, k, {});
    forall j, e | 0 <= j < PIPES ensures Stirred(r, j, e, NOBODY) {
      assert Stirred(w, j, e, NOBODY);
      ReadyIs(w.pipes[j], r.pipes[j], e);
      WokeKept(w, r, j, e, NOBODY);
    }
  }

  /** process_handle_clone keeps the counts exact. */
  lemma CloneKeeps(w: World, h: Handle, p: nat, fd: nat)
    requires Inv(w) && p in w.procs && w.procs[p].wait.Idle? && fd < |w.procs[p].handles|
             && !w.procs[p].handles[fd].End?
    ensures var r := Clone(w, h, p, fd);
            && Inv(r) && (forall q <- w.procs :: q != p ==> r.procs[q] == w.procs[q])
            && r.procs[p].wait.Idle? && forall i ::
               0 <= i < |w.procs[p].handles| && i != fd ==> r.procs[p].handles[i] == w.procs[p].handles[i]
  {
    hide Structure, NoLostWake, Counted, CountedBut, Refs, SetRefs;
    StructurePipes(w);
    var k := if h.End? then h.pipe else 0;
    if h.End? && k < PIPES && CanAcquire(w.pipes[k], h.dir) {
      CountedExactly(w, k);
      var n := Refs(w.pipes[k], h.dir) + 1;
      var w1 := SetPipe(w, k, SetRefs(w.pipes[k], h.dir, n));
      RefsUp(w, k, h.dir);
      forall e: Dir ensures Refs(w1.pipes[k], e) == if e == h.dir then n else Refs(w.pipes[k], e) {
        RefsSet(w.pipes[k], h.dir, n, e);
      }
      var dr, dw := if h.dir.Reading? then 1 else 0, if h.dir.Writing? then 1 else 0;
      CountedSkew(w, w1, k, 0, 0, dr, dw);
      SetHandleCounts(w1, p, fd, h, k, dr, dw, 0, 0);
      SetHandleKeeps(w1, p, fd, h);
      CountedExactly(SetHandle(w1, p, fd, h), k);
    } else if h.Other? {
      CountedExactly(w, 0);
      SetHandleCounts(w, p, fd, h, 0, 0, 0, 0, 0);
      SetHandleKeeps(w, p, fd, h);
      CountedExactly(SetHandle(w, p, fd, h), 0);
    }
  }

  lemma ReleaseButIs(w: World, p: nat, kept: set<nat>, n: nat)
    requires p in w.procs && n <= |w.procs[p].handles|
    ensures n == 0 ==> ReleaseBut(w, p, kept, n) == w
    ensures n > 0 ==> var w1 := ReleaseBut(w, p, kept, n - 1);
                      ReleaseBut(w, p, kept, n) == if n - 1 in kept then w1 else Release(w1, p, n - 1)
  {
    hide Release;
  }

  lemma {:induction false} ReleaseButKeeps(w: World, p: nat, kept: set<nat>, n: nat)
    requires Inv(w) && p in w.procs && w.procs[p].wait.Idle? && n <= |w.procs[p].handles|
    ensures var r := ReleaseBut(w, p, kept, n); Inv(r) && r.procs[p].wait.Idle?
    ensures forall i :: 0 <= i < n && i !in kept ==> ReleaseBut(w, p, kept, n).procs[p].handles[i].Free?
  {
    hide Inv, Release, ReleaseBut;
    ReleaseButIs(w, p, kept, n);
    if n > 0 {
      ReleaseButKeeps(w, p, kept, n - 1);
      var w1 := ReleaseBut(w, p, kept, n - 1);
      ReleaseKeeps(w1, p, n - 1);
    }
  }

  lemma {:induction false} InheritKeeps(w: World, src: nat, dst: nat, chosen: set<nat>, n: nat)
    requires Inv(w) && src in w.procs && dst in w.procs && src != dst && w.procs[dst].wait.Idle?
    requires n <= |w.procs[src].handles| && n <= |w.procs[dst].handles| && forall i ::
             0 <= i < |w.procs[dst].handles| ==> w.procs[dst].handles[i].Free?
    ensures var r := Inherit(w, src, dst, chosen, n); Inv(r) && r.procs[dst].wait.Idle?
    ensures forall i :: n <= i < |w.procs[dst].handles| ==> Inherit(w, src, dst, chosen, n).procs[dst].handles[i].Free?
  {
    hide Inv, Clone;
    if n > 0 {
      InheritKeeps(w, src, dst, chosen, n - 1);
      var w1 := Inherit(w, src, dst, chosen, n - 1);
      CloneKeeps(w1, HandleOf(w1, src, n - 1), dst, n - 1);
    }
  }

  // ---------- creating a pipe ----------

  function Opened(w: World, k: nat): World
    requires k < |w.pipes|
  {
    SetPipe(w, k, Reset(w.pipes[k]).(used := true, readers := 1, writers := 1))
  }

  // A pipe that is not in use has no references and no waiters.
  lemma OpenedKeeps(w: World, k: nat)
    requires Inv(w) && k < PIPES && !w.pipes[k].used
    ensures Structure(Opened(w, k)) && NoLostWake(Opened(w, k)) && CountedBut(Opened(w, k), k, 1, 1)
  {
    hide ProcOk, Distinct, Counted, Ready;
    var r := Opened(w, k);
    assert PipeOk(w.pipes[k]) && QueueOk(w, k, Reading) && QueueOk(w, k, Writing);
    assert Queue(w.pipes[k], Reading) == [] && Queue(w.pipes[k], Writing) == [];
    forall e ensures QueueOk(r, k, e) { EmptyQueue(r, k, e); }
    StructureLocal(w, r, k, {});
    forall j, e | 0 <= j < PIPES ensures Stirred(r, j, e, NOBODY) {
      assert Stirred(w, j, e, NOBODY);
      if j != k { ReadyIs(w.pipes[j], r.pipes[j], e); }
      WokeKept(w, r, j, e, NOBODY);
    }
    CountedExactly(w, k);
    CountedSkew(w, r, k, 0, 0, 1, 1);
  }

  lemma EmptyQueue(w: World, k: nat, d: Dir)
    requires k < |w.pipes| && Queue(w.pipes[k], d) == []
    ensures QueueOk(w, k, d)
  {
  }

  lemma CreateKeeps(w: World, p: nat)
    requires Inv(w) && p in w.procs && w.procs[p].wait.Idle? && |w.procs[p].handles| == FDS
    ensures Inv(CreatePipe(w, p))
  {
    hide Structure, NoLostWake, Counted, CountedBut, CloseEnd, Release;
    StructurePipes(w);
    var k := FreePipe(w.pipes, 0);
    if k < PIPES {
      var w1 := Opened(w, k);
      OpenedKeeps(w, k);
      var r := FreeSlot(w.procs[p].handles, 3);
      if r == FDS {
        CloseEndKeeps(w1, k, Reading, 1, 1);
        CloseEndKeeps(CloseEnd(w1, k, Reading), k, Writing, 0, 1);
        CountedExactly(CreatePipe(w, p), k);
      } else {
        CreateRest(w1, p, k, r);
      }
    }
  }

  lemma CreateRest(w1: World, p: nat, k: nat, r: nat)
    requires Structure(w1) && NoLostWake(w1) && CountedBut(w1, k, 1, 1) && k < PIPES
             && w1.pipes[k].readers == w1.pipes[k].writers == 1
    requires p in w1.procs && w1.procs[p].wait.Idle? && |w1.procs[p].handles| == FDS && 3 <= r < FDS
             && w1.procs[p].handles[r].Free?
    ensures var w2 := SetHandle(w1, p, r, End(k, Reading));
            var s := FreeSlot(w2.procs[p].handles, 3);
            && |w2.pipes| == PIPES
            && Inv(if s == FDS then CloseEnd(Release(w2, p, r), k, Writing) else SetHandle(w2, p, s, End(k, Writing)))
  {
    hide Structure, NoLostWake, Counted, CountedBut, CloseEnd;
    StructurePipes(w1);
    var w2 := SetHandle(w1, p, r, End(k, Reading));
    SetHandleKeeps(w1, p, r, End(k, Reading));
    SetHandleCounts(w1, p, r, End(k, Reading), k, 1, 1, 0, 1);
    var s := FreeSlot(w2.procs[p].handles, 3);
    if s == FDS {
      CloseEndKeeps(w2, k, Reading, 0, 1);
      var w3 := CloseEnd(w2, k, Reading);
      SetHandleKeeps(w3, p, r, Free);
      SetHandleCounts(w3, p, r, Free, k, -1, 1, 0, 1);
      var w4 := SetHandle(w3, p, r, Free);
      CloseEndKeeps(w4, k, Writing, 0, 1);
      CountedExactly(CloseEnd(w4, k, Writing), k);
    } else {
      SetHandleKeeps(w2, p, s, End(k, Writing));
      SetHandleCounts(w2, p, s, End(k, Writing), k, 0, 1, 0, 0);
      CountedExactly(SetHandle(w2, p, s, End(k, Writing)), k);
    }
  }

  // ---------- processes come and go ----------

  lemma BornKeeps(w: World, p: nat)
    requires Inv(w) && p !in w.procs
    ensures Inv(w.(procs := w.procs[p := Newborn()]))
  {
    hide Holders, Refs, PipeOk, Queue, Ready, Distinct;
    var r := w.(procs := w.procs[p := Newborn()]);
    forall j, e | 0 <= j < PIPES ensures QueueOk(r, j, e) && CountOk(r, j, e) && Stirred(r, j, e, NOBODY) {
      assert QueueOk(w, j, e) && CountOk(w, j, e) && Stirred(w, j, e, NOBODY);
      HoldersAdd(w.procs, p, Newborn(), End(j, e));
      WokeKept(w, r, j, e, NOBODY);
    }
    forall q <- r.procs ensures ProcOk(r, q) { if q != p { assert ProcOk(w, q); } }
  }

  lemma ReapKeeps(w: World, p: nat)
    requires Inv(w) && p in w.procs && w.procs[p].wait.Idle? && forall h <- w.procs[p].handles :: h.Free?
    ensures Inv(w.(procs := w.procs - {p}))
  {
    hide Holders, Refs, PipeOk, Queue, Ready, Distinct;
    var r := w.(procs := w.procs - {p});
    forall j, e | 0 <= j < PIPES ensures QueueOk(r, j, e) && CountOk(r, j, e) && Stirred(r, j, e, NOBODY) {
      assert QueueOk(w, j, e) && CountOk(w, j, e) && Stirred(w, j, e, NOBODY);
      assert forall fd :: 0 <= fd < |w.procs[p].handles| ==> w.procs[p].handles[fd] in w.procs[p].handles;
      HoldersDrop(w.procs, p, End(j, e));
      WokeKept(w, r, j, e, NOBODY);
    }
    forall q <- r.procs ensures ProcOk(r, q) { assert ProcOk(w, q); }
  }

  // ---------- every run ----------

  lemma ExitKeeps(w: World, p: nat)
    requires Inv(w) && p in w.procs
    ensures w.procs[p].wait.Idle? || w.procs[p].wait.pipe < |w.pipes|
    ensures Inv(Exit(w, p)) && Exit(w, p).procs[p].wait.Idle? && forall h <- Exit(w, p).procs[p].handles :: h.Free?
  {
    hide Structure, NoLostWake, Counted, Cancel, ReleaseBut;
    StructurePipes(w);
    CancelKeeps(w, p);
    var w1 := Cancel(w, p);
    ReleaseButKeeps(w1, p, {}, |w1.procs[p].handles|);
  }

  lemma CopyKeeps(w: World, src: nat, sfd: nat, p: nat, fd: nat)
    requires Inv(w) && p in w.procs && w.procs[p].wait.Idle? && fd < |w.procs[p].handles|
    ensures Inv(Copy(w, src, sfd, p, fd))
  {
    hide Inv, Release, Clone;
    ReleaseKeeps(w, p, fd);
    var w1 := Release(w, p, fd);
    CloneKeeps(w1, HandleOf(w1, src, sfd), p, fd);
  }

  lemma SpawnKeeps(w: World, p: nat, child: nat, chosen: set<nat>)
    requires Inv(w) && Sized(w) && p in w.procs && child !in w.procs
    ensures var w1 := w.(procs := w.procs[child := Newborn()]); Inv(Inherit(w1, p, child, chosen, FDS))
  {
    hide Inv, Inherit;
    BornKeeps(w, child);
    InheritKeeps(w.(procs := w.procs[child := Newborn()]), p, child, chosen, FDS);
  }

  lemma InvSized(w: World)
    requires Inv(w)
    ensures Sized(w)
  {
    hide QueueOk, PipeOk, CountOk, Stirred;
    forall p <- w.procs ensures |w.procs[p].handles| == FDS && (w.procs[p].wait.Idle? || w.procs[p].wait.pipe < PIPES) {
      assert ProcOk(w, p);
    }
  }

  /** Every step keeps the queues, the counts and the wake-ups in flight. */
  lemma StepKeeps(w: World, a: Action)
    requires Inv(w) && Enabled(w, a)
    ensures Sized(w) && Inv(Step(w, a))
  {
    hide Inv, Sized, CreatePipe, Call, Resume, Cancel, Release, Copy, Inherit, ReleaseBut, Exit, Newborn, Asks;
    InvSized(w);
    SizedAt(w, a.p);
    match a
    case DoCreate(p) => CreateKeeps(w, p);
    case DoCall(p, fd, want, text) => CallKeeps(w, p, fd, want, text);
    case DoResume(p, fault) => ResumeKeeps(w, p, fault);
    case DoInterrupt(p) => CancelKeeps(w, p);
    case DoClose(p, fd) => ReleaseKeeps(w, p, fd);
    case DoCopy(src, sfd, p, fd) => CopyKeeps(w, src, sfd, p, fd);
    case DoSpawn(p, child, chosen) => SpawnKeeps(w, p, child, chosen);
    case DoExec(p, kept) => ReleaseButKeeps(w, p, kept, FDS);
    case DoExit(p) => ExitKeeps(w, p);
    case DoReap(p) => ReapKeeps(w, p);
  }

  lemma SizedAt(w: World, p: nat)
    requires Sized(w) && p in w.procs
    ensures |w.procs[p].handles| == FDS
  {
  }

  // The machine starts without pipes in use and with processes that hold none.
  ghost predicate Boot(w: World) {
    && |w.pipes| == PIPES && (forall k :: 0 <= k < PIPES ==> w.pipes[k] == Pipe(false, 0, 0, [], [], []))
    && (forall p <- w.procs :: w.procs[p] == Newborn())
  }

  lemma BootInv(w: World)
    requires Boot(w)
    ensures Inv(w)
  {
    forall k, d | 0 <= k < PIPES ensures CountOk(w, k, d) && QueueOk(w, k, d) && Stirred(w, k, d, NOBODY) {
      assert w.pipes[k] == Pipe(false, 0, 0, [], [], []);
      assert Holders(w.procs, End(k, d)) == {};
    }
    forall p <- w.procs ensures ProcOk(w, p) { assert w.procs[p] == Newborn(); }
  }

  // worlds[i + 1] follows from worlds[i] by actions[i].
  ghost predicate Run(worlds: seq<World>, actions: seq<Action>) {
    && |worlds| == |actions| + 1 && Boot(worlds[0])
    && (forall i :: 0 <= i < |actions| ==> Follows(worlds[i], actions[i], worlds[i + 1]))
  }

  ghost predicate Follows(w: World, a: Action, r: World) { Sized(w) && Enabled(w, a) && r == Step(w, a) }

  lemma {:induction false} RunKeeps(worlds: seq<World>, actions: seq<Action>, n: nat)
    requires Run(worlds, actions) && n < |worlds|
    ensures Inv(worlds[n])
  {
    hide Inv, Step, Enabled, Sized, Boot;
    if n == 0 {
      BootInv(worlds[0]);
    } else {
      RunKeeps(worlds, actions, n - 1);
      assert Follows(worlds[n - 1], actions[n - 1], worlds[n - 1 + 1]);
      StepKeeps(worlds[n - 1], actions[n - 1]);
    }
  }

  /**
   No wake-up is lost: in every state of every run, a pipe that holds data while readers are
   queued (or has room while writers are queued) has a woken process that has not resumed yet.
   */
  lemma NoWakeUpIsLost(worlds: seq<World>, actions: seq<Action>, n: nat, k: nat, d: Dir)
    requires Run(worlds, actions) && n < |worlds| && k < PIPES
    ensures |worlds[n].pipes| == PIPES
    ensures Ready(worlds[n].pipes[k], d) && Queue(worlds[n].pipes[k], d) != [] ==>
              exists p: nat :: p in worlds[n].procs && worlds[n].procs[p].wait == Woken(k, d)
  {
    hide Run, Structure, Counted, Ready, Queue;
    RunKeeps(worlds, actions, n);
    assert Stirred(worlds[n], k, d, NOBODY);
  }

  /** Once the other side is gone nobody is left waiting on a queue. */
  lemma NobodyWaitsForTheDead(worlds: seq<World>, actions: seq<Action>, n: nat, k: nat, d: Dir)
    requires Run(worlds, actions) && n < |worlds| && k < PIPES
    ensures |worlds[n].pipes| == PIPES
    ensures Refs(worlds[n].pipes[k], Opposite(d)) == 0 ==> Queue(worlds[n].pipes[k], d) == []
  {
    hide Run, Inv;
    RunKeeps(worlds, actions, n);
    assert Inv(worlds[n]) ==> Structure(worlds[n]) by { InvParts(worlds[n]); }
    PipeFacts(worlds[n], k, d);
  }

  lemma InvParts(w: World)
    ensures Inv(w) ==> Structure(w) && Counted(w) && NoLostWake(w)
  {
  }

  /**
   In every state of every run a pipe's counts are the numbers of handle slots that name its
   ends, and a pipe slot that is not in use is named by no handle and waited on by nobody.
   */
  lemma CountsAreExact(worlds: seq<World>, actions: seq<Action>, n: nat, k: nat, d: Dir)
    requires Run(worlds, actions) && n < |worlds| && k < PIPES
    ensures |worlds[n].pipes| == PIPES
    ensures Refs(worlds[n].pipes[k], d) == |Holders(worlds[n].procs, End(k, d))|
    ensures !worlds[n].pipes[k].used ==> Holders(worlds[n].procs, End(k, d)) == {} &&
                                         forall p <- worlds[n].procs ::
                                             var x := worlds[n].procs[p].wait; x.Idle? || (x.pipe, x.dir) != (k, d)
  {
    hide Run, Holders, QueueOk, Stirred;
    RunKeeps(worlds, actions, n);
    var w := worlds[n];
    assert CountOk(w, k, d) && PipeOk(w.pipes[k]);
    if !w.pipes[k].used {
      forall p <- w.procs ensures var x := w.procs[p].wait; x.Idle? || (x.pipe, x.dir) != (k, d) {
        assert ProcOk(w, p);
        IsHolder(w.procs, End(k, d), (p, w.procs[p].fd));
      }
    }
  }

  // ---------- requests for nothing ----------

  // A woken process about to resume on the end it waited on; what it asked for may be empty.
  ghost predicate Resuming(w: World, p: nat, k: nat, d: Dir) {
    && |w.pipes| == PIPES && k < PIPES && |w.pipes[k].data| <= CAPACITY && (forall e :: QueueOk(w, k, e))
    && p in w.procs && w.procs[p].wait == Woken(k, d) && HandleOf(w, p, w.procs[p].fd) == End(k, d)
  }

  predicate AsksNothing(c: Proc, d: Dir) { if d.Reading? then c.want == 0 else c.text == [] }

  // Where an empty request does no harm: a queue nobody is left on.
  predicate NobodyLeft(q: Pipe, d: Dir) { if d.Reading? then q.writers == 0 else q.writeQueue == [] }

  /**
   When a resumed process leaves its queue served: it gives up, or it asks for something, or
   nothing can be moved, or somebody else is woken from the queue, or nobody stays on it.  A
   woken writer of nothing succeeds and a woken reader of nothing queues again; neither passes
   the wake on.
   */
  lemma ResumeServesIff(w: World, p: nat, k: nat, d: Dir, fault: bool)
    requires Resuming(w, p, k, d)
    ensures Stirred(Resume(w, p, fault), k, d, NOBODY) <==>
              fault || !AsksNothing(w.procs[p], d) || !Ready(w.pipes[k], d) || Woke(w, k, d, p)
                  || NobodyLeft(w.pipes[k], d)
  {
    hide Resume, Stirred, Woke, Ready, QueueOk;
    if fault {
      GivingUpServes(w, p, k, d);
    } else if AsksNothing(w.procs[p], d) {
      AskingNothing(w, p, k, d);
    } else {
      AskingServes(w, p, k, d);
    }
  }

  lemma NotOnQueue(w: World, p: nat, k: nat, d: Dir)
    requires Resuming(w, p, k, d)
    ensures p !in w.pipes[k].readQueue && p !in w.pipes[k].writeQueue
  {
    assert QueueOk(w, k, Reading) && QueueOk(w, k, Writing);
  }

  // Waking the head serves the queue by somebody other than a process that is not on it.
  lemma HeadServes(w: World, k: nat, d: Dir, p: nat)
    requires k < |w.pipes| && p in w.procs && p !in Queue(w.pipes[k], d) && forall x <- Queue(w.pipes[k], d) ::
             x in w.procs
    ensures var r := WakeOne(w, k, d);
            && (Queue(r.pipes[k], d) == [] || Woke(r, k, d, p))
            && r.procs[p] == w.procs[p] && r.pipes[k].data == w.pipes[k].data
               && Queue(r.pipes[k], Opposite(d)) == Queue(w.pipes[k], Opposite(d))
  {
    var queue := Queue(w.pipes[k], d);
    if queue != [] {
      assert queue[0] in queue;
      var r := WakeOne(w, k, d);
      assert r.procs[queue[0]].wait == Woken(k, d);
      QueueSet(w.pipes[k], d, queue[1..], Opposite(d));
    }
  }

  lemma GivingUpServes(w: World, p: nat, k: nat, d: Dir)
    requires Resuming(w, p, k, d)
    ensures Stirred(Resume(w, p, true), k, d, NOBODY)
  {
    NotOnQueue(w, p, k, d);
    assert QueueOk(w, k, d);
    HeadServes(SetWait(w, p, Idle), k, d, p);
    WokeAny(Resume(w, p, true), k, d, p);
  }

  // What p does to its own registration decides nothing about the others.
  lemma WokeOthers(w: World, p: nat, wait: Wait, k: nat, d: Dir)
    requires p in w.procs && wait != Woken(k, d)
    ensures Woke(SetWait(w, p, wait), k, d, NOBODY) <==> Woke(w, k, d, p)
  {
    var r := SetWait(w, p, wait);
    if Woke(w, k, d, p) {
      var x: nat :| x in w.procs && x != p && w.procs[x].wait == Woken(k, d);
      assert r.procs[x].wait == Woken(k, d);
    }
    if Woke(r, k, d, NOBODY) {
      var x: nat :| x in r.procs && x != NOBODY && r.procs[x].wait == Woken(k, d);
      assert w.procs[x].wait == Woken(k, d);
    }
  }

  lemma AskingNothing(w: World, p: nat, k: nat, d: Dir)
    requires Resuming(w, p, k, d) && AsksNothing(w.procs[p], d)
    ensures Stirred(Resume(w, p, false), k, d, NOBODY) <==>
              !Ready(w.pipes[k], d) || Woke(w, k, d, p) || NobodyLeft(w.pipes[k], d)
  {
    var q, r := w.pipes[k], Resume(w, p, false);
    assert QueueOk(w, k, d);
    SameWorld(w, k);
    assert q.data[0..] == q.data && q.data + [] == q.data;
    WokeOthers(w, p, Idle, k, d);
    if d.Reading? && q.writers > 0 {
      var w1 := SetPipe(w, k, SetQueue(q, d, q.readQueue + [p]));
      assert r == SetWait(w1, p, Queued(k, d));
      WokeOthers(w1, p, Queued(k, d), k, d);
      assert Woke(w1, k, d, p) <==> Woke(w, k, d, p);
      assert r.pipes[k].readQueue == q.readQueue + [p];
    } else if !d.Reading? && q.readers > 0 && |q.data| >= CAPACITY {
      assert r.pipes[k].data == q.data;
    } else {
      assert r == SetWait(w, p, Idle);
    }
  }

  lemma AskingServes(w: World, p: nat, k: nat, d: Dir)
    requires Resuming(w, p, k, d) && !AsksNothing(w.procs[p], d)
    ensures Stirred(Resume(w, p, false), k, d, NOBODY)
  {
    hide Resume, Stirred, PassOn, QueueOk, WithData, MovableFrom;
    var q, c := w.pipes[k], w.procs[p];
    ResumeIs(w, p, k, d);
    var n := Amount(q, c, d);
    if (d.Writing? && q.readers == 0) || n == 0 {
      NotReady(Resume(w, p, false), k, d, NOBODY);
    } else {
      var data := if d.Reading? then q.data[n..] else q.data + c.text[..n];
      StillMovable(w, p, k, d, data);
      MovedServes(WithData(w, k, data), p, k, d);
    }
  }

  function Amount(q: Pipe, c: Proc, d: Dir): nat
    requires |q.data| <= CAPACITY
  {
    if d.Reading? then Min(c.want, |q.data|) else Min(|c.text|, CAPACITY - |q.data|)
  }

  // A request for something moves bytes and passes wakes on, or finds nothing it could move.
  lemma ResumeIs(w: World, p: nat, k: nat, d: Dir)
    requires Resuming(w, p, k, d) && !AsksNothing(w.procs[p], d)
    ensures var q, c, r := w.pipes[k], w.procs[p], Resume(w, p, false);
            var n := Amount(q, c, d);
            && |r.pipes| == |w.pipes|
            && (if (d.Writing? && q.readers == 0) || n == 0 then !Ready(r.pipes[k], d) || Queue(r.pipes[k], d) == []
                else r == SetWait(PassOn(WithData(w, k, if d.Reading? then q.data[n..] else q.data + c.text[..n]), k,
                                         d), p, Idle))
  {
    assert QueueOk(w, k, d);
    hide PassOn, QueueOk, Resume, WithData, SetWait;
    if d.Reading? {
      ReadResumeIs(w, p, k);
    } else {
      WriteResumeIs(w, p, k);
      WaitOnly(w, p, k);
    }
  }

  lemma WaitOnly(w: World, p: nat, k: nat)
    requires p in w.procs && k < |w.pipes|
    ensures SetWait(w, p, Idle).pipes == w.pipes
  {
  }

  lemma ReadResumeIs(w: World, p: nat, k: nat)
    requires Resuming(w, p, k, Reading) && w.procs[p].want > 0
    ensures var q, c, r := w.pipes[k], w.procs[p], Resume(w, p, false);
            var n := Min(c.want, |q.data|);
            |r.pipes| == |w.pipes| && if n == 0 then r.pipes[k].data == []
                           else r == SetWait(PassOn(WithData(w, k, q.data[n..]), k, Reading), p, Idle)
  {
    hide PassOn, QueueOk;
  }

  lemma WriteResumeIs(w: World, p: nat, k: nat)
    requires Resuming(w, p, k, Writing) && w.procs[p].text != []
    ensures var q, c, r := w.pipes[k], w.procs[p], Resume(w, p, false);
            var n := Min(|c.text|, CAPACITY - |q.data|);
            |r.pipes| == |w.pipes| && if q.readers == 0 then r == SetWait(w, p, Idle)
            else if n == 0 then |r.pipes[k].data| == CAPACITY
            else r == SetWait(PassOn(WithData(w, k, q.data + c.text[..n]), k, Writing), p, Idle)
  {
    hide PassOn, QueueOk;
  }

  // Waiters exist, and p is none of them.
  ghost predicate MovableFrom(w: World, p: nat, k: nat) {
    && k < |w.pipes| && p in w.procs && p !in w.pipes[k].readQueue && p !in w.pipes[k].writeQueue
    && (forall e, x | x in Queue(w.pipes[k], e) :: x in w.procs)
  }

  lemma StillMovable(w: World, p: nat, k: nat, d: Dir, data: seq<bv8>)
    requires Resuming(w, p, k, d)
    ensures MovableFrom(WithData(w, k, data), p, k)
  {
    NotOnQueue(w, p, k, d);
    var r := WithData(w, k, data);
    forall e, x | x in Queue(r.pipes[k], e) ensures x in r.procs { assert QueueOk(w, k, e); }
  }

  lemma MovedServes(w: World, p: nat, k: nat, d: Dir)
    requires MovableFrom(w, p, k)
    ensures Stirred(SetWait(PassOn(w, k, d), p, Idle), k, d, NOBODY)
  {
    hide WakeOne, Woke;
    var w1 := WakeOne(w, k, Opposite(d));
    HeadServes(w, k, Opposite(d), p);
    if Ready(w.pipes[k], d) { HeadServes(w1, k, d, p); }
    WokeOthers(PassOn(w, k, d), p, Idle, k, d);
  }

  // The two cases on their own, with other waiters left behind.
  lemma EmptyWriteSwallowsAWake(w: World, p: nat, k: nat)
    requires |w.pipes| == PIPES && k < PIPES && p in w.procs && w.procs[p].wait == Woken(k, Writing)
    requires HandleOf(w, p, w.procs[p].fd) == End(k, Writing) && w.procs[p].text == [] && w.pipes[k].readers > 0
    requires Ready(w.pipes[k], Writing) && Queue(w.pipes[k], Writing) != [] && !Woke(w, k, Writing, p)
    ensures var r := Resume(w, p, false);
            Ready(r.pipes[k], Writing) && Queue(r.pipes[k], Writing) == Queue(w.pipes[k], Writing)
                && !Woke(r, k, Writing, NOBODY)
  {
    assert w.pipes[k].data + [] == w.pipes[k].data;
    SameWorld(w, k);
    assert Resume(w, p, false) == SetWait(w, p, Idle);
  }

  lemma EmptyReadSwallowsAWake(w: World, p: nat, k: nat)
    requires |w.pipes| == PIPES && k < PIPES && p in w.procs && w.procs[p].wait == Woken(k, Reading)
    requires HandleOf(w, p, w.procs[p].fd) == End(k, Reading) && w.procs[p].want == 0 && w.pipes[k].writers > 0
    requires Ready(w.pipes[k], Reading) && !Woke(w, k, Reading, p)
    ensures var r := Resume(w, p, false);
            Ready(r.pipes[k], Reading) && Queue(r.pipes[k], Reading) == Queue(w.pipes[k], Reading) + [p]
                && !Woke(r, k, Reading, NOBODY)
  {
    assert w.pipes[k].data[0..] == w.pipes[k].data;
    SameWorld(w, k);
    assert Resume(w, p, false) == Enqueue(w, k, Reading, p);
  }
}
