/**
 What processes are told: when a pipe read or write moves bytes, when it blocks, when it is an end
 of file and when the pipe is broken, in every state of every run; and which handles each of the
 handle calls leaves where.
 */
module PipeReplies {
  import opened PipeWorld
  import opened PipeInvariant
  import opened PipeRuns
  import opened PipeHandles
  import opened PipeStreams

  // What the acting process is told by the transfer its action tries.
  function Answer(w: World, a: Action): Reply
    requires Tried(w, a).Request?
  {
    var q := Tried(w, a);
    Transfer(w, q.pipe, q.dir, q.want, q.text).1
  }

  // A process that tries a transfer holds the end and asks for at least one byte.
  lemma TriesOnItsEnd(w: World, a: Action)
    requires Inv(w) && Enabled(w, a) && Tried(w, a).Request?
    ensures var q := Tried(w, a);
            && q.pipe < PIPES == |w.pipes| && |w.pipes[q.pipe].data| <= CAPACITY
            && (if q.dir.Reading? then q.want > 0 else q.text != [])
            && w.pipes[q.pipe].used && Refs(w.pipes[q.pipe], q.dir) > 0
  {
    hide QueueOk, Stirred, Holders;
    var q := Tried(w, a);
    var fd := if a.DoCall? then a.fd else w.procs[a.p].fd;
    assert CountOk(w, q.pipe, q.dir) && PipeOk(w.pipes[q.pipe]) && ProcOk(w, a.p);
    IsHolder(w.procs, End(q.pipe, q.dir), (a.p, fd));
  }

  // The answer to a reader, from the bytes in the pipe and the writers left.
  predicate ReaderTold(data: seq<bv8>, written: bool, want: nat, reply: Reply) {
    && (reply.Block? <==> data == [] && written)
    && (reply == Done(0, []) <==> data == [] && !written)
    && (data != [] ==> reply.Done? && 0 < reply.count == |reply.bytes| <= want && reply.bytes <= data
                       && (reply.count == want || reply.bytes == data))
  }

  // The answer to a writer, from the room in the pipe and the readers left.
  predicate WriterTold(room: nat, heard: bool, text: seq<bv8>, reply: Reply) {
    && (reply.Broken? <==> !heard)
    && (reply.Block? <==> heard && room == 0)
    && (heard && room > 0 ==> reply.Done? && 0 < reply.count <= room && reply.count <= |text|
                              && (reply.count == |text| || reply.count == room))
  }

  lemma AnswerIs(w: World, a: Action)
    requires Inv(w) && Enabled(w, a) && Tried(w, a).Request?
    ensures var q := Tried(w, a);
            && q.pipe < PIPES == |w.pipes| && |w.pipes[q.pipe].data| <= CAPACITY
            && if q.dir.Reading?
               then ReaderTold(w.pipes[q.pipe].data, w.pipes[q.pipe].writers > 0, q.want, Answer(w, a))
               else WriterTold(CAPACITY - |w.pipes[q.pipe].data|, w.pipes[q.pipe].readers > 0, q.text, Answer(w, a))
  {
    hide Inv, Enabled, PassOn, Tried;
    TriesOnItsEnd(w, a);
    var q := Tried(w, a);
    var data := w.pipes[q.pipe].data;
    assert q.dir.Reading? && data != [] ==> |data[..Min(q.want, |data|)]| > 0;
  }

  // ---------- who waits afterwards ----------

  lemma WakeOneSpares(w: World, k: nat, d: Dir, p: nat)
    requires k < |w.pipes| && p in w.procs && p !in Queue(w.pipes[k], d)
    ensures WakeOne(w, k, d).procs[p] == w.procs[p]
    ensures forall e :: p !in Queue(w.pipes[k], e) ==> p !in Queue(WakeOne(w, k, d).pipes[k], e)
  {
  }

  lemma PassOnSpares(w: World, k: nat, d: Dir, p: nat)
    requires k < |w.pipes| && p in w.procs && forall e :: p !in Queue(w.pipes[k], e)
    ensures PassOn(w, k, d).procs[p] == w.procs[p]
  {
    hide WakeOne, Queue, Ready;
    WakeOneSpares(w, k, Opposite(d), p);
    WakeOneSpares(WakeOne(w, k, Opposite(d)), k, d, p);
  }

  lemma TransferSpares(w: World, k: nat, d: Dir, want: nat, text: seq<bv8>, p: nat)
    requires k < |w.pipes| && p in w.procs && forall e :: p !in Queue(w.pipes[k], e)
    ensures Transfer(w, k, d, want, text).0.procs[p] == w.procs[p]
  {
    hide PassOn, Queue;
    var q := w.pipes[k];
    forall e, data ensures Queue(q.(data := data), e) == Queue(q, e) { QueueOnly(q, data, e); }
    if d.Reading? {
      PassOnSpares(SetPipe(w, k, q.(data := q.data[Min(want, |q.data|)..])), k, Reading, p);
    } else {
      var n := Min(|text|, if |q.data| < CAPACITY then CAPACITY - |q.data| else 0);
      PassOnSpares(SetPipe(w, k, q.(data := q.data + text[..n])), k, Writing, p);
    }
  }

  lemma QueueOnly(q: Pipe, data: seq<bv8>, e: Dir)
    ensures Queue(q.(data := data), e) == Queue(q, e)
  {
  }

  lemma NotQueued(w: World, p: nat, k: nat)
    requires Inv(w) && p in w.procs && !w.procs[p].wait.Queued? && k < PIPES
    ensures |w.pipes| == PIPES && forall e :: p !in Queue(w.pipes[k], e)
  {
    hide CountOk, Stirred, ProcOk;
    forall e ensures p !in Queue(w.pipes[k], e) { assert QueueOk(w, k, e); }
  }

  // The process waits on the end afterwards exactly when it was told to block; its request is kept.
  lemma WaitsIffBlocked(w: World, a: Action)
    requires Inv(w) && Sized(w) && Enabled(w, a) && Tried(w, a).Request? && a.p in Step(w, a).procs
    ensures var q, c := Tried(w, a), Step(w, a).procs[a.p];
            if Answer(w, a).Block?
            then c.wait == Queued(q.pipe, q.dir) && c.want == q.want && c.text == q.text
                 && HandleOf(w, a.p, c.fd) == End(q.pipe, q.dir)
            else c.wait.Idle?
  {
    hide Inv, Transfer, Asks;
    TriesOnItsEnd(w, a);
    var q := Tried(w, a);
    NotQueued(w, a.p, q.pipe);
    TransferSpares(w, q.pipe, q.dir, q.want, q.text, a.p);
  }

  // An interrupted or exiting process waits for nothing any more, and its handles are all free once it exited.
  lemma GivesUpWaiting(w: World, p: nat)
    requires Inv(w) && p in w.procs
    ensures w.procs[p].wait.Idle? || w.procs[p].wait.pipe < |w.pipes|
    ensures Cancel(w, p).procs[p] == w.procs[p].(wait := Idle)
    ensures Exit(w, p).procs[p].wait.Idle? && forall h <- Exit(w, p).procs[p].handles :: h.Free?
  {
    ExitKeeps(w, p);
    hide Exit, WakeOne;
    if w.procs[p].wait.Woken? {
      var k, d := w.procs[p].wait.pipe, w.procs[p].wait.dir;
      NotQueued(w, p, k);
      WakeOneSpares(SetWait(w, p, Idle), k, d, p);
    }
  }

  // ---------- every run ----------

  lemma UsedStays(w: World, a: Action)
    requires Inv(w) && Sized(w) && Enabled(w, a) && Tried(w, a).Request?
    ensures |Step(w, a).pipes| == |w.pipes| && InUse(w, Tried(w, a).pipe) && InUse(Step(w, a), Tried(w, a).pipe)
  {
    hide Inv, Call, Resume, Moved, Asks;
    TriesOnItsEnd(w, a);
    SizedFacts(w, a.p);
    if a.DoCall? { CallFlows(w, a.p, a.fd, a.want, a.text); } else { ResumeFlows(w, a.p, a.fault); }
  }

  /**
   A read of at least one byte, in any state of any run.  It blocks exactly when the pipe is empty
   and some handle still names its writing end.  It is an end of file exactly when the pipe is
   empty and no handle names that end, and then every byte written in this life of the pipe has
   been read.  Otherwise it returns the oldest bytes, as many as asked for or all there are.
   */
  lemma ReadersAreTold(worlds: seq<World>, actions: seq<Action>, n: nat)
    requires Run(worlds, actions) && n < |actions| && Tried(worlds[n], actions[n]).Request?
             && Tried(worlds[n], actions[n]).dir.Reading?
    ensures var w, a, q := worlds[n], actions[n], Tried(worlds[n], actions[n]);
            var k := q.pipe;
            && k < |w.pipes| && InUse(w, k) && InUse(worlds[n + 1], k) && a.p in worlds[n + 1].procs
            && ReaderTold(w.pipes[k].data, Holders(w.procs, End(k, Writing)) != {}, q.want, Answer(w, a))
            && (Answer(w, a) == Done(0, []) ==>
                  Stream(worlds, actions, k, Reading, n) == Stream(worlds, actions, k, Writing, n))
            && (Answer(w, a).Done? ==>
                  Stream(worlds, actions, k, Reading, n + 1) == Stream(worlds, actions, k, Reading, n)
                      + Answer(w, a).bytes)
            && (if Answer(w, a).Block? then worlds[n + 1].procs[a.p].wait == Queued(k, Reading)
                else worlds[n + 1].procs[a.p].wait.Idle?)
  {
    hide Inv, Step, Enabled, Sized, Tried, Transfer, Holders, Boot;
    var w, a := worlds[n], actions[n];
    StepOf(worlds, actions, n);
    AnswerIs(w, a);
    var q := Tried(w, a);
    CountsAreExact(worlds, actions, n, q.pipe, Writing);
    UsedStays(w, a);
    PipeIsAStream(worlds, actions, q.pipe, n);
    WaitsIffBlocked(w, a);
  }

  /**
   A write of at least one byte, in any state of any run.  It fails exactly when no handle names
   the reading end; otherwise it blocks exactly when the buffer is full, and else it accepts as
   much of the text as there is room for.
   */
  lemma WritersAreTold(worlds: seq<World>, actions: seq<Action>, n: nat)
    requires Run(worlds, actions) && n < |actions| && Tried(worlds[n], actions[n]).Request?
             && Tried(worlds[n], actions[n]).dir.Writing?
    ensures var w, a, q := worlds[n], actions[n], Tried(worlds[n], actions[n]);
            var k := q.pipe;
            && k < |w.pipes| && InUse(w, k) && InUse(worlds[n + 1], k) && a.p in worlds[n + 1].procs
            && |w.pipes[k].data| <= CAPACITY
            && WriterTold(CAPACITY - |w.pipes[k].data|, Holders(w.procs, End(k, Reading)) != {}, q.text, Answer(w, a))
            && (Answer(w, a).Done? ==>
                  && Answer(w, a).count <= |q.text|
                  && Stream(worlds, actions, k, Writing, n + 1)
                     == Stream(worlds, actions, k, Writing, n) + q.text[..Answer(w, a).count])
            && (if Answer(w, a).Block? then worlds[n + 1].procs[a.p].wait == Queued(k, Writing)
                else worlds[n + 1].procs[a.p].wait.Idle?)
  {
    hide Inv, Step, Enabled, Sized, Tried, Transfer, Holders, Boot;
    var w, a := worlds[n], actions[n];
    StepOf(worlds, actions, n);
    AnswerIs(w, a);
    var q := Tried(w, a);
    CountsAreExact(worlds, actions, n, q.pipe, Reading);
    UsedStays(w, a);
    WaitsIffBlocked(w, a);
  }

  lemma StepOf(worlds: seq<World>, actions: seq<Action>, n: nat)
    requires Run(worlds, actions) && n < |actions|
    ensures Inv(worlds[n]) && Sized(worlds[n]) && Enabled(worlds[n], actions[n])
            && worlds[n + 1] == Step(worlds[n], actions[n])
    ensures Tried(worlds[n], actions[n]).Request? ==> actions[n].p in worlds[n + 1].procs
  {
    hide Inv, Step, Enabled, Sized, Tried, Boot;
    RunKeeps(worlds, actions, n);
    assert Follows(worlds[n], actions[n], worlds[n + 1]);
    if Tried(worlds[n], actions[n]).Request? { ActorStays(worlds[n], actions[n]); }
  }

  lemma ActorStays(w: World, a: Action)
    requires Sized(w) && Enabled(w, a) && Tried(w, a).Request?
    ensures a.p in Step(w, a).procs
  {
    hide Call, Resume, Asks;
  }

  // ---------- the handle calls ----------

  // Every slot of every process is as before, but for one that holds h.
  ghost predicate OnlySlot(w: World, r: World, p: nat, fd: nat, h: Handle) {
    forall q: nat, i: nat :: HandleOf(r, q, i) == if q == p && i == fd then h else HandleOf(w, q, i)
  }

  ghost predicate SameSlots(w: World, r: World) { forall q: nat, i: nat :: HandleOf(r, q, i) == HandleOf(w, q, i) }

  lemma SetSlot(w: World, p: nat, fd: nat, h: Handle)
    requires p in w.procs && fd < |w.procs[p].handles|
    ensures OnlySlot(w, SetHandle(w, p, fd, h), p, fd, h)
  {
  }

  lemma CloseEndSlots(w: World, k: nat, d: Dir)
    requires k < |w.pipes|
    ensures SameSlots(w, CloseEnd(w, k, d))
  {
    hide Refs, SetRefs, Opposite, WakeAll, SameSlots;
    SamePipesSlots(w, w);
    if w.pipes[k].used {
      var n := if Refs(w.pipes[k], d) > 0 then Refs(w.pipes[k], d) - 1 else 0;
      var w1 := SetPipe(w, k, SetRefs(w.pipes[k], d, n));
      SamePipesSlots(w, w1);
      WakeAllSlots(w1, k, Opposite(d));
      var w2 := if n == 0 then WakeAll(w1, k, Opposite(d)) else w1;
      assert SameSlots(w, w2) by { SlotsTwice(w, w1, w2); }
      SamePipesSlots(w2, Recycle(w2, k));
      SlotsTwice(w, w2, Recycle(w2, k));
    }
  }

  lemma WakeAllSlots(w: World, k: nat, d: Dir)
    requires k < |w.pipes|
    ensures SameSlots(w, WakeAll(w, k, d))
  {
  }

  lemma ReleaseSlots(w: World, p: nat, fd: nat)
    requires p in w.procs && fd < |w.procs[p].handles|
    ensures OnlySlot(w, Release(w, p, fd), p, fd, Free)
  {
    hide CloseEnd, HandleOf;
    var h := HandleOf(w, p, fd);
    if h.End? && h.pipe < |w.pipes| {
      CloseEndSlots(w, h.pipe, h.dir);
      SetSlot(CloseEnd(w, h.pipe, h.dir), p, fd, Free);
    } else {
      SetSlot(w, p, fd, Free);
    }
  }

  /** Closing on exec, and every handle of a process that exits: the slots not kept become free and no other changes. */
  lemma {:induction false} ReleaseButSlots(w: World, p: nat, kept: set<nat>, n: nat)
    requires p in w.procs && n <= |w.procs[p].handles|
    ensures forall q: nat, i: nat :: HandleOf(ReleaseBut(w, p, kept, n), q, i)
                           == if q == p && i < n && i !in kept then Free else HandleOf(w, q, i)
  {
    hide Release, HandleOf;
    if n > 0 {
      ReleaseButSlots(w, p, kept, n - 1);
      var w1 := ReleaseBut(w, p, kept, n - 1);
      if n - 1 !in kept { ReleaseSlots(w1, p, n - 1); }
    }
  }

  // An end some slot names is there to be acquired, up to the largest count.
  lemma HeldCanAcquire(w: World, p: nat, fd: nat)
    requires Inv(w) && HandleOf(w, p, fd).End?
    ensures var h := HandleOf(w, p, fd);
            && h.pipe < PIPES == |w.pipes| && Refs(w.pipes[h.pipe], h.dir) > 0
            && (CanAcquire(w.pipes[h.pipe], h.dir) <==> Refs(w.pipes[h.pipe], h.dir) < MAX_REFS)
  {
    hide QueueOk, Stirred, Holders, ProcOk;
    var h := HandleOf(w, p, fd);
    assert w.procs[p].handles[fd] == h;
    assert CountOk(w, h.pipe, h.dir) && PipeOk(w.pipes[h.pipe]);
    IsHolder(w.procs, h, (p, fd));
  }

  lemma CloneSlots(w: World, h: Handle, p: nat, fd: nat)
    requires p in w.procs && fd < |w.procs[p].handles| && HandleOf(w, p, fd).Free?
    ensures h.End? && h.pipe < |w.pipes| ==>
              OnlySlot(w, Clone(w, h, p, fd), p, fd, if CanAcquire(w.pipes[h.pipe], h.dir) then h else Free)
    ensures !h.End? ==> OnlySlot(w, Clone(w, h, p, fd), p, fd, h)
    ensures |Clone(w, h, p, fd).pipes| == |w.pipes|
    ensures forall k, d :: 0 <= k < |w.pipes| ==> Refs(Clone(w, h, p, fd).pipes[k], d) >= Refs(w.pipes[k], d)
  {
    hide CanAcquire;
  }

  /**
   Binding, dup, dup2 and dup3: the target slot names what the source slot names, and nothing else
   changes hands.  The one failure leaves the target free: the count of that end, without the
   handle the target gave up, is the largest there is.
   */
  lemma CopySlots(w: World, src: nat, sfd: nat, p: nat, fd: nat)
    requires Inv(w) && p in w.procs && w.procs[p].wait.Idle? && fd < |w.procs[p].handles| && (src, sfd) != (p, fd)
    ensures var h := HandleOf(w, src, sfd);
            && (h.End? ==> h.pipe < |w.pipes|)
            && var full := h.End? && Refs(w.pipes[h.pipe], h.dir)
                                     - (if HandleOf(w, p, fd) == h then 1 else 0) >= MAX_REFS;
            OnlySlot(w, Copy(w, src, sfd, p, fd), p, fd, if full then Free else h)
  {
    hide Inv, Release, Clone, CanAcquire, HandleOf;
    var h := HandleOf(w, src, sfd);
    var w1 := Release(w, p, fd);
    ReleaseKeeps(w, p, fd);
    ReleaseSlots(w, p, fd);
    CloneSlots(w1, h, p, fd);
    if h.End? {
      HeldCanAcquire(w, src, sfd);
      HeldCanAcquire(w1, src, sfd);
      ReleasedCount(w, p, fd, h);
    }
  }

  lemma ReleasedCount(w: World, p: nat, fd: nat, h: Handle)
    requires Inv(w) && p in w.procs && fd < |w.procs[p].handles| && Inv(Release(w, p, fd)) && h.End? && h.pipe < PIPES
    ensures |w.pipes| == |Release(w, p, fd).pipes| == PIPES
    ensures Refs(Release(w, p, fd).pipes[h.pipe], h.dir)
            == Refs(w.pipes[h.pipe], h.dir) - if HandleOf(w, p, fd) == h then 1 else 0
  {
    hide QueueOk, Stirred, Holders, ProcOk, Release;
    var r := Release(w, p, fd);
    ReleaseSlots(w, p, fd);
    assert CountOk(w, h.pipe, h.dir) && CountOk(r, h.pipe, h.dir);
    forall e ensures e in Holders(r.procs, h) <==> e in Holders(w.procs, h) && e != (p, fd) {
      IsHolder(w.procs, h, e);
      IsHolder(r.procs, h, e);
      assert HandleOf(r, e.0, e.1) == if e == (p, fd) then Free else HandleOf(w, e.0, e.1);
    }
    IsHolder(w.procs, h, (p, fd));
    assert Holders(r.procs, h) == Holders(w.procs, h) - {(p, fd)};
  }

  predicate Due(chosen: set<nat>, n: nat, i: nat) { i < n && i in chosen }

  // Slot i of dst names what the parent's slot names if it is due, unless the count of that end stands at the largest.
  ghost predicate Passed(w: World, r: World, src: nat, dst: nat, i: nat, due: bool) {
    var h, got := HandleOf(w, src, i), HandleOf(r, dst, i);
    && (got.Free? || (due && got == h))
    && (due && got != h ==> h.End? && h.pipe < |r.pipes| && Refs(r.pipes[h.pipe], h.dir) >= MAX_REFS)
  }

  lemma PassedNext(w: World, w1: World, src: nat, dst: nat, fd: nat, i: nat, due: bool)
    requires Inv(w1) && src != dst && dst in w1.procs && fd < |w1.procs[dst].handles| && HandleOf(w1, dst, fd).Free?
    requires HandleOf(w1, src, fd) == HandleOf(w, src, fd) && Passed(w, w1, src, dst, i, due)
    ensures Passed(w, Clone(w1, HandleOf(w1, src, fd), dst, fd), src, dst, i, due || i == fd)
  {
    hide Inv, Clone, HandleOf, CanAcquire, Refs, MAX_REFS;
    var h := HandleOf(w1, src, fd);
    if h.End? { HeldCanAcquire(w1, src, fd); }
    CloneSlots(w1, h, dst, fd);
  }

  /**
   A spawned process starts with the chosen handles of its parent in the same slots and no other;
   a slot stays free only if the count of that end stands at the largest.
   */
  lemma {:induction false} InheritSlots(w: World, src: nat, dst: nat, chosen: set<nat>, n: nat)
    requires Inv(w) && src in w.procs && dst in w.procs && src != dst && w.procs[dst].wait.Idle?
    requires n <= |w.procs[src].handles| && n <= |w.procs[dst].handles| && forall i ::
             0 <= i < |w.procs[dst].handles| ==> w.procs[dst].handles[i].Free?
    ensures var r := Inherit(w, src, dst, chosen, n);
            && (forall q: nat, i: nat :: q != dst ==> HandleOf(r, q, i) == HandleOf(w, q, i))
            && forall i: nat :: Passed(w, r, src, dst, i, Due(chosen, n, i))
  {
    hide Inv, Clone, HandleOf, CanAcquire, Refs, MAX_REFS;
    NothingYet(w, dst);
    if n > 0 {
      InheritSlots(w, src, dst, chosen, n - 1);
      InheritKeeps(w, src, dst, chosen, n - 1);
      var w1 := Inherit(w, src, dst, chosen, n - 1);
      if n - 1 in chosen {
        var h := HandleOf(w1, src, n - 1);
        var r := Clone(w1, h, dst, n - 1);
        assert HandleOf(w1, dst, n - 1).Free? by {
          assert Passed(w, w1, src, dst, n - 1, Due(chosen, n - 1, n - 1));
        }
        forall i: nat ensures Passed(w, r, src, dst, i, Due(chosen, n, i)) {
          assert Passed(w, w1, src, dst, i, Due(chosen, n - 1, i));
          PassedNext(w, w1, src, dst, n - 1, i, Due(chosen, n - 1, i));
        }
        if h.End? { HeldCanAcquire(w1, src, n - 1); }
        CloneSlots(w1, h, dst, n - 1);
      } else {
        forall i: nat ensures Passed(w, w1, src, dst, i, Due(chosen, n, i)) {
          assert Passed(w, w1, src, dst, i, Due(chosen, n - 1, i));
        }
      }
    }
  }

  lemma NothingYet(w: World, p: nat)
    requires p in w.procs && forall i :: 0 <= i < |w.procs[p].handles| ==> w.procs[p].handles[i].Free?
    ensures forall i: nat :: HandleOf(w, p, i).Free?
  {
  }

  /**
   A pipe is created exactly when a pipe and two slots from 3 on are free.  It is the lowest such
   pipe, empty, with its reading end in the lowest free slot and its writing end in the next one.
   */
  lemma CreateSlots(w: World, p: nat, k: nat, r: nat, s: nat)
    requires p in w.procs && k < |w.pipes| && !w.pipes[k].used && forall j :: 0 <= j < k ==> w.pipes[j].used
    requires 3 <= r < s < |w.procs[p].handles| && w.procs[p].handles[r].Free? && w.procs[p].handles[s].Free?
    requires forall i :: 3 <= i < s && i != r ==> !w.procs[p].handles[i].Free?
    ensures var made := CreatePipe(w, p);
            && made.pipes == w.pipes[k := Pipe(true, 1, 1, [], [], [])]
            && made.procs == w.procs[p := w.procs[p].(handles :=
                                       w.procs[p].handles[r := End(k, Reading)][s := End(k, Writing)])]
  {
    hide CloseEnd, Release;
    var handles := w.procs[p].handles;
    assert FreePipe(w.pipes, 0) == k;
    assert FreeSlot(handles, 3) == r;
    var w1 := SetPipe(w, k, Reset(w.pipes[k]).(used := true, readers := 1, writers := 1));
    var w2 := SetHandle(w1, p, r, End(k, Reading));
    assert forall i :: 0 <= i < |handles| && i != r ==> w2.procs[p].handles[i] == handles[i];
    assert FreeSlot(w2.procs[p].handles, 3) == s;
  }

  // Otherwise nothing is made: no slot changes and no pipe comes into use or leaves it.
  lemma CreateFails(w: World, p: nat)
    requires Inv(w) && p in w.procs && w.procs[p].wait.Idle? && |w.procs[p].handles| == FDS
    requires (forall j :: 0 <= j < |w.pipes| ==> w.pipes[j].used)
             || forall i, j :: 3 <= i < j < FDS ==> !w.procs[p].handles[i].Free? || !w.procs[p].handles[j].Free?
    ensures SameSlots(w, CreatePipe(w, p)) && |CreatePipe(w, p).pipes| == |w.pipes|
    ensures forall j :: 0 <= j < |w.pipes| ==> if w.pipes[j].used then CreatePipe(w, p).pipes[j] == w.pipes[j]
                                               else !CreatePipe(w, p).pipes[j].used
  {
    hide Inv, CloseEnd, Release, SetHandle, SameSlots;
    SamePipesSlots(w, w);
    var k := FreePipe(w.pipes, 0);
    if k < |w.pipes| {
      var w1 := SetPipe(w, k, Reset(w.pipes[k]).(used := true, readers := 1, writers := 1));
      SamePipesSlots(w, w1);
      var r := FreeSlot(w.procs[p].handles, 3);
      if r == FDS {
        BothClosed(w1, k);
        SlotsTwice(w, w1, CreatePipe(w, p));
      } else {
        SecondMissing(w1, p, r);
        GivenBack(w1, p, r, k);
        SlotsTwice(w, w1, CreatePipe(w, p));
      }
    }
  }

  lemma SamePipesSlots(w: World, r: World)
    requires r.procs == w.procs
    ensures SameSlots(w, r)
  {
  }

  lemma SlotsTwice(w: World, m: World, r: World)
    requires SameSlots(w, m) && SameSlots(m, r)
    ensures SameSlots(w, r)
  {
  }

  // No free slot is left for the writing end.
  lemma SecondMissing(w: World, p: nat, r: nat)
    requires p in w.procs && |w.procs[p].handles| == FDS && r == FreeSlot(w.procs[p].handles, 3) < FDS
    requires forall i, j :: 3 <= i < j < FDS ==> !w.procs[p].handles[i].Free? || !w.procs[p].handles[j].Free?
    ensures forall k: nat :: FreeSlot(SetHandle(w, p, r, End(k, Reading)).procs[p].handles, 3) == FDS
  {
  }

  // The slot and the pipe taken for a creation that fails.
  lemma GivenBack(w: World, p: nat, r: nat, k: nat)
    requires p in w.procs && r < |w.procs[p].handles| && w.procs[p].handles[r].Free?
    requires k < |w.pipes| && w.pipes[k] == Pipe(true, 1, 1, [], [], [])
    ensures var w2 := SetHandle(w, p, r, End(k, Reading));
            var g := CloseEnd(Release(w2, p, r), k, Writing);
            g.pipes == w.pipes[k := Pipe(false, 0, 0, [], [], [])] && SameSlots(w, g)
  {
    hide CloseEnd, Release, HandleOf;
    var w2 := SetHandle(w, p, r, End(k, Reading));
    SetSlot(w, p, r, End(k, Reading));
    NewSlot(w, p, r);
    NewSlot(w2, p, r);
    BothClosed(w2, k);
    ReleaseSlots(w2, p, r);
    CloseEndSlots(Release(w2, p, r), k, Writing);
    ReleaseIs(w2, p, r, k);
    CloseEndApart(CloseEnd(w2, k, Reading), p, r, k);
  }

  lemma ReleaseIs(w: World, p: nat, fd: nat, k: nat)
    requires p in w.procs && fd < |w.procs[p].handles| && w.procs[p].handles[fd] == End(k, Reading) && k < |w.pipes|
    ensures Release(w, p, fd) == SetHandle(CloseEnd(w, k, Reading), p, fd, Free)
  {
    hide CloseEnd;
  }

  lemma NewSlot(w: World, p: nat, fd: nat)
    requires p in w.procs && fd < |w.procs[p].handles|
    ensures HandleOf(w, p, fd) == w.procs[p].handles[fd]
  {
  }

  // A pipe nobody waits on whose two ends are closed is out of use, and that is all.
  lemma BothClosed(w: World, k: nat)
    requires k < |w.pipes| && w.pipes[k] == Pipe(true, 1, 1, [], [], [])
    ensures var r := CloseEnd(CloseEnd(w, k, Reading), k, Writing);
            r.pipes == w.pipes[k := Pipe(false, 0, 0, [], [], [])] && SameSlots(w, r)
  {
    CloseEndSlots(w, k, Reading);
    CloseEndSlots(CloseEnd(w, k, Reading), k, Writing);
  }

  lemma CloseEndApart(w: World, p: nat, fd: nat, k: nat)
    requires p in w.procs && fd < |w.procs[p].handles| && k < |w.pipes|
    ensures CloseEnd(SetHandle(w, p, fd, Free), k, Writing).pipes == CloseEnd(w, k, Writing).pipes
  {
  }
}
