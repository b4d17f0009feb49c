/**
 A pipe as a stream: over one life of a pipe, from its creation until its last end is closed, what
 processes read from it is a prefix of what they wrote to it, and the rest is in its buffer.
 */
module PipeStreams {
  import opened PipeWorld
  import opened PipeInvariant
  import opened PipeRuns
  import opened PipeHandles

  // ---------- what an action moves ----------

  datatype Request = Nothing | Request(pipe: nat, dir: Dir, want: nat, text: seq<bv8>)

  function RequestOn(w: World, h: Handle, want: nat, text: seq<bv8>): Request {
    if h.End? && h.pipe < |w.pipes| then Request(h.pipe, h.dir, want, text) else Nothing
  }

  // The transfer an action tries, if any.
  function Tried(w: World, a: Action): Request {
    match a
    case DoCall(p, fd, want, text) => RequestOn(w, HandleOf(w, p, fd), want, text)
    case DoResume(p, fault) =>
      if fault || p !in w.procs then Nothing
      else RequestOn(w, HandleOf(w, p, w.procs[p].fd), w.procs[p].want, w.procs[p].text)
    case _ => Nothing
  }

  // The bytes the process is told it read or wrote.
  function Told(q: Request, reply: Reply): seq<bv8> {
    if q.Nothing? || !reply.Done? then []
    else if q.dir.Reading? then reply.bytes
    else q.text[..Min(reply.count, |q.text|)]
  }

  // The bytes an action moves through one end of pipe k.
  function Moved(w: World, a: Action, k: nat, d: Dir): seq<bv8> {
    var q := Tried(w, a);
    if q.Nothing? || q.pipe != k || q.dir != d || k >= |w.pipes| then []
    else Told(q, Transfer(w, k, d, q.want, q.text).1)
  }

  // ---------- steps that move nothing ----------

  // Pipes still in use were in use before and hold the same bytes.
  ghost predicate Calm(w: World, r: World) {
    |r.pipes| == |w.pipes| && forall j ::
        0 <= j < |w.pipes| && r.pipes[j].used ==> w.pipes[j].used && r.pipes[j].data == w.pipes[j].data
  }

  lemma CalmTwice(w: World, m: World, r: World)
    requires Calm(w, m) && Calm(m, r)
    ensures Calm(w, r)
  {
  }

  lemma WakeOneCalm(w: World, k: nat, d: Dir)
    requires k < |w.pipes|
    ensures var r := WakeOne(w, k, d);
            |r.pipes| == |w.pipes| && forall j ::
                0 <= j < |w.pipes| ==> r.pipes[j].used == w.pipes[j].used && r.pipes[j].data == w.pipes[j].data
  {
  }

  lemma PassOnCalm(w: World, k: nat, d: Dir)
    requires k < |w.pipes|
    ensures var r := PassOn(w, k, d);
            |r.pipes| == |w.pipes| && forall j ::
                0 <= j < |w.pipes| ==> r.pipes[j].used == w.pipes[j].used && r.pipes[j].data == w.pipes[j].data
  {
    hide WakeOne, Ready;
    WakeOneCalm(w, k, Opposite(d));
    WakeOneCalm(WakeOne(w, k, Opposite(d)), k, d);
  }

  lemma CancelCalm(w: World, p: nat)
    requires p in w.procs && (w.procs[p].wait.Idle? || w.procs[p].wait.pipe < |w.pipes|)
    ensures Calm(w, Cancel(w, p))
  {
    hide WakeOne;
    if w.procs[p].wait.Woken? { WakeOneCalm(SetWait(w, p, Idle), w.procs[p].wait.pipe, w.procs[p].wait.dir); }
  }

  lemma CloseEndCalm(w: World, k: nat, d: Dir)
    requires k < |w.pipes|
    ensures Calm(w, CloseEnd(w, k, d))
  {
  }

  lemma ReleaseCalm(w: World, p: nat, fd: nat)
    requires p in w.procs && fd < |w.procs[p].handles|
    ensures Calm(w, Release(w, p, fd))
  {
    hide CloseEnd;
    var h := HandleOf(w, p, fd);
    if h.End? && h.pipe < |w.pipes| { CloseEndCalm(w, h.pipe, h.dir); }
  }

  lemma {:induction false} ReleaseButCalm(w: World, p: nat, kept: set<nat>, n: nat)
    requires p in w.procs && n <= |w.procs[p].handles|
    ensures Calm(w, ReleaseBut(w, p, kept, n))
  {
    hide Release;
    if n > 0 {
      ReleaseButCalm(w, p, kept, n - 1);
      var w1 := ReleaseBut(w, p, kept, n - 1);
      if n - 1 !in kept {
        ReleaseCalm(w1, p, n - 1);
        CalmTwice(w, w1, Release(w1, p, n - 1));
      }
    }
  }

  lemma CloneCalm(w: World, h: Handle, p: nat, fd: nat)
    requires p in w.procs && fd < |w.procs[p].handles|
    ensures Calm(w, Clone(w, h, p, fd))
  {
  }

  lemma {:induction false} InheritCalm(w: World, src: nat, dst: nat, chosen: set<nat>, n: nat)
    requires src in w.procs && dst in w.procs && n <= |w.procs[dst].handles| && n <= |w.procs[src].handles|
    ensures Calm(w, Inherit(w, src, dst, chosen, n))
  {
    hide Clone;
    if n > 0 {
      InheritCalm(w, src, dst, chosen, n - 1);
      var w1 := Inherit(w, src, dst, chosen, n - 1);
      if n - 1 in chosen {
        CloneCalm(w1, HandleOf(w1, src, n - 1), dst, n - 1);
        CalmTwice(w, w1, Clone(w1, HandleOf(w1, src, n - 1), dst, n - 1));
      }
    }
  }

  // ---------- creation ----------

  // A pipe that came into use is empty; the others are as in a calm step.
  ghost predicate Births(w: World, r: World) {
    |r.pipes| == |w.pipes| && forall j ::
        0 <= j < |w.pipes| && r.pipes[j].used ==>
              if w.pipes[j].used then r.pipes[j].data == w.pipes[j].data else r.pipes[j].data == []
  }

  lemma BirthsThenCalm(w: World, m: World, r: World)
    requires Births(w, m) && Calm(m, r)
    ensures Births(w, r)
  {
  }

  lemma CreateBirths(w: World, p: nat)
    requires p in w.procs && |w.procs[p].handles| >= 3
    ensures Births(w, CreatePipe(w, p))
  {
    hide CloseEnd, Release, FreePipe, FreeSlot;
    var k := FreePipe(w.pipes, 0);
    if k < |w.pipes| {
      var w1 := SetPipe(w, k, Reset(w.pipes[k]).(used := true, readers := 1, writers := 1));
      var r := FreeSlot(w.procs[p].handles, 3);
      if r == |w.procs[p].handles| {
        CloseEndCalm(w1, k, Reading);
        CloseEndCalm(CloseEnd(w1, k, Reading), k, Writing);
        CalmTwice(w1, CloseEnd(w1, k, Reading), CloseEnd(CloseEnd(w1, k, Reading), k, Writing));
        BirthsThenCalm(w, w1, CreatePipe(w, p));
      } else {
        var w2 := SetHandle(w1, p, r, End(k, Reading));
        if FreeSlot(w2.procs[p].handles, 3) == |w2.procs[p].handles| {
          ReleaseCalm(w2, p, r);
          CloseEndCalm(Release(w2, p, r), k, Writing);
          CalmTwice(w2, Release(w2, p, r), CloseEnd(Release(w2, p, r), k, Writing));
          BirthsThenCalm(w, w2, CreatePipe(w, p));
        }
      }
    }
  }

  // ---------- transfers ----------

  // The bytes of every pipe after a transfer on k.
  ghost predicate Flows(w: World, r: World, q: Request, moved: seq<bv8>)
    requires q.Request? && q.pipe < |w.pipes|
  {
    && |r.pipes| == |w.pipes|
    && (forall j ::
        0 <= j < |w.pipes| ==> r.pipes[j].used == w.pipes[j].used
                               && (j != q.pipe ==> r.pipes[j].data == w.pipes[j].data))
    && (if q.dir.Reading? then w.pipes[q.pipe].data == moved + r.pipes[q.pipe].data
                               else r.pipes[q.pipe].data == w.pipes[q.pipe].data + moved)
  }

  lemma TransferFlows(w: World, k: nat, d: Dir, want: nat, text: seq<bv8>)
    requires k < |w.pipes|
    ensures var (r, reply) := Transfer(w, k, d, want, text);
            Flows(w, r, Request(k, d, want, text), Told(Request(k, d, want, text), reply))
  {
    hide PassOn;
    var q := w.pipes[k];
    if d.Reading? {
      var n := Min(want, |q.data|);
      PassOnCalm(SetPipe(w, k, q.(data := q.data[n..])), k, Reading);
      assert q.data == q.data[..n] + q.data[n..];
    } else if q.readers > 0 {
      var n := Min(|text|, if |q.data| < CAPACITY then CAPACITY - |q.data| else 0);
      PassOnCalm(SetPipe(w, k, q.(data := q.data + text[..n])), k, Writing);
    }
  }

  lemma ThenQuiet(w: World, m: World, r: World, q: Request, moved: seq<bv8>)
    requires q.Request? && q.pipe < |w.pipes| && Flows(w, m, q, moved) && |r.pipes| == |m.pipes|
    requires forall j :: 0 <= j < |m.pipes| ==> r.pipes[j].used == m.pipes[j].used && r.pipes[j].data == m.pipes[j].data
    ensures Flows(w, r, q, moved)
  {
  }

  lemma EnqueueCalm(w: World, k: nat, d: Dir, p: nat)
    requires k < |w.pipes| && p in w.procs
    ensures var r := Enqueue(w, k, d, p);
            |r.pipes| == |w.pipes| && forall j ::
                0 <= j < |w.pipes| ==> r.pipes[j].used == w.pipes[j].used && r.pipes[j].data == w.pipes[j].data
  {
  }

  lemma CallFlows(w: World, p: nat, fd: nat, want: nat, text: seq<bv8>)
    requires p in w.procs
    ensures var q, r := Tried(w, DoCall(p, fd, want, text)), Call(w, p, fd, want, text);
            if q.Nothing? then Calm(w, r) else Flows(w, r, q, Moved(w, DoCall(p, fd, want, text), q.pipe, q.dir))
  {
    hide Transfer, Enqueue, Flows;
    var h := HandleOf(w, p, fd);
    if h.End? && h.pipe < |w.pipes| {
      TransferFlows(w, h.pipe, h.dir, want, text);
      var (w1, reply) := Transfer(w, h.pipe, h.dir, want, text);
      var w2 := w1.(procs := w1.procs[p := w1.procs[p].(fd := fd, want := want, text := text)]);
      EnqueueCalm(w2, h.pipe, h.dir, p);
      ThenQuiet(w, w1, Call(w, p, fd, want, text), Request(h.pipe, h.dir, want, text),
                Told(Request(h.pipe, h.dir, want, text), reply));
    }
  }

  lemma ResumeFlows(w: World, p: nat, fault: bool)
    requires p in w.procs && (w.procs[p].wait.Idle? || w.procs[p].wait.pipe < |w.pipes|)
    ensures var q, r := Tried(w, DoResume(p, fault)), Resume(w, p, fault);
            if q.Nothing? then Calm(w, r) else Flows(w, r, q, Moved(w, DoResume(p, fault), q.pipe, q.dir))
  {
    hide Transfer, Enqueue, Flows, Cancel;
    var c := w.procs[p];
    var h := HandleOf(w, p, c.fd);
    if !h.End? || h.pipe >= |w.pipes| || fault {
      CancelCalm(w, p);
    } else {
      TransferFlows(w, h.pipe, h.dir, c.want, c.text);
      var (w1, reply) := Transfer(w, h.pipe, h.dir, c.want, c.text);
      EnqueueCalm(w1, h.pipe, h.dir, p);
      ThenQuiet(w, w1, Resume(w, p, fault), Request(h.pipe, h.dir, c.want, c.text),
                Told(Request(h.pipe, h.dir, c.want, c.text), reply));
    }
  }

  // ---------- every step ----------

  // A pipe that stays in use: what it held and what came in is what went out and what it holds.
  lemma StepFlows(w: World, a: Action, k: nat)
    requires Sized(w) && Enabled(w, a) && k < PIPES && Step(w, a).pipes[k].used
    ensures |Step(w, a).pipes| == PIPES
    ensures w.pipes[k].used ==>
              w.pipes[k].data + Moved(w, a, k, Writing) == Moved(w, a, k, Reading) + Step(w, a).pipes[k].data
    ensures !w.pipes[k].used && !a.DoCall? && !a.DoResume? ==> Step(w, a).pipes[k].data == []
  {
    hide CreatePipe, Call, Resume, Cancel, Release, Copy, Inherit, ReleaseBut, Exit, Newborn, Asks, Transfer;
    SizedFacts(w, a.p);
    match a
    case DoCreate(p) => CreateBirths(w, p);
    case DoCall(p, fd, want, text) => CallFlows(w, p, fd, want, text);
    case DoResume(p, fault) => ResumeFlows(w, p, fault);
    case DoInterrupt(p) => CancelCalm(w, p);
    case DoClose(p, fd) => ReleaseCalm(w, p, fd);
    case DoCopy(src, sfd, p, fd) => CopyCalm(w, src, sfd, p, fd);
    case DoSpawn(p, child, chosen) => SpawnCalm(w, p, child, chosen);
    case DoExec(p, kept) => ReleaseButCalm(w, p, kept, FDS);
    case DoExit(p) => ExitCalm(w, p);
    case DoReap(p) =>
  }

  lemma SizedFacts(w: World, p: nat)
    requires Sized(w) && p in w.procs
    ensures |w.pipes| == PIPES && |w.procs[p].handles| == FDS && (w.procs[p].wait.Idle? || w.procs[p].wait.pipe < PIPES)
  {
  }

  lemma CopyCalm(w: World, src: nat, sfd: nat, p: nat, fd: nat)
    requires p in w.procs && fd < |w.procs[p].handles|
    ensures Calm(w, Copy(w, src, sfd, p, fd))
  {
    hide Release, Clone;
    var w1 := Release(w, p, fd);
    ReleaseCalm(w, p, fd);
    CloneCalm(w1, HandleOf(w1, src, sfd), p, fd);
    CalmTwice(w, w1, Clone(w1, HandleOf(w1, src, sfd), p, fd));
  }

  lemma SpawnCalm(w: World, p: nat, child: nat, chosen: set<nat>)
    requires Sized(w) && p in w.procs && child !in w.procs
    ensures Calm(w, Inherit(w.(procs := w.procs[child := Newborn()]), p, child, chosen, FDS))
  {
    hide Inherit;
    InheritCalm(w.(procs := w.procs[child := Newborn()]), p, child, chosen, FDS);
  }

  lemma ExitCalm(w: World, p: nat)
    requires p in w.procs && (w.procs[p].wait.Idle? || w.procs[p].wait.pipe < |w.pipes|)
    ensures Calm(w, Exit(w, p))
  {
    hide Cancel, ReleaseBut;
    var w1 := Cancel(w, p);
    CancelCalm(w, p);
    ReleaseButCalm(w1, p, {}, |w1.procs[p].handles|);
    CalmTwice(w, w1, Exit(w, p));
  }

  // ---------- whole runs ----------

  // What went through one end of pipe k since it came into use.
  ghost function Stream(worlds: seq<World>, actions: seq<Action>, k: nat, d: Dir, n: nat): seq<bv8>
    requires |worlds| == |actions| + 1 && n < |worlds|
  {
    if n == 0 || !InUse(worlds[n - 1], k) || !InUse(worlds[n], k) then []
    else Stream(worlds, actions, k, d, n - 1) + Moved(worlds[n - 1], actions[n - 1], k, d)
  }

  predicate InUse(w: World, k: nat) { k < |w.pipes| && w.pipes[k].used }

  // Nobody can ask a pipe for anything that is not in use.
  lemma NobodyAsks(w: World, a: Action, k: nat)
    requires Inv(w) && Enabled(w, a) && k < PIPES && !w.pipes[k].used && (a.DoCall? || a.DoResume?)
    ensures Tried(w, a).Request? ==> Tried(w, a).pipe != k
  {
    hide QueueOk, Stirred, ProcOk, Holders, Asks;
    var q := Tried(w, a);
    if q.Request? && q.pipe == k {
      var fd := if a.DoCall? then a.fd else w.procs[a.p].fd;
      assert CountOk(w, k, q.dir) && PipeOk(w.pipes[k]);
      IsHolder(w.procs, End(k, q.dir), (a.p, fd));
    }
  }

  lemma FlowsElsewhere(w: World, r: World, q: Request, moved: seq<bv8>, k: nat)
    requires q.Request? && q.pipe < |w.pipes| && Flows(w, r, q, moved) && k < |w.pipes| && k != q.pipe
    ensures |r.pipes| == |w.pipes| && r.pipes[k].used == w.pipes[k].used
  {
  }

  // A pipe that comes into use is empty.
  lemma BornEmpty(w: World, a: Action, k: nat)
    requires Inv(w) && Sized(w) && Enabled(w, a) && k < PIPES && !w.pipes[k].used && |Step(w, a).pipes| == PIPES
             && Step(w, a).pipes[k].used
    ensures Step(w, a).pipes[k].data == []
  {
    hide Inv, Call, Resume, Moved, Flows, Asks;
    if a.DoCall? || a.DoResume? {
      SizedFacts(w, a.p);
      NobodyAsks(w, a, k);
      var q := Tried(w, a);
      if a.DoCall? { CallFlows(w, a.p, a.fd, a.want, a.text); } else { ResumeFlows(w, a.p, a.fault); }
      if q.Request? { FlowsElsewhere(w, Step(w, a), q, Moved(w, a, q.pipe, q.dir), k); }
    } else {
      StepFlows(w, a, k);
    }
  }

  /**
   In every run and over one life of a pipe, the bytes written are the bytes read followed by
   those still in the buffer; so what was read is a prefix of what was written.
   */
  lemma {:induction false} PipeIsAStream(worlds: seq<World>, actions: seq<Action>, k: nat, n: nat)
    requires Run(worlds, actions) && n < |worlds| && k < PIPES
    ensures InUse(worlds[n], k) ==>
              Stream(worlds, actions, k, Writing, n) == Stream(worlds, actions, k, Reading, n) + worlds[n].pipes[k].data
    ensures Stream(worlds, actions, k, Reading, n) <= Stream(worlds, actions, k, Writing, n)
  {
    hide Inv, Step, Enabled, Sized, Moved, Boot;
    if n == 0 {
      BootUnused(worlds[0], k);
    } else if InUse(worlds[n], k) {
      PipeIsAStream(worlds, actions, k, n - 1);
      RunKeeps(worlds, actions, n - 1);
      var w, a := worlds[n - 1], actions[n - 1];
      assert Follows(w, a, worlds[n - 1 + 1]);
      StepFlowsIn(w, a, k);
      if InUse(w, k) {
        var put, got := Stream(worlds, actions, k, Writing, n - 1), Stream(worlds, actions, k, Reading, n - 1);
        Extended(put, got, w.pipes[k].data, Moved(w, a, k, Writing), Moved(w, a, k, Reading), worlds[n].pipes[k].data);
      }
    }
  }

  lemma Extended(put: seq<bv8>, got: seq<bv8>, data: seq<bv8>, more: seq<bv8>, taken: seq<bv8>, left: seq<bv8>)
    requires put == got + data && data + more == taken + left
    ensures put + more == got + taken + left && got + taken <= put + more
  {
    assert put + more == got + (data + more);
  }

  lemma BootUnused(w: World, k: nat)
    requires Boot(w) && k < PIPES
    ensures !InUse(w, k)
  {
  }

  lemma StepFlowsIn(w: World, a: Action, k: nat)
    requires Inv(w) && Sized(w) && Enabled(w, a) && k < PIPES && InUse(Step(w, a), k)
    ensures k < |w.pipes| == |Step(w, a).pipes| == PIPES
    ensures if w.pipes[k].used
            then w.pipes[k].data + Moved(w, a, k, Writing) == Moved(w, a, k, Reading) + Step(w, a).pipes[k].data
            else Step(w, a).pipes[k].data == []
  {
    hide Inv, Step, Moved, Enabled;
    StepShape(w, a);
    if w.pipes[k].used { StepFlows(w, a, k); } else { BornEmpty(w, a, k); }
  }

  lemma StepShape(w: World, a: Action)
    requires Sized(w) && Enabled(w, a)
    ensures |w.pipes| == PIPES == |Step(w, a).pipes|
  {
    hide CreatePipe, Call, Resume, Cancel, Release, Copy, Inherit, ReleaseBut, Exit, Newborn, Asks;
  }
}
