/**
 Pipes, handles and blocked processes as one machine.  Kernel code runs to completion, so each
 system call and each scheduler decision is one atomic step (kernel/core/pipe.c, waitq.c and the
 handle and wait functions of process.c).
 */
module PipeWorld {
  const CAPACITY: nat := 512
  const PIPES: nat := 64
  const FDS: nat := 67
  const MAX_REFS: nat := 0xFFFF_FFFF

  datatype Dir = Reading | Writing

  // One slot of a process: a pipe end, or something that is no pipe.
  datatype Handle = Free | Other | End(pipe: nat, dir: Dir)

  // block_wait: not registered, on a queue, or woken from it and not resumed yet.
  datatype Wait = Idle | Queued(pipe: nat, dir: Dir) | Woken(pipe: nat, dir: Dir)

  // want and text are the arguments of the pending system call, kept in the saved frame.
  datatype Proc = Proc(handles: seq<Handle>, wait: Wait, fd: nat, want: nat, text: seq<bv8>)

  datatype Pipe = Pipe(used: bool, readers: nat, writers: nat, data: seq<bv8>, readQueue: seq<nat>,
                       writeQueue: seq<nat>)

  datatype World = World(pipes: seq<Pipe>, procs: map<nat, Proc>)

  function Queue(q: Pipe, d: Dir): seq<nat> { if d.Reading? then q.readQueue else q.writeQueue }

  function SetQueue(q: Pipe, d: Dir, queue: seq<nat>): Pipe {
    q.(readQueue := if d.Reading? then queue else q.readQueue, writeQueue := if d.Writing? then queue else q.writeQueue)
  }

  function Refs(q: Pipe, d: Dir): nat { if d.Reading? then q.readers else q.writers }

  function SetRefs(q: Pipe, d: Dir, n: nat): Pipe {
    q.(readers := if d.Reading? then n else q.readers, writers := if d.Writing? then n else q.writers)
  }

  function Opposite(d: Dir): Dir { if d.Reading? then Writing else Reading }

  // A waiter of this direction could make progress.
  predicate Ready(q: Pipe, d: Dir) { if d.Reading? then q.data != [] else |q.data| < CAPACITY }

  // No step of one process adds or removes processes, pipes or slots.
  ghost predicate SameShape(w: World, r: World) {
    |r.pipes| == |w.pipes| && r.procs.Keys == w.procs.Keys && forall p <- w.procs ::
        |r.procs[p].handles| == |w.procs[p].handles|
  }

  function SetWait(w: World, p: nat, wait: Wait): (r: World)
    requires p in w.procs
    ensures SameShape(w, r)
  {
    w.(procs := w.procs[p := w.procs[p].(wait := wait)])
  }

  function SetPipe(w: World, k: nat, q: Pipe): (r: World)
    requires k < |w.pipes|
    ensures SameShape(w, r)
  {
    w.(pipes := w.pipes[k := q])
  }

  // ---------- waitq.c ----------

  /** wait_queue_wake_one: the oldest waiter leaves the queue and counts as woken. */
  function WakeOne(w: World, k: nat, d: Dir): (r: World)
    requires k < |w.pipes|
    ensures SameShape(w, r)
  {
    var queue := Queue(w.pipes[k], d);
    if queue == [] || queue[0] !in w.procs then w
    else SetWait(SetPipe(w, k, SetQueue(w.pipes[k], d, queue[1..])), queue[0], Woken(k, d))
  }

  /** wait_queue_wake_all */
  function WakeAll(w: World, k: nat, d: Dir): (r: World)
    requires k < |w.pipes|
    ensures SameShape(w, r)
  {
    var queue := Queue(w.pipes[k], d);
    World(w.pipes[k := SetQueue(w.pipes[k], d, [])],
          map p | p in w.procs :: if p in queue then w.procs[p].(wait := Woken(k, d)) else w.procs[p])
  }

  // wait_queue_add
  function Enqueue(w: World, k: nat, d: Dir, p: nat): (r: World)
    requires k < |w.pipes| && p in w.procs
    ensures SameShape(w, r)
  {
    SetWait(SetPipe(w, k, SetQueue(w.pipes[k], d, Queue(w.pipes[k], d) + [p])), p, Queued(k, d))
  }

  function Minus(queue: seq<nat>, p: nat): (r: seq<nat>)
    ensures forall x :: x in r <==> x in queue && x != p
  {
    if queue == [] then []
    else
      assert forall x :: x in queue <==> x == queue[0] || x in queue[1..];
      if queue[0] == p then Minus(queue[1..], p) else [queue[0]] + Minus(queue[1..], p)
  }

  // wait_queue_cancel: a waiter that gives up hands a wake it consumed to the next one.
  function Cancel(w: World, p: nat): (r: World)
    requires p in w.procs && (w.procs[p].wait.Idle? || w.procs[p].wait.pipe < |w.pipes|)
    ensures SameShape(w, r)
  {
    match w.procs[p].wait
    case Idle => w
    case Queued(k, d) => SetWait(SetPipe(w, k, SetQueue(w.pipes[k], d, Minus(Queue(w.pipes[k], d), p))), p, Idle)
    case Woken(k, d) => WakeOne(SetWait(w, p, Idle), k, d)
  }

  // ---------- pipe.c ----------

  datatype Reply = Done(count: nat, bytes: seq<bv8>) | Block | Broken

  function Min(a: nat, b: nat): nat { if a < b then a else b }

  /** kernel_pipe_read */
  function ReadPipe(w: World, k: nat, want: nat): (r: (World, Reply))
    requires k < |w.pipes|
    ensures SameShape(w, r.0)
  {
    var q := w.pipes[k];
    var n := Min(want, |q.data|);
    var w1 := SetPipe(w, k, q.(data := q.data[n..]));
    if n == 0 then (w1, if q.writers > 0 then Block else Done(0, []))
    else (PassOn(w1, k, Reading), Done(n, q.data[..n]))
  }

  // The wakes after a transfer in direction d: the other side, then the rest of this side.
  function PassOn(w: World, k: nat, d: Dir): (r: World)
    requires k < |w.pipes|
    ensures SameShape(w, r)
  {
    var w1 := WakeOne(w, k, Opposite(d));
    if Ready(w.pipes[k], d) then WakeOne(w1, k, d) else w1
  }

  /** kernel_pipe_write */
  function WritePipe(w: World, k: nat, text: seq<bv8>): (r: (World, Reply))
    requires k < |w.pipes|
    ensures SameShape(w, r.0)
  {
    var q := w.pipes[k];
    if q.readers == 0 then (w, Broken)
    else
      var n := Min(|text|, if |q.data| < CAPACITY then CAPACITY - |q.data| else 0);
      var w1 := SetPipe(w, k, q.(data := q.data + text[..n]));
      if n == 0 then (w1, if |q.data| >= CAPACITY then Block else Done(0, []))
      else (PassOn(w1, k, Writing), Done(n, []))
  }

  function Reset(q: Pipe): Pipe { Pipe(false, 0, 0, [], [], []) }

  /** kernel_pipe_close_reader and kernel_pipe_close_writer */
  function CloseEnd(w: World, k: nat, d: Dir): (r: World)
    requires k < |w.pipes|
    ensures SameShape(w, r)
  {
    var q := w.pipes[k];
    if !q.used then w
    else
      var n := if Refs(q, d) > 0 then Refs(q, d) - 1 else 0;
      var w1 := SetPipe(w, k, SetRefs(q, d, n));
      var w2 := if n == 0 then WakeAll(w1, k, Opposite(d)) else w1;
      Recycle(w2, k)
  }

  // kernel_pipe_maybe_release
  function Recycle(w: World, k: nat): (r: World)
    requires k < |w.pipes|
    ensures SameShape(w, r)
  {
    if w.pipes[k].readers == 0 && w.pipes[k].writers == 0 then SetPipe(w, k, Reset(w.pipes[k])) else w
  }

  // ---------- process.c ----------

  function SetHandle(w: World, p: nat, fd: nat, h: Handle): (r: World)
    requires p in w.procs && fd < |w.procs[p].handles|
    ensures SameShape(w, r)
  {
    w.(procs := w.procs[p := w.procs[p].(handles := w.procs[p].handles[fd := h])])
  }

  function HandleOf(w: World, p: nat, fd: nat): Handle {
    if p in w.procs && fd < |w.procs[p].handles| then w.procs[p].handles[fd] else Free
  }

  /** process_handle_release */
  function Release(w: World, p: nat, fd: nat): (r: World)
    requires p in w.procs && fd < |w.procs[p].handles|
    ensures SameShape(w, r)
  {
    var h := HandleOf(w, p, fd);
    SetHandle(if h.End? && h.pipe < |w.pipes| then CloseEnd(w, h.pipe, h.dir) else w, p, fd, Free)
  }

  // process_handles_release and process_handles_close_on_exec: the slots below n but for those kept.
  function ReleaseBut(w: World, p: nat, kept: set<nat>, n: nat): (r: World)
    requires p in w.procs && n <= |w.procs[p].handles|
    ensures SameShape(w, r)
  {
    if n == 0 then w
    else
      var w1 := ReleaseBut(w, p, kept, n - 1);
      if n - 1 in kept then w1 else Release(w1, p, n - 1)
  }

  // kernel_pipe_acquire
  predicate CanAcquire(q: Pipe, d: Dir) { q.used && (q.readers > 0 || q.writers > 0) && Refs(q, d) < MAX_REFS }

  /** process_handle_clone into a free slot; unchanged when it fails. */
  function Clone(w: World, h: Handle, p: nat, fd: nat): (r: World)
    requires p in w.procs && fd < |w.procs[p].handles|
    ensures SameShape(w, r)
  {
    match h
    case Free => w
    case Other => SetHandle(w, p, fd, h)
    case End(k, d) =>
      if k < |w.pipes| && CanAcquire(w.pipes[k], d)
      then SetHandle(SetPipe(w, k, SetRefs(w.pipes[k], d, Refs(w.pipes[k], d) + 1)), p, fd, h) else w
  }

  // process_inherit_handles and process_inherit_stdio for the chosen slots below n.  A failure
  // part-way is this for the slots before it, followed by Exit.
  function Inherit(w: World, src: nat, dst: nat, chosen: set<nat>, n: nat): (r: World)
    requires src in w.procs && dst in w.procs && n <= |w.procs[dst].handles| && n <= |w.procs[src].handles|
    ensures SameShape(w, r)
  {
    if n == 0 then w
    else
      var w1 := Inherit(w, src, dst, chosen, n - 1);
      if n - 1 in chosen then Clone(w1, HandleOf(w1, src, n - 1), dst, n - 1) else w1
  }

  // The lowest pipe that is not in use, or PIPES.
  function FreePipe(pipes: seq<Pipe>, i: nat): (k: nat)
    requires i <= |pipes|
    ensures i <= k <= |pipes| && (k < |pipes| ==> !pipes[k].used) && forall j :: i <= j < k ==> pipes[j].used
    decreases |pipes| - i
  {
    if i == |pipes| || !pipes[i].used then i else FreePipe(pipes, i + 1)
  }

  // The lowest free slot from fd 3 on, or the table's length.
  function FreeSlot(handles: seq<Handle>, i: nat): (fd: nat)
    requires i <= |handles|
    ensures i <= fd <= |handles| && (fd < |handles| ==> handles[fd].Free?) && forall j ::
            i <= j < fd ==> !handles[j].Free?
    decreases |handles| - i
  {
    if i == |handles| || handles[i].Free? then i else FreeSlot(handles, i + 1)
  }

  /** process_handle_create_pipe: without two free slots the new pipe is given back. */
  function CreatePipe(w: World, p: nat): (r: World)
    requires p in w.procs && |w.procs[p].handles| >= 3
    ensures SameShape(w, r)
  {
    var k := FreePipe(w.pipes, 0);
    if k == |w.pipes| then w
    else
      var w1 := SetPipe(w, k, Reset(w.pipes[k]).(used := true, readers := 1, writers := 1));
      var r := FreeSlot(w.procs[p].handles, 3);
      if r == |w.procs[p].handles| then CloseEnd(CloseEnd(w1, k, Reading), k, Writing)
      else
        var w2 := SetHandle(w1, p, r, End(k, Reading));
        var s := FreeSlot(w2.procs[p].handles, 3);
        if s == |w2.procs[p].handles| then CloseEnd(Release(w2, p, r), k, Writing)
        else SetHandle(w2, p, s, End(k, Writing))
  }

  // The transfer a process asked for, on an end it holds.
  function Transfer(w: World, k: nat, d: Dir, want: nat, text: seq<bv8>): (r: (World, Reply))
    requires k < |w.pipes|
    ensures SameShape(w, r.0)
  {
    if d.Reading? then ReadPipe(w, k, want) else WritePipe(w, k, text)
  }

  /** SYS_READ and SYS_WRITE on a pipe end, blocking the caller if it has to wait. */
  function Call(w: World, p: nat, fd: nat, want: nat, text: seq<bv8>): (r: World)
    requires p in w.procs
    ensures SameShape(w, r)
  {
    var h := HandleOf(w, p, fd);
    if !h.End? || h.pipe >= |w.pipes| then w
    else
      var (w1, reply) := Transfer(w, h.pipe, h.dir, want, text);
      if reply.Block?
      then Enqueue(w1.(procs := w1.procs[p := w1.procs[p].(fd := fd, want := want, text := text)]), h.pipe, h.dir, p)
      else w1
  }

  /**
   process_resume_blocked_io of a woken process: give up if its buffer is no longer mapped,
   otherwise repeat the transfer; and queue again when there is still nothing to move.
   */
  function Resume(w: World, p: nat, fault: bool): (r: World)
    requires p in w.procs && (w.procs[p].wait.Idle? || w.procs[p].wait.pipe < |w.pipes|)
    ensures SameShape(w, r)
  {
    var h := HandleOf(w, p, w.procs[p].fd);
    if !h.End? || h.pipe >= |w.pipes| || fault then Cancel(w, p)
    else
      var (w1, reply) := Transfer(w, h.pipe, h.dir, w.procs[p].want, w.procs[p].text);
      if reply.Block? then Enqueue(w1, h.pipe, h.dir, p)
      else SetWait(w1, p, Idle)
  }

  /** process_record_exit: leave every queue, then close every handle. */
  function Exit(w: World, p: nat): (r: World)
    requires p in w.procs && (w.procs[p].wait.Idle? || w.procs[p].wait.pipe < |w.pipes|)
    ensures SameShape(w, r)
  {
    var w1 := Cancel(w, p);
    ReleaseBut(w1, p, {}, |w1.procs[p].handles|)
  }

  /** process_bind_stdio_from_fd, dup, dup2 and dup3: whatever the target slot held is released first. */
  function Copy(w: World, src: nat, sfd: nat, dst: nat, dfd: nat): (r: World)
    requires dst in w.procs && dfd < |w.procs[dst].handles|
    ensures SameShape(w, r)
  {
    var w1 := Release(w, dst, dfd);
    Clone(w1, HandleOf(w1, src, sfd), dst, dfd)
  }

  function Newborn(): Proc { Proc(seq(FDS, _ => Free), Idle, 0, 0, []) }

  // ---------- runs ----------

  datatype Action =
    | DoCreate(p: nat)
    | DoCall(p: nat, fd: nat, want: nat, text: seq<bv8>)
    | DoResume(p: nat, fault: bool)
    | DoInterrupt(p: nat)
    | DoClose(p: nat, fd: nat)
    | DoCopy(src: nat, sfd: nat, p: nat, fd: nat)
    | DoSpawn(p: nat, child: nat, chosen: set<nat>)
    | DoExec(p: nat, kept: set<nat>)
    | DoExit(p: nat)
    | DoReap(p: nat)

  // A transfer of at least one byte; the system calls return at once for a length of zero.
  predicate Asks(w: World, p: nat, fd: nat, want: nat, text: seq<bv8>) {
    var h := HandleOf(w, p, fd);
    h.End? ==> if h.dir.Reading? then want > 0 else text != []
  }

  /** System calls are made by a process that is not waiting; only a woken one is resumed. */
  predicate Enabled(w: World, a: Action) {
    && a.p in w.procs
    && match a
       case DoCreate(p) => w.procs[p].wait.Idle?
       case DoCall(p, fd, want, text) => w.procs[p].wait.Idle? && Asks(w, p, fd, want, text)
       case DoResume(p, _) => w.procs[p].wait.Woken?
       case DoInterrupt(_) => true
       case DoClose(p, fd) => w.procs[p].wait.Idle? && fd < FDS
       case DoCopy(src, sfd, p, fd) => w.procs[p].wait.Idle? && fd < FDS && (src, sfd) != (p, fd)
       case DoSpawn(p, child, _) => w.procs[p].wait.Idle? && child !in w.procs
       case DoExec(p, _) => w.procs[p].wait.Idle?
       case DoExit(_) => true
       case DoReap(p) => w.procs[p].wait.Idle? && forall h <- w.procs[p].handles :: h.Free?
  }

  // Slot tables have their size and waits name pipes that exist.
  ghost predicate Sized(w: World) {
    |w.pipes| == PIPES && forall p <- w.procs ::
        |w.procs[p].handles| == FDS && (w.procs[p].wait.Idle? || w.procs[p].wait.pipe < PIPES)
  }

  function Step(w: World, a: Action): World
    requires Sized(w) && Enabled(w, a)
  {
    match a
    case DoCreate(p) => CreatePipe(w, p)
    case DoCall(p, fd, want, text) => Call(w, p, fd, want, text)
    case DoResume(p, fault) => Resume(w, p, fault)
    case DoInterrupt(p) => Cancel(w, p)
    case DoClose(p, fd) => Release(w, p, fd)
    case DoCopy(src, sfd, p, fd) => Copy(w, src, sfd, p, fd)
    case DoSpawn(p, child, chosen) => Inherit(w.(procs := w.procs[child := Newborn()]), p, child, chosen, FDS)
    case DoExec(p, kept) => ReleaseBut(w, p, kept, FDS)
    case DoExit(p) => Exit(w, p)
    case DoReap(p) => w.(procs := w.procs - {p})
  }
}
