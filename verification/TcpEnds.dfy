/**
 End of file on a closed block: a connection that ended in order leaves every byte to its reader,
 and exactly the bytes a failure dropped are missing otherwise.
 */
module TcpEnds {
  import opened TcpSpec
  import opened TcpInvariant
  import opened TcpWrap
  import opened TcpSystem
  import opened TcpRuns

  // All bytes received so far but `lost` of them were read or still wait to be.
  ghost predicate Whole(y: Side, lost: nat) {
    |y.read| + |y.conn.rcv.rx| + lost + FinOffset(y.conn.peerFin) == y.conn.rcv.nxt - y.conn.rcv.irs - 1
  }

  // d is closed and its owner has not dropped it.
  predicate Ended(d: Conn) { d.state.Closed? && !d.orphan }

  // Also without an error.
  predicate Orderly(d: Conn) { Ended(d) && d.error == 0 }

  // The end of a connection leaves the receive ring to the reader, or a failure empties it.
  ghost predicate Ends(c: Conn, d: Conn) {
    Ended(d) ==>
      && d.rcv.nxt == c.rcv.nxt && d.rcv.irs == c.rcv.irs && d.peerFin == c.peerFin
      && (d.rcv.rx == c.rcv.rx || (d.error != 0 && d.rcv.rx == []))
  }

  lemma OutputNotOrderly(c: Conn, now: nat)
    requires Core(c) && !c.state.Closed?
    ensures !Output(c, now).conn.state.Closed?
  {
    hide Output;
    OutputKeeps(c, now);
  }

  lemma TextEnds(c: Conn, seg: Segment, now: nat)
    requires !c.state.Closed?
    ensures !Ended(TextInput(c, seg, now).conn)
  {
    hide SeqEq, Overlap;
  }

  lemma AckEnds(c: Conn, ackNo: int, env: Env)
    ensures var d := AckAdvance(c, ackNo, env); d.rcv == c.rcv && d.peerFin == c.peerFin
  {
    hide SeqEq, SeqLt, FinAcked, AckedBytes, AckArmed, Finish, EnterTimeWait;
    var armed := AckArmed(c, ackNo, env);
    ArmedFrame(c, ackNo, env);
    FinishValue(armed);
    EnterTimeWaitValue(armed, env.now);
  }

  lemma ResetEnds(c: Conn, seg: Segment)
    ensures Ends(c, ResetInput(c, seg))
  {
    hide SeqEq, Fail;
    FailEnds(c, if c.state.SynReceived? then ECONNREFUSED else ECONNRESET);
  }

  lemma FailEnds(c: Conn, error: int)
    requires error != 0
    ensures Ends(c, Fail(c, error))
  {
  }

  lemma SegmentEnds(c: Conn, seg: Segment, env: Env)
    requires !c.state.Closed? && !c.state.SynSent?
    ensures Ends(c, SegmentInput(c, seg, env).conn)
  {
    hide SeqEq, SeqLt, SeqLe, Acceptable, TextInput, AckAdvance, ResetInput, WindowUpdate, Establish, SynSentInput,
        SetWindow, ReplyReset;
    if Acceptable(c, seg) && seg.rst {
      ResetEnds(c, seg);
    } else if Acceptable(c, seg) && !seg.syn && seg.ack {
      if c.state.SynReceived? {
        EstablishState(SetWindow(c, seg), seg, env);
        TextEnds(Establish(SetWindow(c, seg), seg, env), seg, env.now);
      } else {
        AckEnds(c, seg.ackNo, env);
        var acked := if SeqLt(c.snd.una, seg.ackNo) then AckAdvance(c, seg.ackNo, env) else c;
        UpdateState(acked, seg);
        if !acked.state.Closed? { TextEnds(WindowUpdate(acked, seg), seg, env.now); }
      }
    }
  }

  lemma InputEnds(x: Side, nx: Net, y: Side, ny: Net, seg: Segment, env: Env)
    requires Good(y, ny, x, nx) && Inv(y.conn) && Heard(y.conn.state) && seg in nx && Fresh(y.conn, seg)
    ensures Ends(y.conn, Input(y.conn, seg, env).conn)
  {
    var c := y.conn;
    if c.used { DeliveredNear(y, ny, x, nx, seg); }
    hide Good, SegmentInput, Output, SeqLt, Inv, ReplyReset, Near;
    if c.used && !(c.state.TimeWait? && seg.syn && !seg.ack && SeqLt(c.rcv.nxt, seg.seqNo)) {
      var got := SegmentInput(c, seg, env).conn;
      SegmentEnds(c, seg, env);
      NearOrReset(c, seg);
      SegmentInputKeeps(c, seg, env);
      if got.used {
        if got.state.Closed? { ClosedOutput(got, env.now); } else { OutputNotOrderly(got, env.now); }
      }
    }
  }

  lemma NearOrReset(c: Conn, seg: Segment)
    requires !seg.rst ==> Near(c, seg)
    ensures Near(c, seg)
  {
  }

  lemma TickEnds(c: Conn, now: nat)
    requires Inv(c) && Heard(c.state)
    ensures Ends(c, Tick(c, now).conn)
  {
    hide Timeout, Inv;
    TimeoutEnds(c, now);
  }

  lemma TimeoutEnds(c: Conn, now: nat)
    requires Inv(c) && Heard(c.state)
    ensures Ends(c, Timeout(c, now).conn)
  {
    hide SeqEq, SynTimeout, Probe, Resend, Inv;
    if c.state.SynReceived? {
      SynTimeoutEnds(c, now);
    } else if DataState(c.state) {
      ProbeEnds(c, now);
      ResendEnds(c, now);
    }
  }

  lemma SynTimeoutEnds(c: Conn, now: nat)
    requires c.state.SynReceived?
    ensures Ends(c, SynTimeout(c, now).conn)
  {
    hide SendSyn;
    SynIs(Backoff(c.(retries := c.retries + 1)), now);
  }

  lemma ProbeEnds(c: Conn, now: nat)
    requires DataState(c.state)
    ensures !Ended(Probe(c, now).conn)
  {
    hide WindowPeek;
  }

  lemma ResendEnds(c: Conn, now: nat)
    requires Inv(c) && DataState(c.state)
    ensures Ends(c, Resend(c, now).conn)
  {
    hide Output, Inv;
    var r := c.(retries := c.retries + 1);
    BackoffCore(c, now);
    OutputNotOrderly(SetNxt(Backoff(r), r.snd.una).(timer := now + Backoff(r).rto), now);
  }

  lemma ReadEnds(c: Conn, cap: nat, now: nat)
    requires Inv(c) && Heard(c.state)
    ensures !Ended(Read(c, cap, now).out.conn)
  {
    hide SeqLt, Diff, WindowPeek, Output;
    if !Unconnected(c.state) && c.error == 0 && |c.rcv.rx| > 0 {
      OutputNotOrderly(c.(rcv := c.rcv.(rx := c.rcv.rx[Min(cap, |c.rcv.rx|)..])).(ackNow := true), now);
    }
  }

  lemma WriteEnds(c: Conn, data: seq<Byte>, now: nat)
    requires Inv(c) && Heard(c.state)
    ensures !Ended(Write(c, data, now).out.conn)
  {
    hide Output;
    if (c.state.Established? || c.state.CloseWait?) && |c.snd.tx| < BUFFER_SIZE && !c.finPending {
      OutputNotOrderly(c.(snd := c.snd.(tx := c.snd.tx + data[..Min(|data|, BUFFER_SIZE - |c.snd.tx|)])), now);
    }
  }

  lemma ShutdownEnds(c: Conn, readSide: bool, writeSide: bool, now: nat)
    requires Inv(c) && Heard(c.state)
    ensures !Ended(Shutdown(c, readSide, writeSide, now).out.conn)
  {
    hide Output, Inv, Core;
    if !Unconnected(c.state) {
      var r := if readSide then c.(readShut := true, rcv := c.rcv.(rx := [])) else c;
      ShutReady(c, readSide);
      OutputNotOrderly(r.(finPending := true), now);
    }
  }

  lemma CloseEnds(c: Conn, now: nat)
    requires Inv(c) && Heard(c.state)
    ensures !Ended(Close(c, now).conn)
  {
    hide Output;
    if Synchronized(c.state) {
      OutputNotOrderly(c.(orphan := true).(rcv := c.rcv.(rx := []), finPending := true,
                                           life := if c.state.TimeWait? then c.life else now + ORPHAN_LIFE_MS), now);
    }
  }

  // The step that ends a connection keeps every received byte, or a failure drops them.
  lemma ActEnds(x: Side, nx: Net, y: Side, ny: Net, a: Action)
    requires Good(y, ny, x, nx) && Inv(y.conn) && Heard(y.conn.state) && y.started && Allowed(y, nx, a)
    ensures var y' := Act(y, a).side; Ends(y.conn, y'.conn) && (Ended(y'.conn) ==> y'.read == y.read)
  {
    hide Good, Inv, Input, Tick, Read, Write, Shutdown, Close, Fresh, Ended;
    match a
    case Open(entropy, at, reachable) =>
    case OpenListen(entropy) =>
    case Deliver(seg, env) => InputEnds(x, nx, y, ny, seg, env);
    case Timer(at) => TickEnds(y.conn, at);
    case DoRead(cap, at) => ReadEnds(y.conn, cap, at);
    case DoWrite(data, at) => WriteEnds(y.conn, data, at);
    case DoShutdown(rd, wr, at) => ShutdownEnds(y.conn, rd, wr, at);
    case DoClose(at) => CloseEnds(y.conn, at);
    case DoAccept =>
  }

  // A closed block hands out what it has and changes in nothing else a reader sees.
  lemma ActClosed(y: Side, a: Action, lost: nat)
    requires y.started && y.conn.state.Closed? && Whole(y, lost)
    ensures var y' := Act(y, a).side;
            y'.started && y'.conn.state.Closed? && Whole(y', lost) && y'.conn.peerFin == y.conn.peerFin
  {
    hide Input, Tick, Read, Write, Shutdown, AfterRead;
    match a
    case Open(entropy, at, reachable) =>
    case OpenListen(entropy) =>
    case Deliver(seg, env) => ClosedHears(y.conn, seg, env);
    case Timer(at) => ClosedTicks(y.conn, at);
    case DoRead(cap, at) => ClosedReads(y, cap, at, lost);
    case DoWrite(data, at) => ClosedCalls(y.conn, data, true, true, at);
    case DoShutdown(rd, wr, at) => ClosedCalls(y.conn, [], rd, wr, at);
    case DoClose(at) =>
    case DoAccept =>
  }

  lemma ClosedHears(c: Conn, seg: Segment, env: Env)
    requires c.state.Closed?
    ensures Input(c, seg, env).conn == c
  {
    hide SegmentInput, Output, ListenInput;
  }

  lemma ClosedCalls(c: Conn, data: seq<Byte>, rd: bool, wr: bool, now: nat)
    requires c.state.Closed?
    ensures var w := Write(c, data, now); (w.out.conn == c || w.out.conn == c.(error := 0)) && !w.reply.Accepted?
    ensures Shutdown(c, rd, wr, now).out.conn == c
  {
    hide Output;
  }

  lemma ClosedTicks(c: Conn, now: nat)
    requires c.state.Closed?
    ensures var d := Tick(c, now).conn; d.state.Closed? && d.rcv == c.rcv && d.peerFin == c.peerFin
  {
    hide Timeout;
    ClosedTimes(c, now);
  }

  lemma ClosedTimes(c: Conn, now: nat)
    requires c.state.Closed?
    ensures Timeout(c, now).conn == c.(timer := 0)
  {
    hide SynTimeout, Probe, Resend, SeqEq;
  }

  lemma ClosedReads(y: Side, cap: nat, now: nat, lost: nat)
    requires y.conn.state.Closed? && Whole(y, lost)
    ensures var y' := AfterRead(y, Read(y.conn, cap, now));
            y'.conn.state.Closed? && Whole(y', lost) && y'.conn.peerFin == y.conn.peerFin && y'.started == y.started
  {
    hide Read;
    ClosedReadIs(y.conn, cap, now);
  }

  lemma ClosedReadIs(c: Conn, cap: nat, now: nat)
    requires c.state.Closed?
    ensures var r := Read(c, cap, now);
            var d := r.out.conn;
            && d.state.Closed? && d.peerFin == c.peerFin && d.rcv.nxt == c.rcv.nxt && d.rcv.irs == c.rcv.irs
            && |c.rcv.rx| == |d.rcv.rx| + (if r.reply.Done? then |r.reply.bytes| else 0)
  {
    hide WindowPeek, Output, SeqLt, Diff;
    if c.error == 0 && |c.rcv.rx| > 0 { ClosedTakes(c, cap, now); }
  }

  lemma ClosedTakes(c: Conn, cap: nat, now: nat)
    requires c.state.Closed? && c.error == 0 && |c.rcv.rx| > 0
    ensures var r := Read(c, cap, now);
            var d := r.out.conn;
            && d.state.Closed? && d.peerFin == c.peerFin && d.rcv.nxt == c.rcv.nxt && d.rcv.irs == c.rcv.irs
            && r.reply.Done? && |c.rcv.rx| == |d.rcv.rx| + |r.reply.bytes|
  {
    hide WindowPeek, SeqLt, Diff, Output;
    ClosedOutput(c.(rcv := c.rcv.(rx := c.rcv.rx[Min(cap, |c.rcv.rx|)..]), ackNow := true), now);
  }

  // The connection of y ends at move n, with y open to its reader.
  ghost predicate EndedAt(moves: seq<Move>, left: bool, n: nat) {
    && n < |moves| && Heard(One(Reached(moves[..n]), !left).conn.state)
    && var y := One(Reached(moves[..n]), !left).conn;
       Ended(One(Reached(moves[..n + 1]), !left).conn) && !y.readShut && !y.orphan
  }

  // In order and after the peer's FIN.
  ghost predicate EndedInOrder(moves: seq<Move>, left: bool, n: nat) {
    EndedAt(moves, left, n) && var d := One(Reached(moves[..n + 1]), !left).conn; d.error == 0 && d.peerFin
  }

  // The unread bytes that the end dropped.
  ghost function LostAt(moves: seq<Move>, left: bool, n: nat): int
    requires n < |moves|
  {
    |One(Reached(moves[..n]), !left).conn.rcv.rx| - |One(Reached(moves[..n + 1]), !left).conn.rcv.rx|
  }

  lemma NextOf(p: Pair, m: Move, left: bool)
    ensures One(Next(p, m), left) == if m.left == left then Act(One(p, left), m.action).side else One(p, left)
    ensures Enabled(p, m) ==> Allowed(One(p, m.left), SentBy(p, !m.left), m.action)
  {
    hide Act, Allowed;
  }

  lemma EndsAreWhole(moves: seq<Move>, left: bool, n: nat)
    requires Legal(moves) && EndedAt(moves, left, n)
    ensures LostAt(moves, left, n) >= 0
    ensures var y := One(Reached(moves[..n + 1]), !left);
            y.started && y.conn.state.Closed? && Whole(y, LostAt(moves, left, n))
    ensures One(Reached(moves[..n + 1]), !left).conn.error == 0 ==> LostAt(moves, left, n) == 0
  {
    hide Good, Inv, Act, Allowed, PairInv, Next, Enabled, Whole, One, SentBy, Heard;
    var p, m := Reached(moves[..n]), moves[n];
    LegalUpTo(moves, n);
    EveryRunKeeps(moves[..n]);
    EitherEnd(p, left);
    EitherEnd(p, !left);
    assert moves[..n + 1][..n] == moves[..n];
    assert Reached(moves[..n + 1]) == Next(p, m) && Enabled(p, m);
    var lost := LostAt(moves, left, n);
    hide Reached, Legal, LostAt;
    var x, y := One(p, left), One(p, !left);
    HeardWhole(x, SentBy(p, left), y, SentBy(p, !left));
    NextOf(p, m, !left);
    HeardOpen(y.conn.state);
    ActEnds(x, SentBy(p, left), y, SentBy(p, !left), m.action);
    WholeKept(y, Act(y, m.action).side);
    ActStarted(y, m.action);
  }

  lemma HeardOpen(s: State)
    ensures Heard(s) ==> !s.Closed?
  {
  }

  lemma ActStarted(y: Side, a: Action)
    requires y.started
    ensures Act(y, a).side.started
  {
    hide Input, Tick, Read, Write, Shutdown, Close;
  }

  lemma WholeKept(y: Side, y': Side)
    requires Whole(y, 0) && Ends(y.conn, y'.conn) && Ended(y'.conn) && y'.read == y.read
    ensures |y.conn.rcv.rx| >= |y'.conn.rcv.rx| && Whole(y', |y.conn.rcv.rx| - |y'.conn.rcv.rx|)
    ensures y'.conn.error == 0 ==> |y.conn.rcv.rx| == |y'.conn.rcv.rx|
  {
  }

  lemma HeardWhole(x: Side, nx: Net, y: Side, ny: Net)
    requires Good(x, nx, y, ny) && Heard(y.conn.state) && !y.conn.readShut && !y.conn.orphan
    ensures Whole(y, 0) && y.started
  {
  }

  lemma {:induction false} StaysWhole(moves: seq<Move>, left: bool, n: nat)
    requires Legal(moves) && EndedAt(moves, left, n)
    ensures LostAt(moves, left, n) >= 0
            && (One(Reached(moves[..n + 1]), !left).conn.error == 0 ==> LostAt(moves, left, n) == 0)
    ensures var y := One(Reached(moves), !left);
            && y.started && y.conn.state.Closed? && Whole(y, LostAt(moves, left, n))
            && y.conn.peerFin == One(Reached(moves[..n + 1]), !left).conn.peerFin
  {
    hide Good, Inv, Act, Allowed, PairInv, Next, Enabled, Whole, One, SentBy, Heard, Ended;
    var last := |moves| - 1;
    if n == last {
      assert moves[..n + 1] == moves;
      EndsAreWhole(moves, left, n);
    } else {
      LegalUpTo(moves, last);
      assert moves[..last][..n] == moves[..n] && moves[..last][..n + 1] == moves[..n + 1];
      StaysWhole(moves[..last], left, n);
      var p, m := Reached(moves[..last]), moves[last];
      assert Reached(moves) == Next(p, m);
      NextOf(p, m, !left);
      ActClosed(One(p, !left), m.action, LostAt(moves, left, n));
    }
  }

  /**
   What an end-of-file on a closed block is worth.  In every run it means that the peer's stream
   ended and was read to its end exactly when the FIN was consumed and the end of the connection,
   however long ago, dropped no unread byte.
   */
  lemma ClosedEndOfFileIff(moves: seq<Move>, left: bool, n: nat, cap: nat, at: nat)
    requires Legal(moves) && EndedAt(moves, left, n) && cap > 0
    ensures var x, y := One(Reached(moves), left), One(Reached(moves), !left);
            && y.conn.state.Closed?
            && (Read(y.conn, cap, at).reply == Done([]) ==>
                  ((y.conn.peerFin && y.read == x.written) <==>
                     One(Reached(moves[..n + 1]), !left).conn.peerFin && LostAt(moves, left, n) == 0))
  {
    StaysWhole(moves, left, n);
    EveryRunKeeps(moves);
    EitherEnd(Reached(moves), left);
    var x, y := One(Reached(moves), left), One(Reached(moves), !left);
    hide PairInv, Legal, Reached, EndedAt, Inv, One, LostAt;
    if y.conn.peerFin {
      FinishedWhole(x, SentBy(Reached(moves), left), y, SentBy(Reached(moves), !left), LostAt(moves, left, n), cap, at);
    }
  }

  /**
   In every run, an end-of-file on a closed block whose connection ended in order after the
   peer's FIN means the whole stream was read, however long after the end.
   */
  lemma ClosedEndOfFileIsComplete(moves: seq<Move>, left: bool, n: nat, cap: nat, at: nat)
    requires Legal(moves) && EndedInOrder(moves, left, n) && cap > 0
    ensures var x, y := One(Reached(moves), left), One(Reached(moves), !left);
            y.conn.state.Closed? && (Read(y.conn, cap, at).reply == Done([]) ==> y.read == x.written)
  {
    hide Legal, Reached, One, EndedAt, Read, LostAt;
    StaysWhole(moves, left, n);
    ClosedEndOfFileIff(moves, left, n, cap, at);
  }

  lemma FinishedWhole(x: Side, nx: Net, y: Side, ny: Net, lost: nat, cap: nat, at: nat)
    requires Good(x, nx, y, ny) && Whole(y, lost) && y.conn.peerFin && y.conn.state.Closed? && cap > 0
    ensures Read(y.conn, cap, at).reply == Done([]) ==> (y.read == x.written <==> lost == 0)
  {
    hide SenderOk, AllGenuine, Acking, Core, Output, WindowPeek, SeqLt, Diff;
    assert Receiving(x, y);
    assert y.read + [] == y.read;
  }

  /**
   How bytes go missing unnoticed: a reset drops the unread bytes and leaves an error, a write
   is the first call to be told of it, and the read after that reports an end of file.
   */
  lemma WriteTakesTheError(c: Conn, seg: Segment, env: Env, data: seq<Byte>, cap: nat)
    requires Inv(c) && c.used && c.state.Established? && seg.rst && seg.data == [] && seg.seqNo == c.rcv.nxt
    ensures var failed := Input(c, seg, env).conn;
            var told := Write(failed, data, env.now);
            && failed.state.Closed? && failed.rcv.rx == [] && told.reply == Error(ECONNRESET)
            && Read(told.out.conn, cap, env.now).reply == Done([])
  {
    hide SegmentInput, Output;
    ResetFails(c, seg, env);
    var failed := SegmentInput(c, seg, env).conn;
    ClosedOutput(failed, env.now);
  }

  lemma ResetFails(c: Conn, seg: Segment, env: Env)
    requires Inv(c) && c.state.Established? && seg.rst && seg.data == [] && seg.seqNo == c.rcv.nxt
    ensures SegmentInput(c, seg, env).conn == Fail(c, ECONNRESET)
  {
    hide TextInput, AckAdvance, WindowUpdate, Establish, SynSentInput, SeqLt, SeqLe, SeqEq, Fail, Acceptable;
    SeqExact(seg.seqNo, c.rcv.nxt);
    InPlace(c, seg);
  }

}
