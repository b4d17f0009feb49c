/**
 The edges of the protocol: what a retransmission carries, why deliveries must be younger
 than the sequence space, and the crossed SYNs after which a handshake cannot complete.
 */
module TcpEdge {
  import opened TcpSpec
  import opened TcpInvariant
  import opened TcpWrap
  import opened TcpSystem
  import opened TcpRuns

  // ---------- a retransmission repairs the first loss ----------

  lemma FirstChunk(c: Conn)
    requires Core(c) && DataState(c.state) && c.snd.nxt == c.snd.una && |c.snd.tx| > 0 && c.snd.wnd > 0
    ensures var sent := SendData(c).sent;
            |sent| > 0 && sent[0].seqNo == c.snd.una && |sent[0].data| > 0 && sent[0].data[0] == c.snd.tx[0]
  {
    InFlight(c.snd, FinCount(c.state));
    assert ChunkLength(c) > 0 by { hide Diff; }
    hide Diff, SeqLt, WindowPeek, SendData, ChunkLength, SendChunk;
    SendChunkValue(c);
    SendDataHead(c);
  }

  lemma SendDataHead(c: Conn)
    requires ChunkLength(c) > 0 && |c.snd.tx| <= BUFFER_SIZE
    ensures |SendData(c).sent| >= |SendChunk(c).sent| && SendData(c).sent[..|SendChunk(c).sent|] == SendChunk(c).sent
  {
    hide Diff, SeqLt, WindowPeek, ChunkLength, SendChunk;
  }

  /**
   Unless the block gives up, a retransmission timeout with anything unacknowledged and no
   closed window sends the first unacknowledged byte again, or the FIN if no byte is left.
   */
  lemma ResendCoversFirst(c: Conn, now: nat)
    requires Inv(c) && DataState(c.state) && c.snd.una != c.snd.nxt && !(c.snd.wnd == 0 && |c.snd.tx| > 0)
    requires c.retries < DATA_RETRIES
    ensures var sent := Timeout(c, now).sent;
            && |sent| > 0 && sent[0].seqNo == c.snd.una
            && (if |c.snd.tx| > 0 then |sent[0].data| > 0 && sent[0].data[0] == c.snd.tx[0] else sent[0].fin)
    ensures Timeout(c, now).conn.timer != 0
  {
    hide Output, Timeout, SetNxt, Backoff, SeqEq, Core, Inv;
    var r := c.(retries := c.retries + 1);
    var back := SetNxt(Backoff(r), r.snd.una).(timer := now + Backoff(r).rto);
    InvIsCore(c);
    TimeoutGoesBack(c, now);
    GoBackKeeps(c, back, now);
    GoBackValue(c, back, now);
    StoppedWithFin(c);
    GoBackCovers(back, now);
  }

  lemma TimeoutGoesBack(c: Conn, now: nat)
    requires Core(c) && DataState(c.state) && c.snd.una != c.snd.nxt && !(c.snd.wnd == 0 && |c.snd.tx| > 0)
    requires c.retries < DATA_RETRIES
    ensures var r := c.(retries := c.retries + 1);
            Timeout(c, now) == Output(SetNxt(Backoff(r), r.snd.una).(timer := now + Backoff(r).rto), now)
  {
    NothingInFlight(c.snd, FinCount(c.state));
    ResendCases(c, now);
    hide Output, SynTimeout, Abort, Probe, SeqEq, Resend;
  }

  // With no byte queued, only a FIN can be in flight.
  lemma StoppedWithFin(c: Conn)
    requires Core(c) && DataState(c.state) && c.snd.una != c.snd.nxt
    ensures |c.snd.tx| == 0 ==> c.finPending
  {
  }

  lemma GoBackCovers(c: Conn, now: nat)
    requires Core(c) && DataState(c.state) && c.snd.nxt == c.snd.una && !(c.snd.wnd == 0 && |c.snd.tx| > 0)
    requires |c.snd.tx| == 0 ==> c.finPending
    ensures var sent := Output(c, now).sent;
            && |sent| > 0 && sent[0].seqNo == c.snd.una
            && (if |c.snd.tx| > 0 then |sent[0].data| > 0 && sent[0].data[0] == c.snd.tx[0] else sent[0].fin)
    ensures Output(c, now).conn.timer != 0
  {
    hide Output, SendData, Sent, Core;
    GoBackTimer(c, now);
    if |c.snd.tx| > 0 {
      assert Pulled(c) == c;
      FirstChunk(c);
      HeadOfThree(c, now);
    } else {
      FinGoesFirst(c, now);
    }
  }

  lemma GoBackTimer(c: Conn, now: nat)
    requires Core(c) && DataState(c.state) && (|c.snd.tx| > 0 || c.finPending)
    ensures Output(c, now).conn.timer != 0
  {
    hide Output, Sent;
    OutputKeeps(c, now);
  }

  lemma GoBackValue(c: Conn, back: Conn, now: nat)
    requires var r := c.(retries := c.retries + 1);
             back == SetNxt(Backoff(r), r.snd.una).(timer := now + Backoff(r).rto)
    ensures back.snd == c.snd.(nxt := c.snd.una) && back.state == c.state && back.finPending == c.finPending
  {
  }

  lemma HeadOfThree(c: Conn, now: nat)
    requires DataState(c.state) && |SendData(Pulled(c)).sent| > 0
    ensures |Output(c, now).sent| > 0 && Output(c, now).sent[0] == SendData(Pulled(c)).sent[0]
  {
    hide SendData, SendFin, SendAck, Output;
    OutputUnfolds(c, now);
  }

  lemma FinGoesFirst(c: Conn, now: nat)
    requires Core(c) && DataState(c.state) && c.finPending && c.snd.tx == [] && c.snd.nxt == c.snd.una
    ensures |Output(c, now).sent| > 0 && Output(c, now).sent[0].fin && Output(c, now).sent[0].seqNo == c.snd.una
  {
    InFlight(c.snd, FinCount(c.state));
    assert ChunkLength(c) == 0 by { hide Diff; }
    assert SendData(c) == Out(c, []) by { hide ChunkLength; }
    hide SendData, SendFin, SendAck, Output, Diff, SeqEq;
    OutputUnfolds(c, now);
    assert Pulled(c) == c;
    SendFinValue(c);
  }

  // ---------- why deliveries must be fresh ----------

  /** Text that is exactly one sequence space old is indistinguishable from the next bytes. */
  lemma StaleTextIsTaken(c: Conn, seg: Segment)
    requires c.state.Established? && !c.orphan && !c.readShut && |c.rcv.rx| + |seg.data| <= BUFFER_SIZE
    requires |seg.data| > 0 && seg.seqNo == c.rcv.nxt - MOD && !seg.rst
    ensures AcceptText(c, seg).conn.rcv.rx == c.rcv.rx + seg.data && !Fresh(c, seg)
  {
    assert SeqEq(seg.seqNo, c.rcv.nxt) && !SeqLt(seg.seqNo, c.rcv.nxt);
    assert seg.data[0..] == seg.data && seg.data[..|seg.data|] == seg.data;
  }

  // ---------- simultaneous open ----------

  // Both ends have heard the other's SYN but nobody has sent anything but SYNs and resets.
  ghost predicate Stalled(p: Pair) {
    && HalfOpen(p.a) && HalfOpen(p.b)
    && (forall seg <- p.na :: seg.syn || seg.rst) && (forall seg <- p.nb :: seg.syn || seg.rst)
  }

  ghost predicate HalfOpen(x: Side) { x.started && (x.conn.state.SynReceived? || x.conn.state.Closed?) }

  lemma HalfOpenOutput(c: Conn, now: nat)
    requires c.state.SynReceived? || c.state.Closed?
    ensures Output(c, now).conn.state == c.state && forall seg <- Output(c, now).sent :: seg.syn || seg.rst
  {
    hide SendData, SendFin, SendAck, WindowPeek, SeqLt;
  }

  lemma HalfOpenSegment(c: Conn, seg: Segment, env: Env)
    requires c.state.SynReceived? && (seg.syn || seg.rst)
    ensures var o := SegmentInput(c, seg, env);
            (o.conn.state.SynReceived? || o.conn.state.Closed?) && forall s <- o.sent :: s.syn || s.rst
  {
    hide Acceptable, SeqEq, SeqLt, SeqLe, TextInput, AckAdvance, WindowUpdate, Establish, SynSentInput, ResetInput,
        ReplyReset;
    if seg.rst { HalfOpenReset(c, seg); }
  }

  lemma HalfOpenReset(c: Conn, seg: Segment)
    requires c.state.SynReceived?
    ensures ResetInput(c, seg).state.SynReceived? || ResetInput(c, seg).state.Closed?
  {
    hide SeqEq;
  }

  lemma HalfOpenInput(c: Conn, seg: Segment, env: Env)
    requires (c.state.SynReceived? || c.state.Closed?) && (seg.syn || seg.rst)
    ensures var o := Input(c, seg, env);
            (o.conn.state.SynReceived? || o.conn.state.Closed?) && forall s <- o.sent :: s.syn || s.rst
  {
    hide SegmentInput, Output, ListenInput, ReplyReset;
    ResetsOnly(seg);
    if c.state.SynReceived? {
      HalfOpenSegment(c, seg, env);
      HalfOpenOutput(SegmentInput(c, seg, env).conn, env.now);
    }
  }

  lemma HalfOpenTick(c: Conn, now: nat)
    requires c.state.SynReceived? || c.state.Closed?
    ensures var o := Tick(c, now);
            (o.conn.state.SynReceived? || o.conn.state.Closed?) && forall s <- o.sent :: s.syn || s.rst
  {
    hide Timeout, Finish, SynTimeout;
    FinishCloses(c);
    if c.state.SynReceived? {
      TimeoutIs(c, now);
      HalfOpenTimeout(c, now);
    } else {
      ClosedTimeout(c, now);
    }
  }

  lemma FinishCloses(c: Conn)
    ensures Finish(c).state.Closed?
  {
  }

  lemma TimeoutIs(c: Conn, now: nat)
    requires c.state.SynReceived?
    ensures Timeout(c, now) == SynTimeout(c, now)
  {
    hide SynTimeout;
  }

  lemma HalfOpenTimeout(c: Conn, now: nat)
    requires c.state.SynReceived?
    ensures var o := SynTimeout(c, now);
            (o.conn.state.SynReceived? || o.conn.state.Closed?) && forall s <- o.sent :: s.syn || s.rst
  {
    hide WindowPeek, SeqLt;
  }

  lemma ClosedTimeout(c: Conn, now: nat)
    requires c.state.Closed?
    ensures Timeout(c, now).conn.state.Closed? && Timeout(c, now).sent == []
  {
    hide SynTimeout, Probe, Resend, SeqEq;
  }

  lemma HalfOpenAct(x: Side, a: Action)
    requires HalfOpen(x) && (a.Deliver? ==> a.seg.syn || a.seg.rst)
    ensures HalfOpen(Act(x, a).side) && forall s <- Act(x, a).sent :: s.syn || s.rst
  {
    hide Input, Tick, Output;
    match a
    case Open(entropy, at, reachable) =>
    case OpenListen(entropy) =>
    case Deliver(seg, env) => HalfOpenInput(x.conn, seg, env);
    case Timer(at) => HalfOpenTick(x.conn, at);
    case DoRead(cap, at) => HalfOpenRead(x.conn, cap, at);
    case DoWrite(data, at) => HalfOpenWrite(x.conn, data, at);
    case DoShutdown(rd, wr, at) =>
    case DoClose(at) =>
    case DoAccept =>
  }

  lemma HalfOpenRead(c: Conn, cap: nat, now: nat)
    requires c.state.SynReceived? || c.state.Closed?
    ensures var o := Read(c, cap, now).out; o.conn.state == c.state && o.sent == []
  {
    hide WindowPeek, SeqLt, Diff, Output;
    if c.state.Closed? { ClosedOutput(c.(rcv := c.rcv.(rx := c.rcv.rx[Min(cap, |c.rcv.rx|)..]), ackNow := true), now); }
  }

  lemma HalfOpenWrite(c: Conn, data: seq<Byte>, now: nat)
    requires c.state.SynReceived? || c.state.Closed?
    ensures var o := Write(c, data, now).out; o.conn.state == c.state && o.sent == []
  {
    hide Output;
  }

  ghost function RunFrom(p: Pair, moves: seq<Move>): Pair {
    if moves == [] then p else Next(RunFrom(p, moves[..|moves| - 1]), moves[|moves| - 1])
  }

  ghost predicate LegalFrom(p: Pair, moves: seq<Move>) {
    forall i :: 0 <= i < |moves| ==> Enabled(RunFrom(p, moves[..i]), moves[i])
  }

  /**
   Once both bare SYNs were heard the open cannot complete: a block in SYN_RECEIVED answers every
   SYN with another SYN+ACK, which the peer rejects in turn, so no continuation establishes
   either end.
   */
  lemma {:induction false} StalledForever(p: Pair, moves: seq<Move>)
    requires Stalled(p) && LegalFrom(p, moves)
    ensures Stalled(RunFrom(p, moves))
  {
    hide Stalled, LegalFrom, RunFrom, Next, Enabled;
    if moves == [] {
      RunStart(p);
    } else {
      var last := |moves| - 1;
      LastMove(p, moves);
      StalledForever(p, moves[..last]);
      StalledStep(RunFrom(p, moves[..last]), moves[last]);
    }
  }

  lemma RunStart(p: Pair)
    ensures RunFrom(p, []) == p
  {
  }

  // A legal continuation is a legal one with one more move.
  lemma LastMove(p: Pair, moves: seq<Move>)
    requires LegalFrom(p, moves) && moves != []
    ensures var last := |moves| - 1;
            && LegalFrom(p, moves[..last]) && Enabled(RunFrom(p, moves[..last]), moves[last])
            && RunFrom(p, moves) == Next(RunFrom(p, moves[..last]), moves[last])
  {
    hide Enabled, Next;
    var last := |moves| - 1;
    forall i | 0 <= i < last ensures Enabled(RunFrom(p, moves[..last][..i]), moves[..last][i]) {
      assert moves[..last][..i] == moves[..i];
    }
  }

  lemma StalledStep(p: Pair, m: Move)
    requires Stalled(p) && Enabled(p, m)
    ensures Stalled(Next(p, m))
  {
    hide Act;
    HalfOpenAct(One(p, m.left), m.action);
  }

  /** Two active opens whose SYNs cross stall. */
  lemma SimultaneousOpenStalls(e1: nat, e2: nat, at: nat, env: Env)
    ensures var syn1, syn2 := Connect(e1, at, true).sent[0], Connect(e2, at, true).sent[0];
            Stalled(Reached([Move(true, Open(e1, at, true)), Move(false, Open(e2, at, true)),
                             Move(true, Deliver(syn2, env)), Move(false, Deliver(syn1, env))]))
  {
    hide Connect, Reached, Next, Stalled, BareSyn;
    var c1, c2 := Connect(e1, at, true), Connect(e2, at, true);
    OpensWithBareSyn(e1, at);
    OpensWithBareSyn(e2, at);
    var m1, m2 := Move(true, Open(e1, at, true)), Move(false, Open(e2, at, true));
    var m3, m4 := Move(true, Deliver(c2.sent[0], env)), Move(false, Deliver(c1.sent[0], env));
    BothOpen(e1, e2, at);
    OneMore([m1, m2], m3);
    OneMore([m1, m2, m3], m4);
    assert [m1, m2] + [m3] == [m1, m2, m3] && [m1, m2, m3] + [m4] == [m1, m2, m3, m4];
    BothHear(c1, c2, e1, e2, env);
  }

  // Both ends of the pair hear the other's bare SYN.
  lemma BothHear(c1: Out, c2: Out, e1: nat, e2: nat, env: Env)
    requires |c1.sent| == 1 && BareSyn(c1.sent[0], e1) && c1.conn.state.SynSent? && c1.conn.used
    requires |c2.sent| == 1 && BareSyn(c2.sent[0], e2) && c2.conn.state.SynSent? && c2.conn.used
    ensures var p := Pair(Side(c1.conn, true, false, [], []), {} + Elements(c1.sent),
                          Side(c2.conn, true, false, [], []), {} + Elements(c2.sent));
            Stalled(Next(Next(p, Move(true, Deliver(c2.sent[0], env))), Move(false, Deliver(c1.sent[0], env))))
  {
    hide Input, Act;
    var x1, x2 := Side(c1.conn, true, false, [], []), Side(c2.conn, true, false, [], []);
    CrossedSyn(c1.conn, c2.sent[0], env);
    CrossedSyn(c2.conn, c1.sent[0], env);
    DeliveryIs(x1, c2.sent[0], env);
    DeliveryIs(x2, c1.sent[0], env);
  }

  lemma DeliveryIs(x: Side, seg: Segment, env: Env)
    ensures var o, e := Input(x.conn, seg, env), Act(x, Deliver(seg, env));
            e.side.conn == o.conn && e.side.started == x.started && e.sent == o.sent
  {
    hide Input;
  }

  lemma OneMore(moves: seq<Move>, m: Move)
    ensures Reached(moves + [m]) == Next(Reached(moves), m)
  {
    hide Next;
    assert (moves + [m])[..|moves|] == moves;
  }

  lemma BothOpen(e1: nat, e2: nat, at: nat)
    ensures var c1, c2 := Connect(e1, at, true), Connect(e2, at, true);
            Reached([Move(true, Open(e1, at, true)), Move(false, Open(e2, at, true))])
            == Pair(Side(c1.conn, true, false, [], []), {} + Elements(c1.sent),
                    Side(c2.conn, true, false, [], []), {} + Elements(c2.sent))
  {
    hide Connect, FreshBlock, Reached;
    var m1, m2 := Move(true, Open(e1, at, true)), Move(false, Open(e2, at, true));
    OneMore([], m1);
    OneMore([m1], m2);
    assert [] + [m1] == [m1] && [m1] + [m2] == [m1, m2];
    assert Reached([]) == Start() by { NoMove(); }
  }

  lemma NoMove()
    ensures Reached([]) == Start()
  {
    hide Start;
  }

  predicate BareSyn(seg: Segment, iss: int) {
    seg.syn && !seg.ack && !seg.rst && !seg.fin && seg.seqNo == iss && seg.data == []
  }

  lemma OpensWithBareSyn(e: nat, at: nat)
    ensures var o := Connect(e, at, true);
            && |o.sent| == 1 && BareSyn(o.sent[0], e) && o.conn.state.SynSent? && o.conn.used
            && o.conn.snd.iss == e && o.conn.rcv.nxt == 0
  {
    hide SendSyn;
    SynIs(FreshBlock(e).(state := SynSent), at);
  }

  lemma CrossedSyn(c: Conn, seg: Segment, env: Env)
    requires c.state.SynSent? && c.used && seg.syn && !seg.ack && !seg.rst
    ensures var o := Input(c, seg, env);
            o.conn.state.SynReceived? && forall s <- o.sent :: s.syn || s.rst
  {
    var h := SynHeard(c, seg).(state := SynReceived);
    assert SegmentInput(c, seg, env) == Out(h, []) by { hide SeqLt, SeqLe, Establish; }
    hide SegmentInput, Output, SynHeard;
    HalfOpenOutput(h, env.now);
    HeardUsed(c, seg);
  }

  lemma HeardUsed(c: Conn, seg: Segment)
    ensures SynHeard(c, seg).used == c.used
  {
  }
}
