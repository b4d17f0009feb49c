/**
 Progress of a connection: a retransmission timeout and one delivery bring the first
 unacknowledged byte to a peer that has room for it.
 */
module TcpProgress {
  import opened TcpSpec
  import opened TcpInvariant
  import opened TcpWrap
  import opened TcpSystem
  import opened TcpRuns
  import opened TcpEdge

  // ---------- the sender ----------

  // Text for the peer, numbered from `from`, that acknowledges up to `upto`.
  predicate TextFrom(seg: Segment, from: int, upto: int) {
    && seg.seqNo == from && 0 < |seg.data| <= BUFFER_SIZE
    && seg.ack && seg.ackNo == upto && !seg.rst && !seg.syn && !seg.fin
  }

  // Bytes are queued, the window is open and the block has a retransmission left.
  predicate Ready(c: Conn) {
    && c.used && DataState(c.state) && c.snd.tx != [] && c.snd.wnd > 0
    && c.retries < DATA_RETRIES && c.life == 0
  }

  lemma TimeoutSendsText(c: Conn, now: nat)
    requires Inv(c) && Ready(c)
    ensures |Timeout(c, now).sent| > 0 && TextFrom(Timeout(c, now).sent[0], c.snd.una, c.rcv.nxt)
  {
    InFlightThen(c);
    hide Output, Timeout, Core, Inv, Sent, SetNxt, Backoff, OutputFrame, AllBelow, SameStream, DataState, Ready;
    ReadyIs(c);
    ResendCoversFirst(c, now);
    InvIsCore(c);
    TimeoutGoesBack(c, now);
    var r := c.(retries := c.retries + 1);
    var back := SetNxt(Backoff(r), r.snd.una).(timer := now + Backoff(r).rto);
    GoBackKeeps(c, back, now);
    GoBackValue(c, back, now);
    OutputKeeps(back, now);
    BackRcv(c, back, now);
    assert Timeout(c, now).sent[0] in Timeout(c, now).sent;
    SentText(back.snd, back.rcv, back.finPending, Timeout(c, now).sent[0]);
    QueueFits(c);
  }

  lemma ReadyIs(c: Conn)
    requires Ready(c)
    ensures DataState(c.state) && |c.snd.tx| > 0 && c.snd.wnd > 0 && c.retries < DATA_RETRIES
  {
  }

  lemma BackRcv(c: Conn, back: Conn, now: nat)
    requires var r := c.(retries := c.retries + 1);
             back == SetNxt(Backoff(r), r.snd.una).(timer := now + Backoff(r).rto)
    ensures back.rcv == c.rcv
  {
  }

  lemma SentText(snd: Sender, rcv: Receiver, fin: bool, seg: Segment)
    requires Sent(snd, rcv, fin, seg) && |seg.data| > 0
    ensures !seg.rst && !seg.syn && !seg.fin && seg.ack && seg.ackNo == rcv.nxt && |seg.data| <= |snd.tx|
  {
  }

  // With the window open, queued bytes are in flight.
  lemma InFlightThen(c: Conn)
    requires Inv(c) && Ready(c)
    ensures c.snd.una != c.snd.nxt
  {
  }

  lemma QueueFits(c: Conn)
    requires Core(c) && DataState(c.state)
    ensures |c.snd.tx| <= BUFFER_SIZE
  {
  }

  // ---------- the receiver ----------

  // A block that takes data and has room for at least one more byte.
  predicate Receptive(d: Conn) { d.used && TakesData(d.state) && !d.orphan && |d.rcv.rx| < BUFFER_SIZE }

  lemma TextIsTaken(d: Conn, seg: Segment, env: Env)
    requires Inv(d) && Receptive(d) && TextFrom(seg, d.rcv.nxt, seg.ackNo) && d.snd.una <= seg.ackNo <= d.snd.max
    ensures Input(d, seg, env).conn.rcv.nxt > d.rcv.nxt
  {
    InvIsCore(d);
    BoundsOf(d);
    hide Inv, Core, SegmentInput, Output, SeqLt;
    SegmentTakes(d, seg, env);
    SegmentInputKeeps(d, seg, env);
    OutputKeeps(SegmentInput(d, seg, env).conn, env.now);
  }

  lemma BoundsOf(d: Conn)
    requires Core(d) && TakesData(d.state)
    ensures d.snd.una <= d.snd.max <= d.snd.una + BUFFER_SIZE + 1 && SendOrder(d.snd, FinCount(d.state))
    ensures FinOut(d.state) ==> d.finPending
  {
  }

  // What becomes of an acceptable segment with an acknowledgement.
  lemma AcceptedIs(d: Conn, seg: Segment, env: Env)
    requires !d.state.SynSent? && !d.state.SynReceived? && Acceptable(d, seg) && !seg.rst && !seg.syn && seg.ack
    requires !SeqLt(d.snd.max, seg.ackNo)
    ensures var acked := if SeqLt(d.snd.una, seg.ackNo) then AckAdvance(d, seg.ackNo, env) else d;
            acked.used && !acked.state.Closed? ==>
              SegmentInput(d, seg, env) == TextInput(WindowUpdate(acked, seg), seg, env.now)
  {
    hide Acceptable, SeqLt, TextInput, AckAdvance, WindowUpdate, SynSentInput, ResetInput, Establish;
  }

  lemma ReceptiveState(d: Conn)
    requires Receptive(d)
    ensures d.used && !d.state.SynSent? && !d.state.SynReceived? && !d.state.Closed?
  {
  }

  lemma SegmentTakes(d: Conn, seg: Segment, env: Env)
    requires Core(d) && Receptive(d) && TextFrom(seg, d.rcv.nxt, seg.ackNo) && d.snd.una <= seg.ackNo <= d.snd.max
    ensures var got := SegmentInput(d, seg, env).conn; got.used && got.rcv.nxt > d.rcv.nxt
  {
    BoundsOf(d);
    InPlace(d, seg);
    hide Core, Acceptable, SeqLt, SeqLe, SeqEq, TextInput, AckAdvance, WindowUpdate, SegmentInput, Receptive;
    ReceptiveState(d);
    SeqExact(d.snd.max, seg.ackNo);
    SeqExact(d.snd.una, seg.ackNo);
    var acked := if SeqLt(d.snd.una, seg.ackNo) then AckAdvance(d, seg.ackNo, env) else d;
    AckedReceptive(d, seg.ackNo, env);
    ReceptiveState(acked);
    AcceptedIs(d, seg, env);
    UpdateReceptive(acked, seg);
    InOrderText(WindowUpdate(acked, seg), seg, env.now);
  }

  lemma AckedReceptive(d: Conn, ackNo: int, env: Env)
    requires Core(d) && Receptive(d)
    ensures d.snd.una < ackNo <= d.snd.max ==>
              Receptive(AckAdvance(d, ackNo, env)) && AckAdvance(d, ackNo, env).rcv == d.rcv
  {
    BoundsOf(d);
    hide Core, AckAdvance, AckedBytes, FinAcked;
    if d.snd.una < ackNo <= d.snd.max {
      AckedBytesExact(d, ackNo);
      AckAdvanceValue(d, ackNo, env);
      FreedByAck(d, ackNo, env);
    }
  }

  lemma UpdateReceptive(d: Conn, seg: Segment)
    requires Receptive(d)
    ensures Receptive(WindowUpdate(d, seg)) && WindowUpdate(d, seg).rcv == d.rcv
  {
    hide SeqLt, SeqLe, SeqEq;
  }

  lemma InOrderText(d: Conn, seg: Segment, now: nat)
    requires Receptive(d) && TextFrom(seg, d.rcv.nxt, seg.ackNo)
    ensures var o := TextInput(d, seg, now).conn; o.used && o.rcv.nxt > d.rcv.nxt
  {
    assert Overlap(d, seg) == 0 && SeqEq(seg.seqNo + 0, d.rcv.nxt);
    hide Overlap, SeqEq;
    assert seg.data[0..] == seg.data;
  }

  // ---------- the pair ----------

  /**
   In every run, from a sender with queued bytes, an open window and a retransmission left, and a
   receiver with room: either the receiver has the first unacknowledged byte already, or a timeout
   and the delivery of the first segment it sends bring it there.
   */
  lemma RetransmissionDelivers(moves: seq<Move>, left: bool, env: Env) returns (more: seq<Move>)
    requires Legal(moves) && Ready(One(Reached(moves), left).conn) && Receptive(One(Reached(moves), !left).conn)
    ensures LegalFrom(Reached(moves), more) && |more| <= 2
    ensures One(RunFrom(Reached(moves), more), !left).conn.rcv.nxt > One(Reached(moves), left).conn.snd.una
  {
    hide Legal, Reached, RunFrom, LegalFrom, Inv, Good, Next, Enabled, Ready, Receptive;
    var p := Reached(moves);
    var x, y := One(p, left), One(p, !left);
    EveryRunKeeps(moves);
    EitherEnd(p, left);
    EitherEnd(p, !left);
    Known(x, SentBy(p, left), y, SentBy(p, !left));
    if y.conn.rcv.nxt > x.conn.snd.una {
      more := [];
      RunStart(p);
      NoMoves(p);
    } else {
      var now := x.conn.timer;
      TimerFires(x.conn);
      TimeoutSendsText(x.conn, now);
      var seg := Timeout(x.conn, now).sent[0];
      TextIsTaken(y.conn, seg, env);
      more := [Move(left, Timer(now)), Move(!left, Deliver(seg, env))];
      TwoMoves(p, left, now, seg, env);
    }
  }

  lemma TimerFires(c: Conn)
    requires Inv(c) && Ready(c)
    ensures Tick(c, c.timer) == Timeout(c, c.timer)
  {
    hide Timeout;
  }

  // What the ends know of each other.
  lemma Known(x: Side, nx: Net, y: Side, ny: Net)
    requires Good(x, nx, y, ny) && Ready(x.conn) && Receptive(y.conn)
    ensures x.conn.snd.una <= y.conn.rcv.nxt && y.conn.snd.una <= x.conn.rcv.nxt <= y.conn.snd.max
    ensures y.conn.rcv.nxt <= x.conn.snd.una + 0x4000
  {
    hide SenderOk, AllGenuine;
  }

  lemma NoMoves(p: Pair)
    ensures LegalFrom(p, [])
  {
  }

  lemma TwoMoves(p: Pair, left: bool, now: nat, seg: Segment, env: Env)
    requires Tick(One(p, left).conn, now) == Timeout(One(p, left).conn, now)
    requires |Timeout(One(p, left).conn, now).sent| > 0 && seg == Timeout(One(p, left).conn, now).sent[0]
    requires Fresh(One(p, !left).conn, seg)
    ensures var more := [Move(left, Timer(now)), Move(!left, Deliver(seg, env))];
            && LegalFrom(p, more)
            && One(RunFrom(p, more), !left).conn == Input(One(p, !left).conn, seg, env).conn
  {
    hide Timeout, Tick, Input, Fresh;
    var m1, m2 := Move(left, Timer(now)), Move(!left, Deliver(seg, env));
    var p1 := Next(p, m1);
    assert seg in SentBy(p1, left) && One(p1, !left) == One(p, !left);
    assert Enabled(p, m1) && Enabled(p1, m2);
    var q := Next(p1, m2);
    assert One(q, !left).conn == Input(One(p, !left).conn, seg, env).conn;
    hide Next, Enabled;
    assert [m1, m2][..1] == [m1] && [m1][..0] == [] && [m1, m2][..0] == [];
    assert RunFrom(p, []) == p;
    assert RunFrom(p, [m1]) == p1;
    assert RunFrom(p, [m1, m2]) == q;
    forall i | 0 <= i < 2 ensures Enabled(RunFrom(p, [m1, m2][..i]), [m1, m2][i]) {}
  }
}
