/**
 Opening a connection: the three-way handshake completes, also when both ends open at once and
 only one of the two SYNs was heard; and it is stated exactly which half-open pairs can still
 be established.
 */
module TcpOpen {
  import opened Wrappers
  import opened TcpSpec
  import opened TcpInvariant
  import opened TcpWrap
  import opened TcpSystem
  import opened TcpRuns
  import opened TcpEdge

  // ---------- steps that leave a block unconnected ----------

  // A block that is still unconnected after a step was so before, said nothing but SYNs and
  // resets, and kept its initial sequence number unless it was a listener.
  ghost predicate Knocks(c: Conn, d: Conn, sent: seq<Segment>) {
    Unconnected(d.state) ==>
      && Unconnected(c.state) && (forall s <- sent :: s.syn || s.rst)
      && (d.snd.iss == c.snd.iss || (c.state.Listen? && d.state.SynReceived? && d.snd.iss >= 0))
      && (!d.state.SynReceived? ==> d.state == c.state && d.rcv.nxt == c.rcv.nxt)
  }

  lemma KnocksTwice(c: Conn, d: Conn, e: Conn, s: seq<Segment>, t: seq<Segment>)
    requires Knocks(c, d, s) && Knocks(d, e, t)
    ensures Knocks(c, e, s + t)
  {
  }

  lemma {:induction false} SendDataState(c: Conn)
    ensures SendData(c).conn.state == c.state
    decreases Unsent(c)
  {
    hide ChunkLength, WindowPeek, Diff, SeqLt;
    if ChunkLength(c) > 0 && |c.snd.tx| <= BUFFER_SIZE {
      ChunkShrinks(c);
      SendDataState(SendChunk(c).conn);
    }
  }

  lemma OutputKnocks(c: Conn, now: nat)
    ensures Knocks(c, Output(c, now).conn, Output(c, now).sent)
  {
    hide SendData, SendFin, WindowPeek, SeqLt, SendSyn, SendAck, ArmTimer;
    if c.state.SynReceived? {
      SynIs(c, now);
    } else if DataState(c.state) {
      var fin := SendFin(SendData(Pulled(c)).conn).conn;
      SendDataState(Pulled(c));
      FinState(SendData(Pulled(c)).conn);
      AckState(fin, now);
      AckState(SendAck(fin).conn, now);
    } else {
      AckState(c, now);
    }
  }

  lemma AckState(c: Conn, now: nat)
    ensures SendAck(c).conn.state == c.state && ArmTimer(c, now).state == c.state
  {
    hide WindowPeek, SeqEq;
  }

  lemma FinState(c: Conn)
    requires DataState(c.state)
    ensures DataState(SendFin(c).conn.state)
  {
    hide WindowPeek, SeqEq, SeqLt;
  }

  lemma TextKnocks(c: Conn, seg: Segment, now: nat)
    requires !Unconnected(c.state)
    ensures !Unconnected(TextInput(c, seg, now).conn.state)
  {
    hide SeqEq, Overlap;
  }

  lemma AckKnocks(c: Conn, ackNo: int, env: Env)
    requires !Unconnected(c.state)
    ensures !Unconnected(AckAdvance(c, ackNo, env).state)
  {
    hide SeqEq, SeqLt, FinAcked, AckedBytes, AckArmed, Finish, EnterTimeWait;
    var armed := AckArmed(c, ackNo, env);
    assert armed.state == c.state by { ArmedFrame(c, ackNo, env); }
    FinishValue(armed);
    EnterTimeWaitValue(armed, env.now);
  }

  lemma ResetKnocks(c: Conn, seg: Segment)
    ensures Knocks(c, ResetInput(c, seg), [])
  {
    hide SeqEq, Fail, Finish, Knocks;
    FinishCloses(c);
    FailCloses(c, if c.state.SynReceived? then ECONNREFUSED else ECONNRESET);
    KnocksSame(c, ResetInput(c, seg));
  }

  lemma KnocksSame(c: Conn, d: Conn)
    requires d == c || d == c.(ackNow := true) || d.state.Closed?
    ensures Knocks(c, d, [])
  {
  }

  lemma SynSentKnocks(c: Conn, seg: Segment, env: Env)
    requires c.state.SynSent?
    ensures Knocks(c, SynSentInput(c, seg, env).conn, SynSentInput(c, seg, env).sent)
  {
    hide SeqLt, SeqLe, ReplyReset, Establish, Fail, SynHeard;
    ResetsOnly(seg);
    EstablishState(SynHeard(c, seg), seg, env);
    FailCloses(c, ECONNREFUSED);
    HeardIss(c, seg);
  }

  lemma HeardIss(c: Conn, seg: Segment)
    ensures var d := SynHeard(c, seg); d.snd.iss == c.snd.iss && d.state == c.state && d.used == c.used
  {
  }

  lemma SegmentKnocks(c: Conn, seg: Segment, env: Env)
    requires !c.state.Listen?
    ensures Knocks(c, SegmentInput(c, seg, env).conn, SegmentInput(c, seg, env).sent)
  {
    hide SeqEq, SeqLt, SeqLe, Acceptable, TextInput, AckAdvance, ResetInput, WindowUpdate, Establish, SynSentInput,
        SetWindow, ReplyReset;
    ResetsOnly(seg);
    if c.state.SynSent? {
      SynSentKnocks(c, seg, env);
    } else if Acceptable(c, seg) && seg.rst {
      ResetKnocks(c, seg);
    } else if Acceptable(c, seg) && !seg.syn && seg.ack {
      if c.state.SynReceived? {
        EstablishState(SetWindow(c, seg), seg, env);
        TextKnocks(Establish(SetWindow(c, seg), seg, env), seg, env.now);
      } else {
        AckKnocks(c, seg.ackNo, env);
        var acked := if SeqLt(c.snd.una, seg.ackNo) then AckAdvance(c, seg.ackNo, env) else c;
        UpdateState(acked, seg);
        TextKnocks(WindowUpdate(acked, seg), seg, env.now);
      }
    }
  }

  lemma ListenKnocks(c: Conn, seg: Segment, env: Env)
    requires c.state.Listen?
    ensures Knocks(c, ListenInput(c, seg, env).conn, ListenInput(c, seg, env).sent)
  {
    hide SendSyn, ReplyReset;
    ResetsOnly(seg);
    SynIs(Child(seg, env), env.now);
  }

  lemma InputKnocks(c: Conn, seg: Segment, env: Env)
    ensures Knocks(c, Input(c, seg, env).conn, Input(c, seg, env).sent)
  {
    hide SegmentInput, Output, ListenInput, ReplyReset, SeqLt;
    ResetsOnly(seg);
    if c.used && c.state.Listen? {
      ListenKnocks(c, seg, env);
    } else if c.used && !c.state.Closed? {
      var got := SegmentInput(c, seg, env);
      SegmentKnocks(c, seg, env);
      OutputKnocks(got.conn, env.now);
      KnocksTwice(c, got.conn, Output(got.conn, env.now).conn, got.sent, Output(got.conn, env.now).sent);
    }
  }

  lemma TickKnocks(c: Conn, now: nat)
    ensures Knocks(c, Tick(c, now).conn, Tick(c, now).sent)
  {
    hide Timeout;
    TimeoutKnocks(c, now);
  }

  lemma TimeoutKnocks(c: Conn, now: nat)
    ensures Knocks(c, Timeout(c, now).conn, Timeout(c, now).sent)
  {
    hide SynTimeout, Probe, Resend, SeqEq;
    if c.state.SynSent? || c.state.SynReceived? {
      SynTimeoutKnocks(c, now);
    } else if DataState(c.state) {
      DataTimeoutKnocks(c, now);
    }
  }

  lemma SynTimeoutKnocks(c: Conn, now: nat)
    requires c.state.SynSent? || c.state.SynReceived?
    ensures Knocks(c, SynTimeout(c, now).conn, SynTimeout(c, now).sent)
  {
    hide SendSyn;
    SynIs(Backoff(c.(retries := c.retries + 1)), now);
  }

  lemma DataTimeoutKnocks(c: Conn, now: nat)
    requires DataState(c.state)
    ensures !Unconnected(Probe(c, now).conn.state) && !Unconnected(Resend(c, now).conn.state)
  {
    hide WindowPeek, Output;
    OutputKnocks(SetNxt(Backoff(c.(retries := c.retries + 1)), c.snd.una).(timer := now + Backoff(c).rto), now);
  }

  lemma ReadKnocks(c: Conn, cap: nat, now: nat)
    ensures Knocks(c, Read(c, cap, now).out.conn, Read(c, cap, now).out.sent)
  {
    hide SeqLt, Diff, WindowPeek, Output;
    OutputKnocks(c.(rcv := c.rcv.(rx := c.rcv.rx[Min(cap, |c.rcv.rx|)..])).(ackNow := true), now);
  }

  lemma WriteKnocks(c: Conn, data: seq<Byte>, now: nat)
    ensures Knocks(c, Write(c, data, now).out.conn, Write(c, data, now).out.sent)
  {
    hide Output;
    if |c.snd.tx| < BUFFER_SIZE {
      OutputKnocks(c.(snd := c.snd.(tx := c.snd.tx + data[..Min(|data|, BUFFER_SIZE - |c.snd.tx|)])), now);
    }
  }

  lemma ShutdownKnocks(c: Conn, readSide: bool, writeSide: bool, now: nat)
    ensures Knocks(c, Shutdown(c, readSide, writeSide, now).out.conn, Shutdown(c, readSide, writeSide, now).out.sent)
  {
    hide Output;
    var r := if readSide then c.(readShut := true, rcv := c.rcv.(rx := [])) else c;
    OutputKnocks(r.(finPending := true), now);
  }

  lemma CloseKnocks(c: Conn, now: nat)
    ensures Knocks(c, Close(c, now).conn, Close(c, now).sent)
  {
    hide Output;
    OutputKnocks(c.(orphan := true).(rcv := c.rcv.(rx := []), finPending := true,
                                     life := if c.state.TimeWait? then c.life else now + ORPHAN_LIFE_MS), now);
  }

  lemma ActKnocks(x: Side, a: Action)
    requires x.started
    ensures Knocks(x.conn, Act(x, a).side.conn, Act(x, a).sent)
  {
    hide Input, Tick, Read, Write, Shutdown, Close;
    match a
    case Open(entropy, at, reachable) =>
    case OpenListen(entropy) =>
    case Deliver(seg, env) => InputKnocks(x.conn, seg, env);
    case Timer(at) => TickKnocks(x.conn, at);
    case DoRead(cap, at) => ReadKnocks(x.conn, cap, at);
    case DoWrite(data, at) => WriteKnocks(x.conn, data, at);
    case DoShutdown(rd, wr, at) => ShutdownKnocks(x.conn, rd, wr, at);
    case DoClose(at) => CloseKnocks(x.conn, at);
    case DoAccept =>
  }

  // ---------- what is known of an unconnected end in every run ----------

  ghost predicate Hand(x: Side, nx: Net) {
    x.started && Unconnected(x.conn.state) ==>
      && x.conn.snd.iss >= 0 && (forall s <- nx :: s.syn || s.rst)
      && (!x.conn.state.SynReceived? ==> x.conn.rcv.nxt == 0)
      && (x.conn.state.SynSent? ==> exists s <- nx :: BareSyn(s, x.conn.snd.iss))
  }

  lemma KnocksHand(x: Side, nx: Net, x': Side, sent: seq<Segment>)
    requires Hand(x, nx) && x.started && Knocks(x.conn, x'.conn, sent)
    ensures Hand(x', nx + Elements(sent))
  {
    if x'.conn.state.SynSent? {
      var s :| s in nx && BareSyn(s, x.conn.snd.iss);
      assert s in nx + Elements(sent);
    }
  }

  lemma ActHand(x: Side, nx: Net, y: Side, ny: Net, a: Action)
    requires Good(x, nx, y, ny) && Hand(x, nx)
    ensures Hand(Act(x, a).side, nx + Elements(Act(x, a).sent))
  {
    hide Good, Hand, Knocks, Act;
    if x.started {
      ActKnocks(x, a);
      KnocksHand(x, nx, Act(x, a).side, Act(x, a).sent);
    } else {
      FirstHand(x, nx, y, ny, a);
    }
  }

  lemma FirstHand(x: Side, nx: Net, y: Side, ny: Net, a: Action)
    requires Good(x, nx, y, ny) && !x.started
    ensures Hand(Act(x, a).side, nx + Elements(Act(x, a).sent))
  {
    ListenerOnlyResets(x, nx);
    hide Good, Input, Tick, Read, Write, Shutdown, Close;
    if a.Open? && a.reachable {
      OpensWithBareSyn(a.entropy, a.at);
      hide Connect;
      var o := Connect(a.entropy, a.at, true);
      assert o.sent[0] in nx + Elements(o.sent);
    } else if a.Open? {
      hide SendSyn;
    }
  }

  lemma MoveHand(p: Pair, m: Move)
    requires PairInv(p) && Hand(p.a, p.na) && Hand(p.b, p.nb)
    ensures var q := Next(p, m); Hand(q.a, q.na) && Hand(q.b, q.nb)
  {
    hide Good, Hand, Act, Inv;
    if m.left {
      ActHand(p.a, p.na, p.b, p.nb, m.action);
    } else {
      Symmetric(p.a, p.na, p.b, p.nb);
      ActHand(p.b, p.nb, p.a, p.na, m.action);
    }
  }

  lemma {:induction false} EveryRunHand(moves: seq<Move>)
    requires Legal(moves)
    ensures var p := Reached(moves); Hand(p.a, p.na) && Hand(p.b, p.nb)
  {
    if moves != [] {
      var last := |moves| - 1;
      LegalUpTo(moves, last);
      EveryRunHand(moves[..last]);
      EveryRunKeeps(moves[..last]);
      hide PairInv, Hand;
      MoveHand(Reached(moves[..last]), moves[last]);
    }
  }

  // ---------- the three steps of the handshake ----------

  // A SYN+ACK that answers a SYN numbered theirs, from a block numbered ours.
  predicate SynAck(seg: Segment, ours: int, theirs: int) {
    seg.syn && seg.ack && !seg.rst && !seg.fin && seg.seqNo == ours && seg.ackNo == theirs + 1 && seg.data == []
  }

  predicate PlainAck(seg: Segment, ours: int, theirs: int) {
    !seg.syn && seg.ack && !seg.rst && !seg.fin && seg.seqNo == ours + 1 && seg.ackNo == theirs + 1 && seg.data == []
  }

  // A listener, an end that has sent a SYN itself, and one that heard this SYN before all answer it.
  lemma SynIsAnswered(c: Conn, seg: Segment, env: Env)
    requires Inv(c) && c.used && Unconnected(c.state) && BareSyn(seg, seg.seqNo)
             && (c.state.SynReceived? ==> c.rcv.nxt == seg.seqNo + 1)
    ensures var o := Input(c, seg, env);
            && o.conn.used && o.conn.state.SynReceived? && o.conn.rcv.nxt == seg.seqNo + 1 && !o.conn.ackNow
            && |o.sent| == 1 && SynAck(o.sent[0], o.conn.snd.iss, seg.seqNo)
            && (o.conn.snd.iss == if c.state.Listen? then env.entropy else c.snd.iss)
  {
    hide SegmentInput, Output, ListenInput, Inv;
    if c.state.Listen? {
      ListenAnswers(c, seg, env);
    } else {
      var d := SegmentInput(c, seg, env).conn;
      SegmentAnswers(c, seg, env);
      OutputAnswers(d, env.now);
      assert SegmentInput(c, seg, env).sent + Output(d, env.now).sent == Output(d, env.now).sent;
    }
  }

  lemma ListenAnswers(c: Conn, seg: Segment, env: Env)
    requires c.state.Listen? && BareSyn(seg, seg.seqNo)
    ensures var o := ListenInput(c, seg, env);
            && o.conn.used && o.conn.state.SynReceived? && o.conn.rcv.nxt == seg.seqNo + 1 && !o.conn.ackNow
            && |o.sent| == 1 && SynAck(o.sent[0], o.conn.snd.iss, seg.seqNo) && o.conn.snd.iss == env.entropy
  {
    hide SendSyn;
    SynIs(Child(seg, env), env.now);
  }

  lemma SegmentAnswers(c: Conn, seg: Segment, env: Env)
    requires Inv(c) && (c.state.SynSent? || (c.state.SynReceived? && c.rcv.nxt == seg.seqNo + 1))
             && BareSyn(seg, seg.seqNo)
    ensures var o := SegmentInput(c, seg, env);
            && o.sent == [] && o.conn.used == c.used && o.conn.state.SynReceived? && o.conn.ackNow
            && o.conn.rcv.nxt == seg.seqNo + 1 && o.conn.snd.iss == c.snd.iss
  {
    hide TextInput, AckAdvance, WindowUpdate, Establish, ResetInput, ReplyReset, SeqLt, SeqLe, SeqEq, Acceptable;
    if c.state.SynReceived? {
      OldSyn(c, seg);
    }
  }

  // The SYN that was already heard lies left of the window.
  lemma OldSyn(c: Conn, seg: Segment)
    requires Inv(c) && c.state.SynReceived? && c.rcv.nxt == seg.seqNo + 1 && BareSyn(seg, seg.seqNo)
    ensures !Acceptable(c, seg)
  {
    hide SeqLt, SeqLe, SeqEq;
    SeqExact(c.rcv.nxt, seg.seqNo);
    SeqExact(c.rcv.nxt, seg.seqNo + 1 - 1);
  }

  lemma OutputAnswers(c: Conn, now: nat)
    requires c.state.SynReceived? && c.ackNow
    ensures var o := Output(c, now);
            && |o.sent| == 1 && SynAck(o.sent[0], c.snd.iss, c.rcv.nxt - 1) && o.conn.state.SynReceived?
               && !o.conn.ackNow
            && o.conn.used == c.used && o.conn.snd.iss == c.snd.iss && o.conn.rcv.nxt == c.rcv.nxt
  {
    hide SendSyn;
    SynIs(c, now);
  }

  // The SYN+ACK establishes the end that is still in SYN_SENT, which acknowledges it.
  lemma SynAckIsAnswered(c: Conn, seg: Segment, env: Env)
    requires Inv(c) && c.used && c.state.SynSent? && SynAck(seg, seg.seqNo, c.snd.iss)
    ensures var o := Input(c, seg, env);
            o.conn.state.Established? && |o.sent| == 1 && PlainAck(o.sent[0], c.snd.iss, seg.seqNo)
  {
    hide SegmentInput, Output, Inv;
    var d := SegmentInput(c, seg, env).conn;
    SynAckEstablishes(c, seg, env);
    QuietOutput(d, env.now);
    assert SegmentInput(c, seg, env).sent + Output(d, env.now).sent == Output(d, env.now).sent;
  }

  lemma SynAckEstablishes(c: Conn, seg: Segment, env: Env)
    requires Inv(c) && c.state.SynSent? && SynAck(seg, seg.seqNo, c.snd.iss)
    ensures var o := SegmentInput(c, seg, env);
            && o.sent == [] && o.conn.used == c.used && o.conn.state.Established? && o.conn.ackNow && Quiet(o.conn)
            && o.conn.snd.nxt == c.snd.iss + 1 && o.conn.rcv.nxt == seg.seqNo + 1
  {
    hide SeqLt, SeqLe, ReplyReset, Fail;
    SeqExact(c.snd.iss, seg.ackNo);
    SeqExact(seg.ackNo, c.snd.nxt);
  }

  // Nothing to send and nothing in flight.
  predicate Quiet(c: Conn) { c.snd.tx == [] && !c.finPending && c.snd.una == c.snd.nxt }

  lemma QuietOutput(c: Conn, now: nat)
    requires c.state.Established? && Quiet(c)
    ensures var o := Output(c, now);
            && o.conn.state.Established?
            && (c.ackNow ==> |o.sent| == 1 && !o.sent[0].syn && o.sent[0].ack && !o.sent[0].rst && !o.sent[0].fin
                             && o.sent[0].data == []
                             && o.sent[0].seqNo == c.snd.nxt && o.sent[0].ackNo == c.rcv.nxt)
  {
    hide WindowPeek, SeqEq, SeqLt;
    assert Pulled(c) == c;
    assert ChunkLength(c) == 0 && SendData(c) == Out(c, []) && SendFin(c) == Out(c, []);
  }

  // The plain acknowledgement establishes the other end.
  lemma AckEstablishes(c: Conn, seg: Segment, env: Env)
    requires Inv(c) && c.used && c.state.SynReceived? && PlainAck(seg, c.rcv.nxt - 1, c.snd.iss)
    ensures Input(c, seg, env).conn.state.Established?
  {
    hide SegmentInput, Output, Inv;
    LastAckTaken(c, seg, env);
    QuietOutput(SegmentInput(c, seg, env).conn, env.now);
  }

  lemma LastAckTaken(c: Conn, seg: Segment, env: Env)
    requires Inv(c) && c.state.SynReceived? && PlainAck(seg, c.rcv.nxt - 1, c.snd.iss)
    ensures var d := SegmentInput(c, seg, env).conn; d.used == c.used && d.state.Established? && Quiet(d)
  {
    hide SeqLt, SeqLe, SeqEq, Acceptable, ReplyReset, TextInput;
    SeqExact(c.snd.una, seg.ackNo);
    SeqExact(seg.ackNo, c.snd.nxt);
    InPlace(c, seg);
    var e := Establish(SetWindow(c, seg), seg, env);
    NoText(e, seg, env.now);
  }

  lemma NoText(c: Conn, seg: Segment, now: nat)
    requires seg.data == [] && !seg.fin
    ensures TextInput(c, seg, now) == Out(c, [])
  {
    hide SeqEq, Overlap;
  }

  // ---------- the handshake of a pair ----------

  predicate BothUp(p: Pair) { p.a.conn.state.Established? && p.b.conn.state.Established? }

  lemma {:induction false} ThreeMoves(p: Pair, m1: Move, m2: Move, m3: Move)
    ensures RunFrom(p, [m1, m2, m3]) == Next(Next(Next(p, m1), m2), m3)
    ensures Enabled(p, m1) && Enabled(Next(p, m1), m2) && Enabled(Next(Next(p, m1), m2), m3) ==>
              LegalFrom(p, [m1, m2, m3])
  {
    hide Next, Enabled;
    var all := [m1, m2, m3];
    assert all[..3] == all && all[..2] == [m1, m2] && all[..1] == [m1] && all[..0] == [] && [m1, m2][..1] == [m1]
        && [m1][..0] == [];
    assert RunFrom(p, []) == p && RunFrom(p, [m1]) == Next(p, m1) && RunFrom(p, [m1, m2]) == Next(Next(p, m1), m2);
    if Enabled(p, m1) && Enabled(Next(p, m1), m2) && Enabled(Next(Next(p, m1), m2), m3) {
      forall i | 0 <= i < 3 ensures Enabled(RunFrom(p, all[..i]), all[i]) { assert i == 0 || i == 1 || i == 2; }
    }
  }

  lemma DeliverIs(p: Pair, left: bool, seg: Segment, env: Env)
    ensures var m := Move(left, Deliver(seg, env));
            var o := Input(One(p, left).conn, seg, env);
            && Next(p, m) == (if left then Pair(After(p.a, o.conn), p.na + Elements(o.sent), p.b, p.nb)
                              else Pair(p.a, p.na, After(p.b, o.conn), p.nb + Elements(o.sent)))
            && (Enabled(p, m) <==> seg in SentBy(p, !left) && Fresh(One(p, left).conn, seg))
  {
    hide Input, Fresh;
  }

  // One end in SYN_SENT and the other unconnected in any way: its SYN, the answer and the acknowledgement.
  lemma HandshakeFrom(p: Pair, left: bool, syn: Segment, env1: Env, env2: Env, env3: Env) returns (more: seq<Move>)
    requires PairInv(p) && Hand(p.a, p.na) && Hand(p.b, p.nb) && One(p, left).started && One(p, !left).started
    requires One(p, left).conn.used && One(p, left).conn.state.SynSent? && One(p, !left).conn.used
             && Unconnected(One(p, !left).conn.state)
    requires syn in SentBy(p, left) && BareSyn(syn, One(p, left).conn.snd.iss)
    ensures LegalFrom(p, more) && BothUp(RunFrom(p, more))
    ensures |more| == 3 && more[0] == Move(!left, Deliver(syn, env1))
    ensures exists synack, ack :: && more[1..] == [Move(left, Deliver(synack, env2)), Move(!left, Deliver(ack, env3))]
                                  && SynAck(synack, synack.seqNo, One(p, left).conn.snd.iss)
                                     && PlainAck(ack, One(p, left).conn.snd.iss, synack.seqNo)
  {
    hide Input, Good, Inv, Hand, LegalFrom, Next, Enabled, Legal, Fresh, After, Elements;
    var x, y := One(p, left), One(p, !left);
    KnownPeer(p, left);
    SynIsAnswered(y.conn, syn, env1);
    var o1 := Input(y.conn, syn, env1);
    var synack := o1.sent[0];
    var m1 := Move(!left, Deliver(syn, env1));
    DeliverIs(p, !left, syn, env1);
    FreshIs(y.conn, syn);
    var p1 := Next(p, m1);
    MoveKeeps(p, m1);
    AfterIs(y, o1);
    assert One(p1, left) == x && One(p1, !left).conn == o1.conn && synack in SentBy(p1, !left);
    SynAckIsAnswered(x.conn, synack, env2);
    var o2 := Input(x.conn, synack, env2);
    var ack := o2.sent[0];
    var m2 := Move(left, Deliver(synack, env2));
    DeliverIs(p1, left, synack, env2);
    FreshIs(x.conn, synack);
    var p2 := Next(p1, m2);
    AfterIs(x, o2);
    assert One(p2, left).conn == o2.conn && One(p2, !left).conn == o1.conn && ack in SentBy(p2, left);
    InvHandshake(o1.conn);
    AckEstablishes(o1.conn, ack, env3);
    var o3 := Input(o1.conn, ack, env3);
    var m3 := Move(!left, Deliver(ack, env3));
    DeliverIs(p2, !left, ack, env3);
    FreshIs(o1.conn, ack);
    AfterIs(One(p2, !left), o3);
    more := [m1, m2, m3];
    ThreeMoves(p, m1, m2, m3);
    assert more[1..] == [m2, m3] && SynAck(synack, synack.seqNo, x.conn.snd.iss)
        && PlainAck(ack, x.conn.snd.iss, synack.seqNo);
  }

  lemma FreshIs(c: Conn, seg: Segment)
    ensures Fresh(c, seg) <==> seg.rst || (c.rcv.nxt - seg.seqNo <= HALF && (seg.ack ==> c.snd.una - seg.ackNo < HALF))
  {
  }

  lemma AfterIs(x: Side, o: Out)
    ensures After(x, o.conn).conn == o.conn && forall s :: s in o.sent ==> s in Elements(o.sent)
  {
  }

  // What the ends of such a pair know of each other.
  lemma KnownPeer(p: Pair, left: bool)
    requires PairInv(p) && Hand(p.a, p.na) && Hand(p.b, p.nb) && One(p, left).started && One(p, !left).started
    requires One(p, left).conn.state.SynSent? && Unconnected(One(p, !left).conn.state)
    ensures var x, y := One(p, left), One(p, !left);
            && Inv(x.conn) && Inv(y.conn) && Handshake(x.conn) && x.conn.rcv.nxt == 0 && x.conn.snd.iss >= 0
               && y.conn.snd.iss >= 0
            && (if y.conn.state.SynReceived? then y.conn.rcv.nxt == x.conn.snd.iss + 1 else y.conn.rcv.nxt == 0)
  {
    hide SenderOk, AllGenuine, Acking;
    InvHandshake(One(p, left).conn);
  }

  lemma {:induction false} ReachedRun(moves: seq<Move>, more: seq<Move>)
    ensures Reached(moves + more) == RunFrom(Reached(moves), more)
  {
    hide Next, Start;
    if more == [] {
      assert moves + more == moves;
    } else {
      var last := |more| - 1;
      var all := moves + more;
      assert all[..|all| - 1] == moves + more[..last] && all[|all| - 1] == more[last];
      ReachedRun(moves, more[..last]);
    }
  }

  lemma LegalRun(moves: seq<Move>, more: seq<Move>)
    requires Legal(moves) && LegalFrom(Reached(moves), more)
    ensures Legal(moves + more)
  {
    hide Reached, RunFrom, Enabled;
    var all := moves + more;
    forall i | 0 <= i < |all| ensures Enabled(Reached(all[..i]), all[i]) {
      if i < |moves| {
        assert all[..i] == moves[..i];
      } else {
        assert all[..i] == moves + more[..i - |moves|];
        ReachedRun(moves, more[..i - |moves|]);
      }
    }
  }

  lemma OpeningPair(e1: nat, e2: nat, at: nat, listener: bool)
    ensures var moves := [Move(true, Open(e1, at, true)),
                          Move(false, if listener then OpenListen(e2) else Open(e2, at, true))];
            var o1, o2 := Connect(e1, at, true), Connect(e2, at, true);
            && Legal(moves) && Reached(moves).a == Side(o1.conn, true, false, [], [])
               && Reached(moves).na == Elements(o1.sent)
            && Reached(moves).b
               == Side(if listener then FreshBlock(e2).(state := Listen) else o2.conn, true, false, [], [])
  {
    hide Connect, FreshBlock;
    var m1, m2 := Move(true, Open(e1, at, true)), Move(false, if listener then OpenListen(e2) else Open(e2, at, true));
    assert [m1, m2][..1] == [m1] && [m1][..0] == [];
    assert Reached([]) == Start();
    assert Reached([m1]) == Next(Start(), m1);
    assert Reached([m1, m2]) == Next(Next(Start(), m1), m2);
    assert {} + Elements(Connect(e1, at, true).sent) == Elements(Connect(e1, at, true).sent);
    forall i | 0 <= i < 2 ensures Enabled(Reached([m1, m2][..i]), [m1, m2][i]) {}
  }

  /**
   The three-way handshake: an active open against a listener, or against another active open
   whose own SYN is not heard first, establishes both ends by a SYN, a SYN+ACK and an ACK,
   whatever the sequence numbers and the clocks.
   */
  lemma HandshakeCompletes(e1: nat, e2: nat, at: nat, listener: bool, env1: Env, env2: Env, env3: Env)
      returns (synack: Segment, ack: Segment)
    ensures var syn := Connect(e1, at, true).sent[0];
            var moves := [Move(true, Open(e1, at, true)),
                          Move(false, if listener then OpenListen(e2) else Open(e2, at, true)),
                          Move(false, Deliver(syn, env1)), Move(true, Deliver(synack, env2)),
                              Move(false, Deliver(ack, env3))];
            Legal(moves) && BothUp(Reached(moves)) && SynAck(synack, synack.seqNo, e1)
                && PlainAck(ack, e1, synack.seqNo)
  {
    hide Connect, FreshBlock, Input, Legal, LegalFrom, Reached, RunFrom, PairInv, Hand, SynAck, PlainAck;
    var first := [Move(true, Open(e1, at, true)), Move(false, if listener then OpenListen(e2) else Open(e2, at, true))];
    var p := Reached(first);
    OpeningPair(e1, e2, at, listener);
    OpensWithBareSyn(e1, at);
    OpensWithBareSyn(e2, at);
    ListensLive(e2);
    EveryRunKeeps(first);
    EveryRunHand(first);
    var syn := Connect(e1, at, true).sent[0];
    assert syn in p.na;
    var more := HandshakeFrom(p, true, syn, env1, env2, env3);
    synack, ack :| more[1..] == [Move(true, Deliver(synack, env2)), Move(false, Deliver(ack, env3))]
        && SynAck(synack, synack.seqNo, e1) && PlainAck(ack, e1, synack.seqNo);
    LegalRun(first, more);
    ReachedRun(first, more);
    assert more == [more[0]] + more[1..];
    assert first
        + more == [first[0], first[1], Move(false, Deliver(syn, env1)), Move(true, Deliver(synack, env2)),
                   Move(false, Deliver(ack, env3))];
  }

  lemma ListensLive(e: nat)
    ensures var c := FreshBlock(e).(state := Listen); c.used && c.state.Listen?
  {
  }

  // ---------- pairs that cannot be established ----------

  // An unconnected end whose block was given back.
  ghost predicate Deaf(x: Side) { x.started && !x.conn.used && (Unconnected(x.conn.state) || x.conn.state.Closed?) }

  lemma ActDeaf(x: Side, a: Action)
    requires Deaf(x)
    ensures Deaf(Act(x, a).side)
  {
    hide Output, SegmentInput, ListenInput, ReplyReset;
    if a.DoRead? && x.conn.state.Closed? { ClosedRead(x.conn, a.cap, a.at); }
    if a.DoWrite? && x.conn.state.Closed? { ClosedWrite(x.conn, a.data, a.at); }
  }

  lemma ClosedRead(c: Conn, cap: nat, now: nat)
    requires c.state.Closed?
    ensures Read(c, cap, now).out.conn.state.Closed? && Read(c, cap, now).out.conn.used == c.used
  {
    hide WindowPeek, SeqLt, Diff, Output;
    ClosedOutput(c.(rcv := c.rcv.(rx := c.rcv.rx[Min(cap, |c.rcv.rx|)..]), ackNow := true), now);
  }

  lemma ClosedWrite(c: Conn, data: seq<Byte>, now: nat)
    requires c.state.Closed?
    ensures Write(c, data, now).out.conn.state.Closed? && Write(c, data, now).out.conn.used == c.used
  {
    hide Output;
  }

  // Two listeners, open or closed again, have nothing to say to each other.
  predicate Passive(x: Side) { x.started && (x.conn.state.Listen? || x.conn.state.Closed?) }

  ghost predicate Listeners(p: Pair) {
    Passive(p.a) && Passive(p.b) && (forall s <- p.na :: s.rst) && (forall s <- p.nb :: s.rst)
  }

  lemma ActListens(x: Side, a: Action)
    requires Passive(x) && (a.Deliver? ==> a.seg.rst)
    ensures Passive(Act(x, a).side) && forall s <- Act(x, a).sent :: s.rst
  {
    hide Input, Tick, Read, Write, Shutdown, Close;
    match a
    case Open(entropy, at, reachable) =>
    case OpenListen(entropy) =>
    case Deliver(seg, env) => PassiveInput(x.conn, seg, env);
    case Timer(at) => PassiveTick(x.conn, at);
    case DoRead(cap, at) => PassiveRead(x.conn, cap, at);
    case DoWrite(data, at) => PassiveWrite(x.conn, data, at);
    case DoShutdown(rd, wr, at) => PassiveShut(x.conn, rd, wr, at);
    case DoClose(at) => PassiveShut(x.conn, true, true, at);
    case DoAccept =>
  }

  lemma PassiveInput(c: Conn, seg: Segment, env: Env)
    requires (c.state.Listen? || c.state.Closed?) && seg.rst
    ensures Input(c, seg, env) == Out(c, [])
  {
    hide SegmentInput, Output;
  }

  lemma PassiveTick(c: Conn, now: nat)
    requires c.state.Listen? || c.state.Closed?
    ensures var o := Tick(c, now); (o.conn.state.Listen? || o.conn.state.Closed?) && o.sent == []
  {
    hide Timeout, Finish;
    FinishCloses(c);
    PassiveTimeout(c, now);
  }

  lemma PassiveRead(c: Conn, cap: nat, now: nat)
    requires c.state.Listen? || c.state.Closed?
    ensures var o := Read(c, cap, now).out; o.conn.state == c.state && o.sent == []
  {
    hide WindowPeek, SeqLt, Diff, Output;
    if c.state.Closed? { HalfOpenRead(c, cap, now); }
  }

  lemma PassiveWrite(c: Conn, data: seq<Byte>, now: nat)
    requires c.state.Listen? || c.state.Closed?
    ensures var o := Write(c, data, now).out; o.conn.state == c.state && o.sent == []
  {
    hide Output;
  }

  lemma PassiveShut(c: Conn, rd: bool, wr: bool, now: nat)
    requires c.state.Listen? || c.state.Closed?
    ensures var o := Shutdown(c, rd, wr, now).out; o.conn.state == c.state && o.sent == []
    ensures Close(c, now).conn.state == c.state && Close(c, now).sent == []
  {
    hide Output, Abort;
  }

  lemma PassiveTimeout(c: Conn, now: nat)
    requires c.state.Listen? || c.state.Closed?
    ensures Timeout(c, now) == Out(c.(timer := 0), [])
  {
    hide SynTimeout, Probe, Resend, SeqEq;
  }

  ghost predicate Hopeless(p: Pair) { Deaf(p.a) || Deaf(p.b) || Listeners(p) || Stalled(p) }

  lemma {:induction false} HopelessForever(p: Pair, more: seq<Move>)
    requires Hopeless(p) && LegalFrom(p, more)
    ensures Hopeless(RunFrom(p, more)) && !BothUp(RunFrom(p, more))
  {
    hide Hopeless, LegalFrom, RunFrom, Next, Enabled, BothUp;
    if more == [] {
      RunStart(p);
    } else {
      var last := |more| - 1;
      LastMove(p, more);
      HopelessForever(p, more[..last]);
      HopelessStep(RunFrom(p, more[..last]), more[last]);
    }
    HopelessNow(RunFrom(p, more));
  }

  lemma HopelessNow(p: Pair)
    requires Hopeless(p)
    ensures !BothUp(p)
  {
  }

  lemma HopelessStep(p: Pair, m: Move)
    requires Hopeless(p) && Enabled(p, m)
    ensures Hopeless(Next(p, m))
  {
    hide Act;
    var x := One(p, m.left);
    if Deaf(x) {
      ActDeaf(x, m.action);
    } else if Listeners(p) {
      ActListens(x, m.action);
    } else if Stalled(p) {
      StalledStep(p, m);
    }
  }

  /**
   Which half-open pairs can still be established.  In every run, with both ends in LISTEN,
   SYN_SENT or SYN_RECEIVED, some continuation establishes both exactly when both blocks are
   still in use and the ends are neither both in SYN_RECEIVED nor both listening.
   */
  lemma OpenCompletesIff(moves: seq<Move>)
    requires Legal(moves) && Unconnected(Reached(moves).a.conn.state) && Unconnected(Reached(moves).b.conn.state)
    ensures var p := Reached(moves);
            (exists more :: LegalFrom(p, more) && BothUp(RunFrom(p, more))) <==>
              && p.a.conn.used && p.b.conn.used
              && !(p.a.conn.state.SynReceived? && p.b.conn.state.SynReceived?)
                 && !(p.a.conn.state.Listen? && p.b.conn.state.Listen?)
  {
    hide LegalFrom, RunFrom, Legal, Reached, Deaf, Listeners, Stalled, PairInv, Hand, BothUp;
    var p := Reached(moves);
    EveryRunKeeps(moves);
    EveryRunHand(moves);
    Situations(p);
    if exists more :: LegalFrom(p, more) && BothUp(RunFrom(p, more)) {
      var more :| LegalFrom(p, more) && BothUp(RunFrom(p, more));
      if Hopeless(p) { HopelessForever(p, more); }
    } else if p.a.conn.used && p.b.conn.used && (p.a.conn.state.SynSent? || p.b.conn.state.SynSent?) {
      var left := p.a.conn.state.SynSent?;
      var env := Env(0, 0, None);
      var syn := OwnSyn(One(p, left), SentBy(p, left));
      var more := HandshakeFrom(p, left, syn, env, env, env);
    }
  }

  lemma OwnSyn(x: Side, nx: Net) returns (syn: Segment)
    requires Hand(x, nx) && x.started && x.conn.state.SynSent?
    ensures syn in nx && BareSyn(syn, x.conn.snd.iss)
  {
    syn :| syn in nx && BareSyn(syn, x.conn.snd.iss);
  }

  // The cases: a block given back, two listeners, crossed SYNs, or an end that still waits with its SYN out.
  lemma Situations(p: Pair)
    requires PairInv(p) && Hand(p.a, p.na) && Hand(p.b, p.nb) && Unconnected(p.a.conn.state)
             && Unconnected(p.b.conn.state)
    ensures p.a.started && p.b.started && (!p.a.conn.used ==> Deaf(p.a)) && (!p.b.conn.used ==> Deaf(p.b))
    ensures p.a.conn.state.Listen? && p.b.conn.state.Listen? ==> Listeners(p)
    ensures p.a.conn.state.SynReceived? && p.b.conn.state.SynReceived? ==> Stalled(p)
    ensures !(p.a.conn.state.SynReceived? && p.b.conn.state.Listen?)
            && !(p.a.conn.state.Listen? && p.b.conn.state.SynReceived?)
  {
    hide Core, Acking;
    if p.a.conn.state.Listen? { ListenerOnlyResets(p.a, p.na); }
    if p.b.conn.state.Listen? { ListenerOnlyResets(p.b, p.nb); }
  }
}
