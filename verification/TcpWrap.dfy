/**
 The 32-bit machine.  Two blocks that agree modulo 2^32 behave alike, so the functions of
 TcpSpec describe the source although their sequence numbers are not reduced; and the
 invariant holds in every run of the 32-bit block against an arbitrary network.
 */
module TcpWrap {
  import opened TcpSpec
  import opened TcpInvariant

  // ---------- agreement modulo 2^32 ----------

  ghost predicate CongSender(s: Sender, t: Sender) {
    && Wrap(s.iss) == Wrap(t.iss) && Wrap(s.una) == Wrap(t.una) && Wrap(s.nxt) == Wrap(t.nxt)
    && Wrap(s.max) == Wrap(t.max) && s.wnd == t.wnd && Wrap(s.wl1) == Wrap(t.wl1)
    && Wrap(s.wl2) == Wrap(t.wl2) && s.txHead == t.txHead && s.tx == t.tx
  }

  ghost predicate CongReceiver(r: Receiver, t: Receiver) {
    Wrap(r.irs) == Wrap(t.irs) && Wrap(r.nxt) == Wrap(t.nxt) && Wrap(r.adv) == Wrap(t.adv) && r.rx == t.rx
  }

  ghost predicate Cong(c: Conn, d: Conn) {
    && SameControl(c, d) && d.state == c.state && d.ackNow == c.ackNow && d.timer == c.timer
    && CongSender(c.snd, d.snd) && CongReceiver(c.rcv, d.rcv)
  }

  ghost predicate CongSegment(x: Segment, y: Segment) {
    && Wrap(x.seqNo) == Wrap(y.seqNo) && Wrap(x.ackNo) == Wrap(y.ackNo)
    && x.syn == y.syn && x.ack == y.ack && x.fin == y.fin && x.rst == y.rst
    && x.window == y.window && x.mss == y.mss && x.data == y.data
  }

  ghost predicate CongSent(xs: seq<Segment>, ys: seq<Segment>) {
    |xs| == |ys| && forall i :: 0 <= i < |xs| ==> CongSegment(xs[i], ys[i])
  }

  ghost predicate CongOut(o: Out, p: Out) { Cong(o.conn, p.conn) && CongSent(o.sent, p.sent) }

  lemma WrapAdd(a: int, b: int, n: int)
    requires Wrap(a) == Wrap(b)
    ensures Wrap(a + n) == Wrap(b + n)
  {
  }

  lemma CongConcat(xs: seq<Segment>, ys: seq<Segment>, xs': seq<Segment>, ys': seq<Segment>)
    requires CongSent(xs, xs') && CongSent(ys, ys')
    ensures CongSent(xs + ys, xs' + ys')
  {
  }

  // ---------- output side ----------

  lemma CongWindow(c: Conn, d: Conn)
    requires Cong(c, d)
    ensures WindowPeek(c) == WindowPeek(d)
  {
    hide Wrap, Before32;
  }

  lemma CongEmit(c: Conn, d: Conn, x: int, y: int, syn: bool, ack: bool, fin: bool, data: seq<Byte>)
    requires Cong(c, d) && Wrap(x) == Wrap(y)
    ensures CongOut(Emit(c, x, syn, ack, fin, data), Emit(d, y, syn, ack, fin, data))
  {
    hide Wrap, WindowPeek;
    CongWindow(c, d);
    WrapAdd(c.rcv.nxt, d.rcv.nxt, WindowPeek(c));
  }

  lemma CongAdvance(c: Conn, d: Conn, x: int, y: int)
    requires Cong(c, d) && Wrap(x) == Wrap(y)
    ensures Cong(NoteSent(SetNxt(c, x)), NoteSent(SetNxt(d, y)))
  {
    hide Wrap, Before32;
  }

  lemma CongSendSyn(c: Conn, d: Conn, now: nat)
    requires Cong(c, d)
    ensures CongOut(SendSyn(c, now), SendSyn(d, now))
  {
    hide Wrap, Emit, NoteSent;
    CongEmit(c, d, c.snd.iss, d.snd.iss, true, c.state.SynReceived?, false, []);
    WrapAdd(c.snd.iss, d.snd.iss, 1);
    CongAdvance(Emit(c, c.snd.iss, true, c.state.SynReceived?, false, []).conn,
                Emit(d, d.snd.iss, true, c.state.SynReceived?, false, []).conn, c.snd.iss + 1, d.snd.iss + 1);
  }

  lemma CongChunk(c: Conn, d: Conn)
    requires Cong(c, d)
    ensures ChunkLength(c) == ChunkLength(d)
    ensures ChunkLength(c) > 0 ==> CongOut(SendChunk(c), SendChunk(d))
  {
    assert ChunkLength(c) == ChunkLength(d) by { hide Wrap; }
    if ChunkLength(c) > 0 { CongSendChunk(c, d); }
  }

  lemma CongSendChunk(c: Conn, d: Conn)
    requires Cong(c, d) && ChunkLength(c) == ChunkLength(d) > 0
    ensures CongOut(SendChunk(c), SendChunk(d))
  {
    hide Wrap, Emit, NoteSent, ChunkLength, SetNxt;
    var at, len := Diff(c.snd.nxt, c.snd.una), ChunkLength(c);
    CongEmit(c, d, c.snd.nxt, d.snd.nxt, false, true, false, c.snd.tx[at..at + len]);
    WrapAdd(c.snd.nxt, d.snd.nxt, len);
    CongAdvance(Emit(c, c.snd.nxt, false, true, false, c.snd.tx[at..at + len]).conn,
                Emit(d, d.snd.nxt, false, true, false, c.snd.tx[at..at + len]).conn,
                c.snd.nxt + len, d.snd.nxt + len);
  }

  lemma {:induction false} CongSendData(c: Conn, d: Conn)
    requires Cong(c, d)
    ensures CongOut(SendData(c), SendData(d))
    decreases Unsent(c)
  {
    hide Wrap, ChunkLength, SendChunk, Diff, CongSegment;
    CongChunk(c, d);
    if ChunkLength(c) > 0 && |c.snd.tx| <= BUFFER_SIZE {
      ChunkShrinks(c);
      CongSendData(SendChunk(c).conn, SendChunk(d).conn);
      CongConcat(SendChunk(c).sent, SendData(SendChunk(c).conn).sent,
                 SendChunk(d).sent, SendData(SendChunk(d).conn).sent);
    }
  }

  lemma CongSendFin(c: Conn, d: Conn)
    requires Cong(c, d)
    ensures CongOut(SendFin(c), SendFin(d))
  {
    hide Wrap, Emit, NoteSent, SetNxt;
    WrapAdd(c.snd.una, d.snd.una, |c.snd.tx|);
    CongEmit(c, d, c.snd.nxt, d.snd.nxt, false, true, true, []);
    WrapAdd(c.snd.nxt, d.snd.nxt, 1);
    CongAdvance(Emit(c, c.snd.nxt, false, true, true, []).conn,
                Emit(d, d.snd.nxt, false, true, true, []).conn, c.snd.nxt + 1, d.snd.nxt + 1);
  }

  lemma CongSendAck(c: Conn, d: Conn)
    requires Cong(c, d)
    ensures CongOut(SendAck(c), SendAck(d))
  {
    hide Wrap, Emit;
    CongEmit(c, d, c.snd.nxt, d.snd.nxt, false, true, false, []);
  }

  lemma CongOutput(c: Conn, d: Conn, now: nat)
    requires Cong(c, d)
    ensures CongOut(Output(c, now), Output(d, now))
  {
    hide Wrap, SendSyn, SendAck, SendData, SendFin, CongSegment;
    if c.state.SynReceived? {
      CongSendSyn(c, d, now);
    } else if c.state.FinWait2? || c.state.TimeWait? {
      CongSendAck(c, d);
    } else if DataState(c.state) {
      CongOutputData(c, d, now);
    }
  }

  lemma CongOutputData(c: Conn, d: Conn, now: nat)
    requires Cong(c, d) && DataState(c.state)
    ensures CongOut(Output(c, now), Output(d, now))
  {
    hide Wrap, SendAck, SendData, SendFin, CongSegment, Output, ArmTimer;
    OutputUnfolds(c, now);
    OutputUnfolds(d, now);
    var data, data' := SendData(Pulled(c)), SendData(Pulled(d));
    CongSendData(Pulled(c), Pulled(d));
    var fin, fin' := SendFin(data.conn), SendFin(data'.conn);
    CongSendFin(data.conn, data'.conn);
    var ack, ack' := SendAck(fin.conn), SendAck(fin'.conn);
    CongSendAck(fin.conn, fin'.conn);
    CongConcat(data.sent, fin.sent, data'.sent, fin'.sent);
    CongConcat(data.sent + fin.sent, ack.sent, data'.sent + fin'.sent, ack'.sent);
    CongArmTimer(ack.conn, ack'.conn, now);
  }

  lemma CongArmTimer(c: Conn, d: Conn, now: nat)
    requires Cong(c, d)
    ensures Cong(ArmTimer(c, now), ArmTimer(d, now))
  {
    hide Wrap;
  }

  // ---------- timers ----------

  lemma CongFail(c: Conn, d: Conn, error: int)
    requires Cong(c, d)
    ensures Cong(Fail(c, error), Fail(d, error)) && Cong(Finish(c), Finish(d))
  {
    hide Wrap;
  }

  lemma CongAbort(c: Conn, d: Conn, error: int)
    requires Cong(c, d)
    ensures CongOut(Abort(c, error), Abort(d, error))
  {
    hide Wrap, Fail;
    CongFail(c, d, error);
  }

  // Blocks congruent to each other agree on everything that is not a sequence number.
  lemma CongFacts(c: Conn, d: Conn)
    requires Cong(c, d)
    ensures d.state == c.state && d.used == c.used && d.retries == c.retries && d.error == c.error && d.rto == c.rto
            && d.life == c.life
    ensures d.finPending == c.finPending && d.peerFin == c.peerFin && d.readShut == c.readShut && d.ackNow == c.ackNow
    ensures d.snd.wnd == c.snd.wnd && d.snd.tx == c.snd.tx && d.rcv.rx == c.rcv.rx
    ensures SeqEq(d.snd.una, d.snd.nxt) == SeqEq(c.snd.una, c.snd.nxt)
  {
  }

  lemma CongQuiet(c: Conn, d: Conn, timer: nat, error: int)
    requires Cong(c, d)
    ensures Cong(c.(timer := timer), d.(timer := timer)) && Cong(c.(error := error), d.(error := error))
    ensures CongSent([], [])
  {
    hide Wrap, CongSender, CongReceiver;
  }

  lemma CongOwed(c: Conn, d: Conn, owed: bool, life: nat)
    requires Cong(c, d)
    ensures Cong(c.(ackNow := owed), d.(ackNow := owed))
            && Cong(c.(ackNow := owed, life := life), d.(ackNow := owed, life := life))
  {
    hide Wrap, CongSender, CongReceiver;
  }

  lemma CongRetry(c: Conn, d: Conn)
    requires Cong(c, d)
    ensures var r, r' := c.(retries := c.retries + 1), d.(retries := d.retries + 1);
            Cong(r, r') && Cong(Backoff(r), Backoff(r'))
  {
    hide Wrap, CongSender, CongReceiver;
  }

  lemma CongBack(c: Conn, d: Conn, timer: nat)
    requires Cong(c, d)
    ensures Cong(SetNxt(c, c.snd.una).(timer := timer), SetNxt(d, d.snd.una).(timer := timer))
  {
    hide Wrap;
  }

  lemma BackoffUna(c: Conn)
    ensures Backoff(c).snd == c.snd
  {
  }

  lemma CongTimeout(c: Conn, d: Conn, now: nat)
    requires Cong(c, d)
    ensures CongOut(Timeout(c, now), Timeout(d, now))
  {
    hide Cong, SynTimeout, Probe, Resend, CongSent, SeqEq;
    CongFacts(c, d);
    CongQuiet(c, d, 0, 0);
    if c.state.SynSent? || c.state.SynReceived? {
      CongSynTimeout(c, d, now);
    } else if DataState(c.state) && c.snd.wnd == 0 && |c.snd.tx| > 0 {
      CongProbe(c, d, now);
    } else if DataState(c.state) && !SeqEq(c.snd.una, c.snd.nxt) {
      CongResend(c, d, now);
    }
  }

  lemma CongSynTimeout(c: Conn, d: Conn, now: nat)
    requires Cong(c, d)
    ensures CongOut(SynTimeout(c, now), SynTimeout(d, now))
  {
    hide Cong, CongSent, SendSyn, Fail, Backoff;
    var r, r' := c.(retries := c.retries + 1), d.(retries := d.retries + 1);
    CongFacts(c, d);
    CongRetry(c, d);
    CongQuiet(c, d, 0, 0);
    CongFail(r, r', ETIMEDOUT);
    CongSendSyn(Backoff(r), Backoff(r'), now);
  }

  lemma CongProbe(c: Conn, d: Conn, now: nat)
    requires Cong(c, d)
    ensures CongOut(Probe(c, now), Probe(d, now))
  {
    hide Wrap, Emit, CongSegment;
    WrapAdd(c.snd.una, d.snd.una, -1);
    CongEmit(Backoff(c), Backoff(d), c.snd.una - 1, d.snd.una - 1, false, true, false, []);
  }

  lemma CongResend(c: Conn, d: Conn, now: nat)
    requires Cong(c, d)
    ensures CongOut(Resend(c, now), Resend(d, now))
  {
    hide Cong, CongSent, Abort, Output, Backoff, SetNxt;
    var r, r' := c.(retries := c.retries + 1), d.(retries := d.retries + 1);
    CongFacts(c, d);
    CongRetry(c, d);
    CongFacts(Backoff(r), Backoff(r'));
    BackoffUna(r);
    BackoffUna(r');
    if r.retries > DATA_RETRIES {
      CongAbort(r, r', ETIMEDOUT);
    } else {
      CongBack(Backoff(r), Backoff(r'), now + Backoff(r).rto);
      CongOutput(SetNxt(Backoff(r), r.snd.una).(timer := now + Backoff(r).rto),
                 SetNxt(Backoff(r'), r'.snd.una).(timer := now + Backoff(r').rto), now);
    }
  }

  lemma CongTick(c: Conn, d: Conn, now: nat)
    requires Cong(c, d)
    ensures CongOut(Tick(c, now), Tick(d, now))
  {
    hide Wrap, Timeout, Finish, CongSegment;
    CongTimeout(c, d, now);
    CongFail(c, d, 0);
  }

  // ---------- input side ----------

  lemma CongAcked(c: Conn, d: Conn, x: int, y: int, env: Env)
    requires Cong(c, d) && Wrap(x) == Wrap(y)
    ensures FinAcked(c, x) == FinAcked(d, y) && AckedBytes(c, x) == AckedBytes(d, y)
    ensures Cong(AckArmed(c, x, env), AckArmed(d, y, env))
  {
    hide Wrap, Before32;
    WrapAdd(c.snd.una, d.snd.una, |c.snd.tx|);
  }

  lemma CongAckAdvance(c: Conn, d: Conn, x: int, y: int, env: Env)
    requires Cong(c, d) && Wrap(x) == Wrap(y)
    ensures Cong(AckAdvance(c, x, env), AckAdvance(d, y, env))
  {
    hide Wrap, FinAcked, AckArmed, FinAckedInput;
    CongAcked(c, d, x, y, env);
    CongFinAcked(AckArmed(c, x, env), AckArmed(d, y, env), env.now);
  }

  lemma CongFinAcked(c: Conn, d: Conn, now: nat)
    requires Cong(c, d)
    ensures Cong(FinAckedInput(c, now), FinAckedInput(d, now))
  {
    hide Wrap, Finish;
    if c.state.LastAck? {
      CongFail(c, d, 0);
    } else if c.state.Closing? {
      assert Cong(EnterTimeWait(c, now), EnterTimeWait(d, now));
    }
  }

  lemma CongReply(x: Segment, y: Segment)
    requires CongSegment(x, y)
    ensures CongSent(ReplyReset(x), ReplyReset(y))
  {
    hide Wrap;
    WrapAdd(x.seqNo, y.seqNo, SegmentLength(x));
  }

  lemma CongHeard(c: Conn, d: Conn, x: Segment, y: Segment, env: Env)
    requires Cong(c, d) && CongSegment(x, y)
    ensures Cong(SetWindow(c, x), SetWindow(d, y)) && Cong(WindowUpdate(c, x), WindowUpdate(d, y))
    ensures Cong(Establish(SetWindow(c, x), x, env), Establish(SetWindow(d, y), y, env))
  {
    hide Cong, CongSegment, SetWindow, WindowUpdate, Establish;
    CongSetWindow(c, d, x, y);
    CongWindowUpdate(c, d, x, y);
    CongEstablish(SetWindow(c, x), SetWindow(d, y), x, y, env);
  }

  lemma CongSetWindow(c: Conn, d: Conn, x: Segment, y: Segment)
    requires Cong(c, d) && CongSegment(x, y)
    ensures Cong(SetWindow(c, x), SetWindow(d, y))
  {
    hide Wrap;
  }

  lemma CongWindowUpdate(c: Conn, d: Conn, x: Segment, y: Segment)
    requires Cong(c, d) && CongSegment(x, y)
    ensures Cong(WindowUpdate(c, x), WindowUpdate(d, y))
  {
    hide Wrap, Before32;
  }

  lemma CongSynSent(c: Conn, d: Conn, x: Segment, y: Segment, env: Env)
    requires Cong(c, d) && CongSegment(x, y)
    ensures CongOut(SynSentInput(c, x, env), SynSentInput(d, y, env))
  {
    hide Wrap, Before32, Fail, ReplyReset, Establish;
    var ackOk := SeqLt(c.snd.iss, x.ackNo) && SeqLe(x.ackNo, c.snd.nxt);
    if x.ack && !ackOk {
      CongReply(x, y);
    } else if x.rst {
      CongFail(c, d, ECONNREFUSED);
    } else if x.syn {
      CongSynHeard(c, d, x, y, env);
    }
  }

  lemma CongSynHeard(c: Conn, d: Conn, x: Segment, y: Segment, env: Env)
    requires Cong(c, d) && CongSegment(x, y) && x.syn && !x.rst
    requires x.ack ==> SeqLt(c.snd.iss, x.ackNo) && SeqLe(x.ackNo, c.snd.nxt)
    ensures CongOut(SynSentInput(c, x, env), SynSentInput(d, y, env))
  {
    hide Wrap, Before32, Fail, ReplyReset, Establish, SynHeard;
    CongSynHeardBlock(c, d, x, y);
    CongEstablish(SynHeard(c, x), SynHeard(d, y), x, y, env);
  }

  lemma CongSynHeardBlock(c: Conn, d: Conn, x: Segment, y: Segment)
    requires Cong(c, d) && CongSegment(x, y)
    ensures Cong(SynHeard(c, x), SynHeard(d, y))
  {
    hide Wrap;
    WrapAdd(x.seqNo, y.seqNo, 1);
  }

  lemma CongEstablish(c: Conn, d: Conn, x: Segment, y: Segment, env: Env)
    requires Cong(c, d) && CongSegment(x, y)
    ensures Cong(Establish(c, x, env), Establish(d, y, env))
  {
    hide Wrap;
  }

  lemma CongReset(c: Conn, d: Conn, x: Segment, y: Segment)
    requires Cong(c, d) && CongSegment(x, y)
    ensures Cong(ResetInput(c, x), ResetInput(d, y))
  {
    hide Wrap, Fail, Finish;
    CongFail(c, d, ECONNREFUSED);
    CongFail(c, d, ECONNRESET);
  }

  lemma CongText(c: Conn, d: Conn, x: Segment, y: Segment)
    requires Cong(c, d) && CongSegment(x, y)
    ensures CongOut(AcceptText(c, x), AcceptText(d, y))
  {
    assert Overlap(c, x) == Overlap(d, y) by { hide Wrap, Before32; }
    CongAcceptText(c, d, x, y);
  }

  lemma CongTake(c: Conn, d: Conn, bytes: seq<Byte>, n: nat)
    requires Cong(c, d)
    ensures Cong(Taking(c, bytes, n), Taking(d, bytes, n)) && Cong(Discarding(c, n), Discarding(d, n))
  {
    hide Wrap;
    WrapAdd(c.rcv.nxt, d.rcv.nxt, n);
  }

  function RoomIn(c: Conn): nat { if |c.rcv.rx| < BUFFER_SIZE then BUFFER_SIZE - |c.rcv.rx| else 0 }

  lemma AcceptTextIs(c: Conn, seg: Segment)
    ensures var data, o := seg.data[Overlap(c, seg)..], AcceptText(c, seg);
            if |data| == 0 then o == Out(c, [])
            else if !TakesData(c.state)
                 || !SeqEq(seg.seqNo + Overlap(c, seg), c.rcv.nxt) then o == Out(c.(ackNow := true), [])
            else if c.orphan then o == Abort(c, ECONNRESET)
            else if c.readShut then o == Out(Discarding(c, |data|), [])
            else o == Out(Taking(c, data[..Min(|data|, RoomIn(c))], Min(|data|, RoomIn(c))), [])
  {
    hide SeqEq, Overlap, Abort;
  }

  lemma CongInPlace(c: Conn, d: Conn, x: Segment, y: Segment, n: nat)
    requires Cong(c, d) && CongSegment(x, y)
    ensures SeqEq(x.seqNo + n, c.rcv.nxt) == SeqEq(y.seqNo + n, d.rcv.nxt) && d.orphan == c.orphan && x.data == y.data
  {
    WrapAdd(x.seqNo, y.seqNo, n);
    hide Wrap;
  }

  lemma CongAcceptText(c: Conn, d: Conn, x: Segment, y: Segment)
    requires Cong(c, d) && CongSegment(x, y) && Overlap(c, x) == Overlap(d, y)
    ensures CongOut(AcceptText(c, x), AcceptText(d, y))
  {
    hide *;
    CongFacts(c, d);
    CongInPlace(c, d, x, y, Overlap(c, x));
    AcceptTextIs(c, x);
    AcceptTextIs(d, y);
    CongQuiet(c, d, 0, 0);
    CongOwed(c, d, true, 0);
    CongAbort(c, d, ECONNRESET);
    var data := x.data[Overlap(c, x)..];
    RoomSame(c, d);
    MinFits(|data|, RoomIn(c));
    CongTake(c, d, [], |data|);
    CongTake(c, d, data[..Min(|data|, RoomIn(c))], Min(|data|, RoomIn(c)));
    CongOutFrom(AcceptText(c, x), AcceptText(d, y));
  }

  lemma MinFits(a: nat, b: nat)
    ensures 0 <= Min(a, b) <= a
  {
  }

  lemma RoomSame(c: Conn, d: Conn)
    requires c.rcv.rx == d.rcv.rx
    ensures RoomIn(c) == RoomIn(d)
  {
  }

  lemma CongOutFrom(o: Out, p: Out)
    ensures Cong(o.conn, p.conn) && CongSent(o.sent, p.sent) ==> CongOut(o, p)
  {
  }

  lemma CongTextInput(c: Conn, d: Conn, x: Segment, y: Segment, now: nat)
    requires Cong(c, d) && CongSegment(x, y)
    ensures CongOut(TextInput(c, x, now), TextInput(d, y, now))
  {
    hide Wrap, AcceptText;
    CongText(c, d, x, y);
    WrapAdd(x.seqNo, y.seqNo, |x.data|);
    WrapAdd(AcceptText(c, x).conn.rcv.nxt, AcceptText(d, y).conn.rcv.nxt, 1);
  }

  lemma CongAcceptable(c: Conn, d: Conn, x: Segment, y: Segment)
    requires Cong(c, d) && CongSegment(x, y)
    ensures Acceptable(c, x) == Acceptable(d, y)
  {
    hide Wrap, Before32;
    WrapAdd(x.seqNo, y.seqNo, SegmentLength(x) - 1);
    WrapAdd(c.rcv.nxt, d.rcv.nxt, BUFFER_SIZE - |c.rcv.rx|);
  }

  lemma CongSegmentInput(c: Conn, d: Conn, x: Segment, y: Segment, env: Env)
    requires Cong(c, d) && CongSegment(x, y)
    ensures CongOut(SegmentInput(c, x, env), SegmentInput(d, y, env))
  {
    hide SegmentInput, SynSentInput, Acceptable;
    CongAcceptable(c, d, x, y);
    if c.state.SynSent? {
      CongSynSent(c, d, x, y, env);
      SynSentDispatch(c, x, env);
      SynSentDispatch(d, y, env);
    } else if !(Acceptable(c, x) && !x.rst && !x.syn && x.ack) {
      CongUnaccepted(c, d, x, y, env);
    } else if c.state.SynReceived? {
      CongSynReceived(c, d, x, y, env);
    } else {
      CongAcknowledged(c, d, x, y, env);
    }
  }

  // What becomes of a segment that carries no acceptable acknowledgement.
  lemma UnacceptedIs(c: Conn, seg: Segment, env: Env)
    requires !c.state.SynSent? && !(Acceptable(c, seg) && !seg.rst && !seg.syn && seg.ack)
    ensures SegmentInput(c, seg, env) ==
            Out(if !Acceptable(c, seg)
                then c.(ackNow := c.ackNow
                        || !seg.rst, life := if c.state.TimeWait? && seg.fin then env.now + TIME_WAIT_MS else c.life)
                else if seg.rst then ResetInput(c, seg) else if seg.syn then c.(ackNow := true) else c, [])
  {
    hide Acceptable, TextInput, AckAdvance, Establish, SynSentInput, ResetInput, WindowUpdate, SeqLt, SeqLe, ReplyReset;
  }

  lemma CongUnaccepted(c: Conn, d: Conn, x: Segment, y: Segment, env: Env)
    requires Cong(c, d) && CongSegment(x, y) && Acceptable(c, x) == Acceptable(d, y)
    requires !c.state.SynSent? && !(Acceptable(c, x) && !x.rst && !x.syn && x.ack)
    ensures CongOut(SegmentInput(c, x, env), SegmentInput(d, y, env))
  {
    hide Cong, Wrap, Acceptable, SegmentInput, ResetInput, CongSent;
    CongFacts(c, d);
    UnacceptedIs(c, x, env);
    UnacceptedIs(d, y, env);
    CongQuiet(c, d, 0, 0);
    CongOwed(c, d, true, 0);
    CongOwed(c, d, c.ackNow || !x.rst, if c.state.TimeWait? && x.fin then env.now + TIME_WAIT_MS else c.life);
    CongReset(c, d, x, y);
  }

  lemma CongSynReceived(c: Conn, d: Conn, x: Segment, y: Segment, env: Env)
    requires Cong(c, d) && CongSegment(x, y) && Acceptable(c, x) && Acceptable(d, y)
    requires c.state.SynReceived? && !x.rst && !x.syn && x.ack
    ensures CongOut(SegmentInput(c, x, env), SegmentInput(d, y, env))
  {
    hide Wrap, Before32, Acceptable, TextInput, AckAdvance, Establish, SetWindow, SynSentInput, ResetInput,
      WindowUpdate, ReplyReset;
    CongReply(x, y);
    CongHeard(c, d, x, y, env);
    CongTextInput(Establish(SetWindow(c, x), x, env), Establish(SetWindow(d, y), y, env), x, y, env.now);
  }

  lemma CongAcknowledged(c: Conn, d: Conn, x: Segment, y: Segment, env: Env)
    requires Cong(c, d) && CongSegment(x, y) && Acceptable(c, x) && Acceptable(d, y)
    requires !c.state.SynSent? && !c.state.SynReceived? && !x.rst && !x.syn && x.ack
    ensures CongOut(SegmentInput(c, x, env), SegmentInput(d, y, env))
  {
    hide Wrap, Before32, Acceptable, TextInput, AckAdvance, Establish, SynSentInput, ResetInput, WindowUpdate,
        ReplyReset;
    if !SeqLt(c.snd.max, x.ackNo) {
      var acked := if SeqLt(c.snd.una, x.ackNo) then AckAdvance(c, x.ackNo, env) else c;
      var acked' := if SeqLt(d.snd.una, y.ackNo) then AckAdvance(d, y.ackNo, env) else d;
      CongAckAdvance(c, d, x.ackNo, y.ackNo, env);
      if acked.used && !acked.state.Closed? {
        CongHeard(acked, acked', x, y, env);
        CongTextInput(WindowUpdate(acked, x), WindowUpdate(acked', y), x, y, env.now);
        assert SegmentInput(c, x, env) == TextInput(WindowUpdate(acked, x), x, env.now);
        assert SegmentInput(d, y, env) == TextInput(WindowUpdate(acked', y), y, env.now);
      } else {
        assert SegmentInput(c, x, env) == Out(acked, []) && SegmentInput(d, y, env) == Out(acked', []);
      }
    }
  }

  lemma CongListen(c: Conn, d: Conn, x: Segment, y: Segment, env: Env)
    requires Cong(c, d) && CongSegment(x, y)
    ensures CongOut(ListenInput(c, x, env), ListenInput(d, y, env))
  {
    hide Wrap, ReplyReset, SendSyn;
    CongReply(x, y);
    WrapAdd(x.seqNo, y.seqNo, 1);
    CongSendSyn(Child(x, env), Child(y, env), env.now);
  }

  /** Input depends on the 32-bit fields only. */
  lemma CongInput(c: Conn, d: Conn, x: Segment, y: Segment, env: Env)
    requires Cong(c, d) && CongSegment(x, y)
    ensures CongOut(Input(c, x, env), Input(d, y, env))
  {
    hide Wrap, Before32, SegmentInput, ListenInput, Output, Finish, ReplyReset;
    if !c.used || c.state.Closed? {
      CongReply(x, y);
    } else if c.state.Listen? {
      CongListen(c, d, x, y, env);
    } else if c.state.TimeWait? && x.syn && !x.ack && SeqLt(c.rcv.nxt, x.seqNo) {
      CongReply(x, y);
      CongFail(c, d, 0);
    } else {
      CongAnswer(c, d, x, y, env);
    }
  }

  lemma CongAnswer(c: Conn, d: Conn, x: Segment, y: Segment, env: Env)
    requires Cong(c, d) && CongSegment(x, y) && c.used && !c.state.Closed? && !c.state.Listen?
    requires !(c.state.TimeWait? && x.syn && !x.ack && SeqLt(c.rcv.nxt, x.seqNo))
    ensures CongOut(Input(c, x, env), Input(d, y, env))
  {
    hide Wrap, Before32, SegmentInput, ListenInput, Output, Finish, ReplyReset, CongSegment;
    assert Wrap(x.seqNo) == Wrap(y.seqNo) && x.syn == y.syn && x.ack == y.ack by { CongHeader(x, y); }
    CongSegmentInput(c, d, x, y, env);
    var got, got' := SegmentInput(c, x, env), SegmentInput(d, y, env);
    if got.conn.used {
      CongOutput(got.conn, got'.conn, env.now);
      CongConcat(got.sent, Output(got.conn, env.now).sent, got'.sent, Output(got'.conn, env.now).sent);
    }
  }

  lemma CongHeader(x: Segment, y: Segment)
    requires CongSegment(x, y)
    ensures Wrap(x.seqNo) == Wrap(y.seqNo) && x.syn == y.syn && x.ack == y.ack && x.rst == y.rst
  {
  }

  // ---------- calls ----------

  lemma CongTaken(c: Conn, d: Conn, count: nat)
    requires Cong(c, d) && count <= |c.rcv.rx| && count <= |d.rcv.rx|
    ensures Cong(TakenFrom(c, count), TakenFrom(d, count))
            && Cong(TakenFrom(c, count).(ackNow := true), TakenFrom(d, count).(ackNow := true))
  {
    hide Wrap;
  }

  lemma CongOffered(c: Conn, d: Conn)
    requires Cong(c, d)
    ensures Offered(c) == Offered(d)
  {
    hide Wrap, Before32;
  }

  function TakenFrom(c: Conn, count: nat): Conn
    requires count <= |c.rcv.rx|
  {
    c.(rcv := c.rcv.(rx := c.rcv.rx[count..]))
  }

  function Offered(c: Conn): nat { if SeqLt(c.rcv.nxt, c.rcv.adv) then Diff(c.rcv.adv, c.rcv.nxt) else 0 }

  lemma ReadIs(c: Conn, cap: nat, now: nat)
    ensures var o := Read(c, cap, now);
            && (Unconnected(c.state) ==> o == CallOut(Out(c, []), NotConnected))
            && (!Unconnected(c.state) && c.error != 0 ==> o == CallOut(Out(c.(error := 0), []), Error(c.error)))
            && (!Unconnected(c.state) && c.error == 0 && |c.rcv.rx| == 0 ==>
                  o == CallOut(Out(c, []), if c.peerFin || c.readShut || c.state.Closed? then Done([]) else Again))
            && (!Unconnected(c.state) && c.error == 0 && |c.rcv.rx| > 0 ==>
                  && o.reply == Done(c.rcv.rx[..Min(cap, |c.rcv.rx|)])
                  && o.out == if WindowPeek(TakenFrom(c, Min(cap, |c.rcv.rx|))) > Offered(c)
                              then Output(TakenFrom(c, Min(cap, |c.rcv.rx|)).(ackNow := true), now)
                              else Out(TakenFrom(c, Min(cap, |c.rcv.rx|)), []))
  {
    hide SeqLt, Diff, WindowPeek, Output;
  }

  lemma CongRead(c: Conn, d: Conn, cap: nat, now: nat)
    requires Cong(c, d)
    ensures CongOut(Read(c, cap, now).out, Read(d, cap, now).out) && Read(c, cap, now).reply == Read(d, cap, now).reply
  {
    hide Cong, CongSent, Offered, WindowPeek, Output, Read, TakenFrom;
    CongFacts(c, d);
    CongQuiet(c, d, 0, 0);
    ReadIs(c, cap, now);
    ReadIs(d, cap, now);
    if !Unconnected(c.state) && c.error == 0 && |c.rcv.rx| > 0 {
      var count := Min(cap, |c.rcv.rx|);
      CongTaken(c, d, count);
      CongOffered(c, d);
      CongWindow(TakenFrom(c, count), TakenFrom(d, count));
      CongOutput(TakenFrom(c, count).(ackNow := true), TakenFrom(d, count).(ackNow := true), now);
    }
  }

  lemma CongQueued(c: Conn, d: Conn, data: seq<Byte>)
    requires Cong(c, d)
    ensures Cong(c.(snd := c.snd.(tx := c.snd.tx + data)), d.(snd := d.snd.(tx := d.snd.tx + data)))
  {
    hide Wrap;
  }

  lemma CongWrite(c: Conn, d: Conn, data: seq<Byte>, now: nat)
    requires Cong(c, d)
    ensures CongOut(Write(c, data, now).out, Write(d, data, now).out)
            && Write(c, data, now).reply == Write(d, data, now).reply
  {
    hide Cong, CongSent, Output;
    CongFacts(c, d);
    CongQuiet(c, d, 0, 0);
    if |c.snd.tx| < BUFFER_SIZE {
      var count := Min(|data|, BUFFER_SIZE - |c.snd.tx|);
      CongQueued(c, d, data[..count]);
      CongOutput(c.(snd := c.snd.(tx := c.snd.tx + data[..count])),
                 d.(snd := d.snd.(tx := d.snd.tx + data[..count])), now);
    }
  }

  lemma CongShutdown(c: Conn, d: Conn, readSide: bool, writeSide: bool, now: nat)
    requires Cong(c, d)
    ensures CongOut(Shutdown(c, readSide, writeSide, now).out, Shutdown(d, readSide, writeSide, now).out)
    ensures Shutdown(c, readSide, writeSide, now).reply == Shutdown(d, readSide, writeSide, now).reply
  {
    hide Wrap, Output;
    if readSide {
      CongOutput(c.(readShut := true, rcv := c.rcv.(rx := [])).(finPending := true),
                 d.(readShut := true, rcv := d.rcv.(rx := [])).(finPending := true), now);
    } else {
      CongOutput(c.(finPending := true), d.(finPending := true), now);
    }
  }

  lemma CongOrphan(c: Conn, d: Conn, life: nat)
    requires Cong(c, d)
    ensures Cong(c.(orphan := true), d.(orphan := true))
            && Cong(c.(orphan := true, used := false), d.(orphan := true, used := false))
    ensures Cong(c.(orphan := true, rcv := c.rcv.(rx := []), finPending := true, life := life),
                 d.(orphan := true, rcv := d.rcv.(rx := []), finPending := true, life := life))
  {
    hide Wrap;
  }

  lemma CongClose(c: Conn, d: Conn, now: nat)
    requires Cong(c, d)
    ensures CongOut(Close(c, now), Close(d, now))
  {
    hide Cong, CongSent, Output, Abort;
    var life := if c.state.TimeWait? then c.life else now + ORPHAN_LIFE_MS;
    CongFacts(c, d);
    CongQuiet(c, d, 0, 0);
    CongOrphan(c, d, life);
    CongAbort(c.(orphan := true), d.(orphan := true), 0);
    CongOutput(c.(orphan := true, rcv := c.rcv.(rx := []), finPending := true, life := life),
               d.(orphan := true, rcv := d.rcv.(rx := []), finPending := true, life := life), now);
  }

  // ---------- every run of one block ----------

  datatype Event =
    | Arrive(seg: Segment, env: Env)
    | Clock(now: nat)
    | ReadCall(cap: nat, at: nat)
    | WriteCall(data: seq<Byte>, at: nat)
    | ShutdownCall(readSide: bool, writeSide: bool, at: nat)
    | CloseCall(at: nat)
    | AcceptCall

  function Step(c: Conn, e: Event): Out {
    match e
    case Arrive(seg, env) => Input(c, seg, env)
    case Clock(now) => Tick(c, now)
    case ReadCall(cap, at) => Read(c, cap, at).out
    case WriteCall(data, at) => Write(c, data, at).out
    case ShutdownCall(r, w, at) => Shutdown(c, r, w, at).out
    case CloseCall(at) => Close(c, at)
    case AcceptCall => Out(Accept(c), [])
  }

  function Run(c: Conn, events: seq<Event>): Conn {
    if events == [] then c else Step(Run(c, events[..|events| - 1]), events[|events| - 1]).conn
  }

  // What a segment parsed from an IPv4 datagram satisfies.
  predicate Wire(e: Event) { e.Arrive? ==> |e.seg.data| < 0x1_0000 }

  lemma CongStep(c: Conn, d: Conn, e: Event, f: Event)
    requires Cong(c, d) && (e == f || (e.Arrive? && f.Arrive? && e.env == f.env && CongSegment(e.seg, f.seg)))
    ensures CongOut(Step(c, e), Step(d, f))
  {
    hide Input, Tick, Read, Write, Shutdown, Close, Wrap, CongSender, CongReceiver, CongSegment;
    match e
    case Arrive(seg, env) => if e == f { CongSame(e.seg); } CongInput(c, d, e.seg, f.seg, env);
    case Clock(now) => CongTick(c, d, now);
    case ReadCall(cap, at) => CongRead(c, d, cap, at);
    case WriteCall(data, at) => CongWrite(c, d, data, at);
    case ShutdownCall(r, w, at) => CongShutdown(c, d, r, w, at);
    case CloseCall(at) => CongClose(c, d, at);
    case AcceptCall =>
  }

  lemma CongSame(x: Segment)
    ensures CongSegment(x, x)
  {
  }

  lemma StepKeeps(c: Conn, e: Event)
    requires Inv(c) && (e.Arrive? ==> Near(c, e.seg))
    ensures Inv(Step(c, e).conn)
  {
    hide Input, Tick, Read, Write, Shutdown, Close;
    match e
    case Arrive(seg, env) => InputKeeps(c, seg, env);
    case Clock(now) => TickKeeps(c, now);
    case ReadCall(cap, at) => ReadKeeps(c, cap, at);
    case WriteCall(data, at) => WriteKeeps(c, data, at);
    case ShutdownCall(r, w, at) => ShutdownKeeps(c, r, w, at);
    case CloseCall(at) => CloseKeeps(c, at);
    case AcceptCall =>
  }

  // The reading of a 32-bit number closest to a reference point.
  function Closest(ref: int, x: int): int {
    var up := (x - ref) % MOD;
    ref + (if up <= HALF then up else up - MOD)
  }

  lemma ClosestReads(ref: int, x: int)
    ensures Wrap(Closest(ref, x)) == Wrap(x) && -HALF < Closest(ref, x) - ref <= HALF
  {
  }

  // Any event has a reading that is near the block and that the 32-bit machine cannot tell apart.
  lemma NearReading(c: Conn, e: Event) returns (f: Event)
    requires Wire(e)
    ensures e == f || (e.Arrive? && f.Arrive? && e.env == f.env && CongSegment(e.seg, f.seg))
    ensures f.Arrive? ==> Near(c, f.seg)
  {
    f := e;
    if e.Arrive? {
      ClosestReads(c.snd.una, e.seg.ackNo);
      f := Arrive(e.seg.(ackNo := Closest(c.snd.una, e.seg.ackNo)), e.env);
    }
  }

  // A run of the 32-bit block follows a run whose sequence numbers never wrap.
  lemma {:induction false} Unwrapped(start: Conn, events: seq<Event>) returns (t: Conn)
    requires Inv(start) && forall e <- events :: Wire(e)
    ensures Cong(Run(start, events), t) && Inv(t)
  {
    if events == [] {
      t := start;
    } else {
      var last := |events| - 1;
      var before := Unwrapped(start, events[..last]);
      var near := NearReading(before, events[last]);
      t := Step(before, near).conn;
      CongStep(Run(start, events[..last]), before, events[last], near);
      StepKeeps(before, near);
    }
  }

  /** The invariant in the source's own 32-bit terms. */
  ghost predicate Inv32(c: Conn) {
    && (Synchronized(c.state) ==>
          && Diff(c.snd.nxt, c.snd.una) <= Diff(c.snd.max, c.snd.una) <= |c.snd.tx| + FinCount(c.state)
          && |c.snd.tx| <= BUFFER_SIZE && |c.rcv.rx| <= BUFFER_SIZE
          && Diff(c.rcv.adv, c.rcv.nxt) <= BUFFER_SIZE - |c.rcv.rx|)
    && (DataState(c.state) && (|c.snd.tx| > 0 || c.finPending) ==> c.timer != 0)
    && (c.state.SynSent? || c.state.SynReceived? ==> c.timer != 0)
    && (c.peerFin && Synchronized(c.state) ==> PeerDone(c.state))
  }

  lemma Inv32FromUnwrapped(c: Conn, t: Conn)
    requires Cong(c, t) && Inv(t)
    ensures Inv32(c)
  {
    hide Wrap;
    if Synchronized(t.state) {
      DiffExact(t.snd.nxt, t.snd.una);
      DiffExact(t.snd.max, t.snd.una);
      DiffExact(t.rcv.adv, t.rcv.nxt);
    }
  }

  /**
   Every run: whatever segments arrive and whatever is called, from a fresh active open or
   a listener, the send variables stay ordered, the window promise is backed by buffer
   space, and nothing queued or unacknowledged is ever left without a timer.
   */
  lemma EveryRun(entropy: nat, now: nat, reachable: bool, listener: bool, events: seq<Event>)
    requires forall e <- events :: Wire(e)
    ensures var start := if listener then FreshBlock(entropy).(state := Listen)
                         else Connect(entropy, now, reachable).conn;
            Inv32(Run(start, events))
  {
    var start := if listener then FreshBlock(entropy).(state := Listen) else Connect(entropy, now, reachable).conn;
    ConnectKeeps(entropy, now, reachable);
    var t := Unwrapped(start, events);
    Inv32FromUnwrapped(Run(start, events), t);
  }
}
