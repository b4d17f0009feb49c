/**
 What every call keeps true of one connection block, whatever the network delivers:
 the ordering of the send variables, the bound on the advertised window, and the
 timer that keeps a connection from getting stuck.
 */
module TcpInvariant {
  import opened TcpSpec

  // ---------- 32-bit comparisons are exact within half the sequence space ----------

  lemma SeqExact(a: int, b: int)
    requires -HALF <= a - b < HALF
    ensures SeqLt(a, b) <==> a < b
    ensures SeqEq(a, b) <==> a == b
    ensures SeqLe(a, b) <==> a <= b
  {
    var q, d := a / MOD - b / MOD, a - b;
    assert a == a / MOD * MOD + Wrap(a) && b == b / MOD * MOD + Wrap(b);
    var r := if d >= 0 then d else d + MOD;
    Folds(Wrap(a) - Wrap(b), r, if d >= 0 then -q else -q - 1);
  }

  lemma Folds(x: int, r: int, q: int)
    requires x == r + q * MOD && 0 <= r < MOD
    ensures x % MOD == r
  {
  }

  lemma DiffExact(a: int, b: int)
    requires 0 <= a - b < MOD
    ensures Diff(a, b) == a - b
  {
  }

  // ---------- the invariant ----------

  predicate Synchronized(s: State) { DataState(s) || s.FinWait2? || s.TimeWait? }

  predicate FinOut(s: State) { s.FinWait1? || s.Closing? || s.LastAck? }

  predicate FinDone(s: State) { s.FinWait2? || s.TimeWait? }

  predicate PeerDone(s: State) { s.CloseWait? || s.Closing? || s.LastAck? || s.TimeWait? }

  function FinCount(s: State): nat { if FinOut(s) then 1 else 0 }

  // snd_una <= snd_nxt <= snd_max <= snd_una + tx_len + (1 if a FIN is outstanding)
  ghost predicate SendOrder(s: Sender, fin: nat) {
    && s.una <= s.nxt <= s.max <= s.una + |s.tx| + fin
    && |s.tx| <= BUFFER_SIZE && s.txHead < BUFFER_SIZE
  }

  // The block has a FIN in the states that say so, and no other data once it is acknowledged.
  ghost predicate FinCoherent(state: State, finPending: bool, txEmpty: bool) {
    && (FinOut(state) || FinDone(state) ==> finPending)
    && (FinDone(state) ==> txEmpty)
  }

  ghost predicate Unopened(s: Sender) {
    s.una == s.iss && s.nxt == s.iss + 1 && s.max == s.iss + 1 && s.tx == [] && s.txHead < BUFFER_SIZE
  }

  ghost predicate RecvBounds(r: Receiver) {
    |r.rx| <= BUFFER_SIZE && r.nxt - 0x2_0000 <= r.adv <= r.nxt + BUFFER_SIZE - |r.rx|
  }

  ghost predicate Handshake(c: Conn) {
    Unopened(c.snd) && c.rcv.rx == [] && !c.finPending && !c.peerFin && !c.readShut && c.timer != 0
  }

  // Holds at every point inside a call.
  ghost predicate Core(c: Conn) {
    && RTO_MIN <= c.rto <= RTO_MAX
    && (c.state.SynSent? || c.state.SynReceived? ==> Handshake(c))
    && (Synchronized(c.state) ==> SendOrder(c.snd, FinCount(c.state))
                                  && FinCoherent(c.state, c.finPending, c.snd.tx == []))
    && (c.state.SynReceived? || Synchronized(c.state) ==> ReceiveSide(c))
  }

  ghost predicate ReceiveSide(c: Conn) {
    && RecvBounds(c.rcv)
    && (!c.ackNow ==> c.rcv.nxt <= c.rcv.adv)
    && (c.peerFin <==> PeerDone(c.state))
    && (c.readShut ==> c.rcv.rx == [])
  }

  // Queued bytes or an unacknowledged FIN always have a timer running.
  ghost predicate TimerOk(c: Conn) {
    DataState(c.state) && (|c.snd.tx| > 0 || c.finPending) ==> c.timer != 0
  }

  ghost predicate EdgeOk(c: Conn) {
    c.state.SynReceived? || Synchronized(c.state) ==> c.rcv.nxt <= c.rcv.adv
  }

  // Nothing queued or unacknowledged is left without something in flight or a closed window.
  ghost predicate Progressing(c: Conn) {
    && (|c.snd.tx| > 0 && c.snd.nxt == c.snd.una ==> c.snd.wnd == 0)
    && (c.finPending && |c.snd.tx| == 0 ==> c.snd.nxt != c.snd.una)
  }

  // Holds between calls.
  ghost predicate Inv(c: Conn) {
    Core(c) && TimerOk(c) && EdgeOk(c) && (DataState(c.state) ==> Progressing(c))
  }

  // What a segment leaving a block through tcp_emit may look like: its text is a slice of
  // the transmit ring, a FIN sits behind the last queued byte, and the advertised right
  // edge neither moves left nor exceeds the free buffer.
  ghost predicate Sent(snd: Sender, rcv: Receiver, finPending: bool, seg: Segment) {
    && !seg.rst && |seg.data| <= |snd.tx|
    && (seg.ack ==> seg.ackNo == rcv.nxt && rcv.adv <= seg.ackNo + seg.window <= rcv.nxt + BUFFER_SIZE - |rcv.rx|)
    && (if seg.syn then seg.seqNo == snd.iss && seg.data == [] && !seg.fin else seg.ack)
    && (seg.fin ==> finPending && seg.data == [] && seg.seqNo == snd.una + |snd.tx|)
    && (|seg.data| > 0 ==> snd.una <= seg.seqNo && seg.seqNo + |seg.data| <= snd.una + |snd.tx|
                           && seg.data == snd.tx[seg.seqNo - snd.una..][..|seg.data|])
  }

  ghost predicate AllSent(c: Conn, sent: seq<Segment>) {
    forall seg <- sent :: Sent(c.snd, c.rcv, c.finPending, seg)
  }

  ghost predicate SameSender(s: Sender, t: Sender) {
    && t.iss == s.iss && t.una == s.una && t.wnd == s.wnd && t.wl1 == s.wl1 && t.wl2 == s.wl2
    && t.txHead == s.txHead && t.tx == s.tx
  }

  ghost predicate SameReceiver(r: Receiver, t: Receiver) { t.irs == r.irs && t.nxt == r.nxt && t.rx == r.rx }

  ghost predicate SameControl(c: Conn, d: Conn) {
    && d.used == c.used && d.orphan == c.orphan && d.embryo == c.embryo && d.finPending == c.finPending
    && d.peerFin == c.peerFin && d.readShut == c.readShut && d.retries == c.retries && d.error == c.error
    && d.mss == c.mss && d.rto == c.rto && d.life == c.life
  }

  // d differs from c only in what transmission changes: snd_nxt, snd_max, the advertised
  // edge, the acknowledgement owed, the state and the timer.
  ghost predicate SameButSent(c: Conn, d: Conn) {
    SameControl(c, d) && SameSender(c.snd, d.snd) && SameReceiver(c.rcv, d.rcv)
  }

  ghost predicate Transmitted(c: Conn, d: Conn) {
    SameButSent(c, d) && c.snd.max <= d.snd.max && c.rcv.adv <= d.rcv.adv && (d.ackNow ==> c.ackNow)
  }

  // Everything sent lies below snd_max.
  ghost predicate AllBelow(sent: seq<Segment>, max: int) {
    forall seg <- sent :: seg.seqNo + SegmentLength(seg) <= max
  }

  lemma SentFromLater(c: Conn, d: Conn, sent: seq<Segment>)
    requires Transmitted(c, d) && AllSent(d, sent)
    ensures AllSent(c, sent)
  {
    forall seg <- sent ensures Sent(c.snd, c.rcv, c.finPending, seg) {
      assert Sent(d.snd, d.rcv, d.finPending, seg);
    }
  }

  // ---------- transmission ----------

  // The edge a segment would advertise: at least the one advertised before, at most the free buffer.
  lemma WindowEdge(c: Conn)
    requires RecvBounds(c.rcv)
    ensures c.rcv.adv <= c.rcv.nxt + WindowPeek(c)
    ensures WindowPeek(c) <= BUFFER_SIZE - |c.rcv.rx|
  {
    hide SeqLt, Diff;
    SeqExact(c.rcv.nxt, c.rcv.adv);
    if c.rcv.nxt < c.rcv.adv { DiffExact(c.rcv.adv, c.rcv.nxt); }
  }

  lemma NoteSentExact(c: Conn)
    requires -HALF <= c.snd.max - c.snd.nxt < HALF
    ensures NoteSent(c) == c.(snd := c.snd.(max := if c.snd.max < c.snd.nxt then c.snd.nxt else c.snd.max))
  {
    hide SeqLt;
    SeqExact(c.snd.max, c.snd.nxt);
  }

  lemma SendSynKeeps(c: Conn, now: nat)
    requires RTO_MIN <= c.rto <= RTO_MAX && (c.state.SynSent? || c.state.SynReceived?)
    requires c.snd.una == c.snd.iss && c.snd.iss <= c.snd.max <= c.snd.iss + 1
    requires c.snd.tx == [] && c.snd.txHead < BUFFER_SIZE && c.rcv.rx == []
    requires !c.finPending && !c.peerFin && !c.readShut
    requires c.state.SynReceived? ==> ReceiveSide(c)
    ensures Inv(SendSyn(c, now).conn) && SendSyn(c, now).conn.state == c.state
    ensures SameButSent(c, SendSyn(c, now).conn)
    ensures AllBelow(SendSyn(c, now).sent, SendSyn(c, now).conn.snd.max)
    ensures forall seg <- SendSyn(c, now).sent :: !seg.fin && !seg.rst && seg.syn && seg.seqNo == c.snd.iss
                                                 && seg.data == [] && (seg.ack <==> c.state.SynReceived?)
    ensures c.state.SynReceived? ==> AllSent(c, SendSyn(c, now).sent) && c.rcv.adv <= SendSyn(c, now).conn.rcv.adv
  {
    hide SeqLt, WindowPeek;
    NoteSentExact(SetNxt(Emit(c, c.snd.iss, true, c.state.SynReceived?, false, []).conn, c.snd.iss + 1));
    if c.state.SynReceived? { WindowEdge(c); }
  }

  lemma InFlight(s: Sender, fin: nat)
    requires SendOrder(s, fin) && fin <= 1
    ensures Diff(s.nxt, s.una) == s.nxt - s.una
    ensures SeqEq(s.una, s.nxt) <==> s.una == s.nxt
    ensures SeqEq(s.nxt, s.una + |s.tx|) <==> s.nxt == s.una + |s.tx|
  {
    hide Diff, SeqEq;
    DiffExact(s.nxt, s.una);
    SeqExact(s.una, s.nxt);
    SeqExact(s.nxt, s.una + |s.tx|);
  }

  lemma SendChunkValue(c: Conn)
    requires ChunkLength(c) > 0 && Diff(c.snd.nxt, c.snd.una) == c.snd.nxt - c.snd.una
    requires -HALF <= c.snd.max - c.snd.nxt - ChunkLength(c) < HALF
    ensures var next := c.snd.nxt + ChunkLength(c);
            SendChunk(c).conn == c.(snd := c.snd.(nxt := next, max := if c.snd.max < next then next else c.snd.max),
                                    rcv := c.rcv.(adv := c.rcv.nxt + WindowPeek(c)), ackNow := false)
    ensures SendChunk(c).sent
            == [Segment(c.snd.nxt, c.rcv.nxt, false, true, false, false, WindowPeek(c), 0,
                        c.snd.tx[c.snd.nxt - c.snd.una..][..ChunkLength(c)])]
  {
    hide Diff, SeqLt, WindowPeek, ChunkLength;
    var at, len := c.snd.nxt - c.snd.una, ChunkLength(c);
    assert c.snd.tx[at..at + len] == c.snd.tx[at..][..len];
    NoteSentExact(SetNxt(Emit(c, c.snd.nxt, false, true, false, c.snd.tx[at..at + len]).conn, c.snd.nxt + len));
  }

  lemma SendChunkKeeps(c: Conn)
    requires Core(c) && DataState(c.state) && ChunkLength(c) > 0
    ensures var o := SendChunk(c);
            && Core(o.conn) && Transmitted(c, o.conn) && o.conn.state == c.state && o.conn.timer == c.timer
            && c.snd.nxt < o.conn.snd.nxt && AllSent(c, o.sent) && AllBelow(o.sent, o.conn.snd.max)
  {
    hide Diff, SendChunk, WindowPeek, ChunkLength;
    InFlight(c.snd, FinCount(c.state));
    SendChunkValue(c);
    WindowEdge(c);
  }

  lemma {:induction false} SendDataKeeps(c: Conn)
    requires Core(c) && DataState(c.state)
    ensures var o := SendData(c);
            && Core(o.conn) && Transmitted(c, o.conn) && o.conn.state == c.state && o.conn.timer == c.timer
            && c.snd.nxt <= o.conn.snd.nxt && AllSent(c, o.sent) && AllBelow(o.sent, o.conn.snd.max)
            && ChunkLength(o.conn) == 0
    decreases Unsent(c)
  {
    hide SendChunk, ChunkLength, Sent;
    if ChunkLength(c) > 0 {
      var first := SendChunk(c);
      SendChunkKeeps(c);
      ChunkShrinks(c);
      SendDataKeeps(first.conn);
      SentFromLater(c, first.conn, SendData(first.conn).sent);
    }
  }

  function FinSentState(s: State): State {
    if s.Established? then FinWait1 else if s.CloseWait? then LastAck else s
  }

  lemma SendFinValue(c: Conn)
    requires c.finPending && SeqEq(c.snd.nxt, c.snd.una + |c.snd.tx|)
    requires -HALF <= c.snd.max - c.snd.nxt - 1 < HALF
    ensures var next := c.snd.nxt + 1;
            SendFin(c).conn == c.(snd := c.snd.(nxt := next, max := if c.snd.max < next then next else c.snd.max),
                                  rcv := c.rcv.(adv := c.rcv.nxt + WindowPeek(c)), ackNow := false,
                                  state := FinSentState(c.state))
    ensures SendFin(c).sent
            == [Segment(c.snd.nxt, c.rcv.nxt, false, true, true, false, WindowPeek(c), 0, [])]
  {
    hide SeqEq, SeqLt, WindowPeek;
    NoteSentExact(SetNxt(Emit(c, c.snd.nxt, false, true, true, []).conn, c.snd.nxt + 1));
  }

  lemma SendFinSkipped(c: Conn)
    requires !c.finPending || !SeqEq(c.snd.nxt, c.snd.una + |c.snd.tx|)
    ensures SendFin(c) == Out(c, [])
  {
  }

  lemma SendFinKeeps(c: Conn)
    requires Core(c) && DataState(c.state)
    ensures var o := SendFin(c);
            && Core(o.conn) && Transmitted(c, o.conn) && DataState(o.conn.state) && o.conn.timer == c.timer
            && AllSent(c, o.sent) && AllBelow(o.sent, o.conn.snd.max) && c.snd.nxt <= o.conn.snd.nxt
            && (o.conn.state == c.state || o.conn.state == FinSentState(c.state))
            && (c.finPending && c.snd.nxt == c.snd.una + |c.snd.tx| ==> o.conn.snd.nxt > c.snd.una)
  {
    hide Diff, SeqEq, SeqLt, WindowPeek, SendFin;
    InFlight(c.snd, FinCount(c.state));
    WindowEdge(c);
    if c.finPending && c.snd.nxt == c.snd.una + |c.snd.tx| {
      SendFinValue(c);
    } else {
      SendFinSkipped(c);
    }
  }

  lemma SendAckKeeps(c: Conn)
    requires Core(c) && Synchronized(c.state)
    ensures var o := SendAck(c);
            && Core(o.conn) && Transmitted(c, o.conn) && o.conn.state == c.state && o.conn.timer == c.timer
            && o.conn.snd == c.snd && !o.conn.ackNow && AllSent(c, o.sent) && AllBelow(o.sent, o.conn.snd.max)
            && (forall seg <- o.sent :: !seg.fin && !seg.syn)
  {
    hide WindowPeek;
    WindowEdge(c);
  }

  // A transmit loop that stopped with nothing in flight faces a closed window.
  lemma LoopStopped(c: Conn)
    requires SendOrder(c.snd, FinCount(c.state)) && ChunkLength(c) == 0
    ensures |c.snd.tx| > 0 && c.snd.nxt == c.snd.una ==> c.snd.wnd == 0
  {
    hide Diff;
    InFlight(c.snd, FinCount(c.state));
  }

  lemma ArmTimerKeeps(c: Conn, now: nat)
    requires Core(c) && EdgeOk(c) && DataState(c.state)
    requires Progressing(c)
    ensures Inv(ArmTimer(c, now)) && SameButSent(c, ArmTimer(c, now)) && ArmTimer(c, now).snd == c.snd
    ensures ArmTimer(c, now).state == c.state && ArmTimer(c, now).rcv == c.rcv
  {
    hide Diff, SeqEq, SendOrder, RecvBounds, FinCoherent;
    NothingInFlight(c.snd, FinCount(c.state));
  }

  lemma NothingInFlight(s: Sender, fin: nat)
    requires SendOrder(s, fin) && fin <= 1
    ensures SeqEq(s.una, s.nxt) <==> s.una == s.nxt
  {
    hide SeqEq;
    SeqExact(s.una, s.nxt);
  }

  lemma TransmittedTwice(c: Conn, d: Conn, e: Conn)
    requires Transmitted(c, d) && Transmitted(d, e)
    ensures Transmitted(c, e)
  {
  }

  lemma OutputSendsFin(c: Conn)
    requires Core(c) && DataState(c.state) && ChunkLength(c) == 0
    ensures var fin := SendFin(c).conn;
            Core(fin) && Transmitted(c, fin) && DataState(fin.state) && Progressing(fin)
            && (fin.state == c.state || fin.state == FinSentState(c.state))
    ensures AllSent(c, SendFin(c).sent) && AllBelow(SendFin(c).sent, SendFin(c).conn.snd.max)
  {
    hide Diff, SeqEq, SeqLt, WindowPeek, ChunkLength, SendFin, Sent;
    LoopStopped(c);
    SendFinKeeps(c);
  }

  lemma OutputSends(c: Conn)
    requires Core(c) && DataState(c.state)
    ensures var data := SendData(c);
            var fin := SendFin(data.conn);
            var ack := SendAck(fin.conn);
            && Core(ack.conn) && EdgeOk(ack.conn) && DataState(ack.conn.state) && Transmitted(c, ack.conn)
            && (ack.conn.state == c.state || ack.conn.state == FinSentState(c.state))
            && Progressing(ack.conn)
            && AllSent(c, data.sent) && AllSent(c, fin.sent) && AllSent(c, ack.sent)
            && AllBelow(data.sent + fin.sent + ack.sent, ack.conn.snd.max)
  {
    hide Diff, SeqEq, SeqLt, WindowPeek, ChunkLength, SendData, SendFin, SendAck, Sent, AllSent;
    var data := SendData(c).conn;
    SendDataKeeps(c);
    var fin := SendFin(data);
    OutputSendsFin(data);
    var ack := SendAck(fin.conn);
    SendAckKeeps(fin.conn);
    hide Core;
    SentFromLater(c, data, fin.sent);
    TransmittedTwice(c, data, fin.conn);
    SentFromLater(c, fin.conn, ack.sent);
    TransmittedTwice(c, fin.conn, ack.conn);
  }

  lemma SentFromPulled(c: Conn, sent: seq<Segment>)
    requires AllSent(Pulled(c), sent)
    ensures AllSent(c, sent)
  {
    forall seg <- sent ensures Sent(c.snd, c.rcv, c.finPending, seg) {
      assert Sent(Pulled(c).snd, c.rcv, c.finPending, seg);
    }
  }

  // What tcp_output leaves alone.
  ghost predicate OutputFrame(c: Conn, d: Conn) {
    && SameButSent(c, d) && c.snd.max <= d.snd.max
    && (d.state == c.state || (DataState(c.state) && d.state == FinSentState(c.state)))
    && (c.state.SynReceived? || Synchronized(c.state) ==> c.rcv.adv <= d.rcv.adv)
  }

  lemma OutputData(c: Conn, now: nat)
    requires Core(c) && DataState(c.state)
    ensures Inv(Output(c, now).conn) && OutputFrame(c, Output(c, now).conn)
    ensures AllSent(c, Output(c, now).sent) && AllBelow(Output(c, now).sent, Output(c, now).conn.snd.max)
  {
    var pulled := Pulled(c);
    var data := SendData(pulled);
    var fin := SendFin(data.conn);
    var ack := SendAck(fin.conn);
    hide Diff, SeqEq, SeqLt, WindowPeek, SendData, SendFin, SendAck, Sent, Output, Core, Inv, ArmTimer;
    OutputUnfolds(c, now);
    PulledKeeps(c);
    OutputSends(pulled);
    SentFromPulled(c, data.sent + fin.sent + ack.sent);
    ArmTimerKeeps(ack.conn, now);
  }

  lemma OutputUnfolds(c: Conn, now: nat)
    requires DataState(c.state)
    ensures var data := SendData(Pulled(c));
            var fin := SendFin(data.conn);
            var ack := SendAck(fin.conn);
            Output(c, now) == Out(ArmTimer(ack.conn, now), data.sent + fin.sent + ack.sent)
  {
    hide SendData, SendFin, SendAck, ArmTimer, Pulled;
  }

  lemma PulledKeeps(c: Conn)
    requires Core(c) && DataState(c.state)
    ensures Core(Pulled(c))
  {
  }

  /** tcp_output turns a block in any mid-call condition into one that satisfies the invariant. */
  lemma OutputKeeps(c: Conn, now: nat)
    requires Core(c)
    ensures Inv(Output(c, now).conn) && OutputFrame(c, Output(c, now).conn)
    ensures AllSent(c, Output(c, now).sent) && AllBelow(Output(c, now).sent, Output(c, now).conn.snd.max)
    ensures !DataState(c.state) ==> forall seg <- Output(c, now).sent :: !seg.fin
  {
    if DataState(c.state) {
      OutputData(c, now);
    } else {
      hide SendAck, SendSyn, Sent, SendData, SendFin;
      if c.state.SynReceived? {
        if c.ackNow { SendSynKeeps(c, now); }
        assert forall seg <- Output(c, now).sent :: Sent(c.snd, c.rcv, c.finPending, seg);
      } else if c.state.FinWait2? || c.state.TimeWait? {
        SendAckKeeps(c);
      }
    }
  }

  // ---------- input ----------

  // A segment that fits an IPv4 datagram and whose acknowledgement number is written
  // relative to snd_una.  Every wire segment has such a reading (module TcpWrap).
  ghost predicate Near(c: Conn, seg: Segment) {
    seg.rst || (|seg.data| < 0x1_0000 && (seg.ack ==> -HALF < seg.ackNo - c.snd.una <= HALF))
  }

  // An acknowledgement between snd_una and snd_max drops exactly the bytes it covers, and
  // it covers the FIN exactly when it lies beyond the last byte.
  lemma AckedBytesExact(c: Conn, ackNo: int)
    requires SendOrder(c.snd, FinCount(c.state)) && c.snd.una < ackNo <= c.snd.max
    requires FinOut(c.state) ==> c.finPending
    ensures FinAcked(c, ackNo) <==> ackNo == c.snd.una + |c.snd.tx| + 1
    ensures AckedBytes(c, ackNo) == if ackNo == c.snd.una + |c.snd.tx| + 1 then |c.snd.tx| else ackNo - c.snd.una
    ensures FinAcked(c, ackNo) ==> FinOut(c.state)
  {
    hide Diff, SeqLt;
    SeqExact(c.snd.una + |c.snd.tx|, ackNo);
    DiffExact(ackNo, c.snd.una);
  }

  lemma AckAdvanceValue(c: Conn, ackNo: int, env: Env)
    requires SendOrder(c.snd, FinCount(c.state)) && c.snd.una < ackNo <= c.snd.max
    requires FinOut(c.state) ==> c.finPending
    ensures var d := AckAdvance(c, ackNo, env);
            && d.snd == c.snd.(una := ackNo, tx := c.snd.tx[AckedBytes(c, ackNo)..],
                               txHead := (c.snd.txHead + AckedBytes(c, ackNo)) % BUFFER_SIZE,
                               nxt := if c.snd.nxt < ackNo then ackNo else c.snd.nxt)
            && d.rcv == c.rcv && d.ackNow == c.ackNow && d.finPending == c.finPending && d.peerFin == c.peerFin
            && d.readShut == c.readShut && d.orphan == c.orphan && d.error == c.error
            && d.state == (if !FinAcked(c, ackNo) then c.state
                           else if c.state.FinWait1? then FinWait2 else if c.state.Closing? then TimeWait else Closed)
            && d.rto == RttAck(c, env.rtt).rto
  {
    hide Diff, SeqLt, SeqEq, AckedBytes, FinAcked, Finish, EnterTimeWait, AckArmed;
    AckedBytesExact(c, ackNo);
    AckArmedValue(c, ackNo, env);
    var d := AckAdvance(c, ackNo, env);
    var armed := AckArmed(c, ackNo, env);
    if !FinAcked(c, ackNo) {
      assert d == armed;
    } else if c.state.FinWait1? {
      assert d == armed.(state := FinWait2);
    } else if c.state.Closing? {
      assert d == EnterTimeWait(armed, env.now);
      EnterTimeWaitValue(armed, env.now);
    } else {
      assert d == Finish(armed);
      FinishValue(armed);
    }
  }

  lemma AckArmedValue(c: Conn, ackNo: int, env: Env)
    requires SendOrder(c.snd, FinCount(c.state)) && c.snd.una < ackNo <= c.snd.max
    ensures var d := AckArmed(c, ackNo, env);
            && d == c.(snd := d.snd, retries := 0, rto := RttAck(c, env.rtt).rto, timer := d.timer)
            && d.snd == c.snd.(una := ackNo, tx := c.snd.tx[AckedBytes(c, ackNo)..],
                               txHead := (c.snd.txHead + AckedBytes(c, ackNo)) % BUFFER_SIZE,
                               nxt := if c.snd.nxt < ackNo then ackNo else c.snd.nxt)
  {
    hide SeqLt, SeqEq, AckedBytes;
    SeqExact(c.snd.nxt, ackNo);
  }

  lemma FinishValue(c: Conn)
    ensures Finish(c) == c.(state := Closed, timer := 0, life := 0, used := c.used && !c.orphan && !c.embryo)
  {
  }

  lemma EnterTimeWaitValue(c: Conn, now: nat)
    ensures EnterTimeWait(c, now) == c.(state := TimeWait, timer := 0, life := now + TIME_WAIT_MS)
  {
  }

  lemma AckAdvanceKeeps(c: Conn, ackNo: int, env: Env)
    requires Core(c) && Synchronized(c.state) && c.snd.una < ackNo <= c.snd.max
    ensures Core(AckAdvance(c, ackNo, env))
  {
    hide Diff, SeqLt, SeqEq, AckedBytes, FinAcked, AckAdvance;
    AckedBytesExact(c, ackNo);
    AckAdvanceValue(c, ackNo, env);
  }

  function Taking(c: Conn, bytes: seq<Byte>, n: nat): Conn {
    c.(rcv := c.rcv.(rx := c.rcv.rx + bytes, nxt := c.rcv.nxt + n), ackNow := true)
  }

  function Discarding(c: Conn, n: nat): Conn { c.(rcv := c.rcv.(nxt := c.rcv.nxt + n), ackNow := true) }

  // The ways tcp_text_input may treat text.
  lemma AcceptTextCases(c: Conn, seg: Segment) returns (bytes: seq<Byte>)
    requires |c.rcv.rx| <= BUFFER_SIZE
    ensures |bytes| <= |seg.data|
    ensures var d := AcceptText(c, seg).conn;
            || d == c || d == c.(ackNow := true) || d == Abort(c, ECONNRESET).conn
            || (c.readShut && d == Discarding(c, |bytes|))
            || (!c.readShut && |c.rcv.rx| + |bytes| <= BUFFER_SIZE && d == Taking(c, bytes, |bytes|))
  {
    hide SeqEq, Overlap, Abort;
    bytes := seg.data[Overlap(c, seg)..];
    if !c.readShut { bytes := bytes[..Min(|bytes|, BUFFER_SIZE - |c.rcv.rx|)]; }
  }

  lemma TakingKeeps(c: Conn, bytes: seq<Byte>)
    requires Core(c) && EdgeOk(c) && Synchronized(c.state) && !c.readShut && |bytes| < 0x1_0000
             && |c.rcv.rx| + |bytes| <= BUFFER_SIZE
    ensures Core(Taking(c, bytes, |bytes|))
  {
  }

  lemma DiscardingKeeps(c: Conn, n: nat)
    requires Core(c) && EdgeOk(c) && Synchronized(c.state) && n < 0x1_0000
    ensures Core(Discarding(c, n))
  {
  }

  lemma AbortCore(c: Conn)
    requires Core(c)
    ensures var d := Abort(c, ECONNRESET).conn;
            Core(d) && d.state == Closed && d.snd.max == c.snd.max && d.rcv == c.rcv.(rx := [])
  {
  }

  lemma RoomLeft(c: Conn)
    requires Core(c) && Synchronized(c.state)
    ensures |c.rcv.rx| <= BUFFER_SIZE
  {
  }

  lemma AcceptTextKeeps(c: Conn, seg: Segment)
    requires Core(c) && EdgeOk(c) && Synchronized(c.state) && |seg.data| < 0x1_0000
    ensures var d := AcceptText(c, seg).conn;
            && Core(d) && (d.state == c.state || d.state == Closed) && d.snd.max == c.snd.max
            && c.rcv.nxt - 0x1_0000 <= d.rcv.nxt - 0x1_0000 <= d.rcv.adv
  {
    hide AcceptText, Core, Abort;
    RoomLeft(c);
    var bytes := AcceptTextCases(c, seg);
    AckOwedCore(c);
    AbortCore(c);
    if c.readShut {
      DiscardingKeeps(c, |bytes|);
    } else if |c.rcv.rx| + |bytes| <= BUFFER_SIZE {
      TakingKeeps(c, bytes);
    }
  }

  lemma TextInputKeeps(c: Conn, seg: Segment, now: nat)
    requires Core(c) && EdgeOk(c) && Synchronized(c.state) && |seg.data| < 0x1_0000
    ensures Core(TextInput(c, seg, now).conn)
  {
    hide SeqEq, AcceptText;
    AcceptTextKeeps(c, seg);
  }

  lemma SynSentInputKeeps(c: Conn, seg: Segment, env: Env)
    requires Core(c) && c.state.SynSent? && Near(c, seg)
    ensures Core(SynSentInput(c, seg, env).conn)
  {
    hide SeqLt, SeqLe;
    if seg.ack && !seg.rst {
      SeqExact(c.snd.iss, seg.ackNo);
      SeqExact(seg.ackNo, c.snd.nxt);
    }
  }

  lemma EstablishKeeps(c: Conn, seg: Segment, env: Env)
    requires Core(c) && EdgeOk(c) && c.state.SynReceived? && seg.ackNo == c.snd.iss + 1
    ensures var d := Establish(SetWindow(c, seg), seg, env); Core(d) && EdgeOk(d) && d.state.Established?
  {
  }

  lemma SegmentInputKeeps(c: Conn, seg: Segment, env: Env)
    requires Inv(c) && Near(c, seg) && !c.state.Closed? && !c.state.Listen?
    ensures Core(SegmentInput(c, seg, env).conn)
  {
    hide Acceptable, SegmentInput;
    if c.state.SynSent? {
      SynSentInputKeeps(c, seg, env);
      SynSentDispatch(c, seg, env);
    } else if !(Acceptable(c, seg) && !seg.rst && !seg.syn && seg.ack) {
      UnacceptedKeeps(c, seg, env);
    } else if c.state.SynReceived? {
      SynReceivedKeeps(c, seg, env);
    } else {
      AcknowledgedKeeps(c, seg, env);
    }
  }

  lemma SynSentDispatch(c: Conn, seg: Segment, env: Env)
    requires c.state.SynSent?
    ensures SegmentInput(c, seg, env) == SynSentInput(c, seg, env)
  {
    hide SynSentInput;
  }

  // Segments that end before the acknowledgement is looked at.
  lemma UnacceptedKeeps(c: Conn, seg: Segment, env: Env)
    requires Inv(c) && !c.state.SynSent? && !(Acceptable(c, seg) && !seg.rst && !seg.syn && seg.ack)
    ensures Core(SegmentInput(c, seg, env).conn)
  {
    hide Acceptable, TextInput, AckAdvance, Establish, SynSentInput, ResetInput, WindowUpdate;
    if Acceptable(c, seg) && seg.rst { ResetInputKeeps(c, seg); }
  }

  lemma ResetInputKeeps(c: Conn, seg: Segment)
    requires Core(c)
    ensures Core(ResetInput(c, seg))
  {
    hide SeqEq, Finish, Fail, Core;
    FinishCore(c);
    FailCore(c, if c.state.SynReceived? then ECONNREFUSED else ECONNRESET);
    AckOwedCore(c);
  }

  lemma FinishCore(c: Conn)
    requires Core(c)
    ensures Core(Finish(c))
  {
  }

  lemma FailCore(c: Conn, error: int)
    requires Core(c)
    ensures Core(Fail(c, error))
  {
  }

  lemma AckOwedCore(c: Conn)
    requires Core(c)
    ensures Core(c.(ackNow := true))
  {
  }

  lemma SynReceivedKeeps(c: Conn, seg: Segment, env: Env)
    requires Inv(c) && Near(c, seg) && c.state.SynReceived?
    requires Acceptable(c, seg) && !seg.rst && !seg.syn && seg.ack
    ensures Core(SegmentInput(c, seg, env).conn)
  {
    hide SeqLt, SeqLe, SeqEq, Acceptable, SynSentInput, TextInput, AckAdvance, Establish, ResetInput, WindowUpdate;
    SeqExact(c.snd.una, seg.ackNo);
    SeqExact(seg.ackNo, c.snd.nxt);
    if c.snd.una < seg.ackNo <= c.snd.nxt {
      EstablishKeeps(c, seg, env);
      TextInputKeeps(Establish(SetWindow(c, seg), seg, env), seg, env.now);
    }
  }

  // The acknowledgement, window and text steps of a synchronized block.
  lemma AcknowledgedKeeps(c: Conn, seg: Segment, env: Env)
    requires Inv(c) && Near(c, seg) && Synchronized(c.state)
    requires Acceptable(c, seg) && !seg.rst && !seg.syn && seg.ack
    ensures Core(SegmentInput(c, seg, env).conn)
  {
    hide SeqLt, SeqEq, SeqLe, Acceptable, TextInput, AckAdvance;
    SeqExact(c.snd.una, seg.ackNo);
    AckBelowMax(c, seg.ackNo);
    if !SeqLt(c.snd.max, seg.ackNo) {
      var acked := if SeqLt(c.snd.una, seg.ackNo) then AckAdvance(c, seg.ackNo, env) else c;
      if SeqLt(c.snd.una, seg.ackNo) {
        AckAdvanceKeeps(c, seg.ackNo, env);
        AckAdvanceValue(c, seg.ackNo, env);
      }
      if acked.used && !acked.state.Closed? {
        WindowUpdateKeeps(acked, seg);
        TextInputKeeps(WindowUpdate(acked, seg), seg, env.now);
      }
    }
  }

  // Within half the sequence space of snd_una, tcp_segment_input passes exactly the
  // acknowledgements up to snd_max on.
  lemma AckBelowMax(c: Conn, ackNo: int)
    requires SendOrder(c.snd, FinCount(c.state)) && -HALF < ackNo - c.snd.una <= HALF
    ensures c.snd.una < ackNo && !SeqLt(c.snd.max, ackNo) ==> ackNo <= c.snd.max
  {
    hide SeqLt;
    if c.snd.una < ackNo { SeqExact(c.snd.max, ackNo); }
  }

  lemma WindowUpdateKeeps(c: Conn, seg: Segment)
    requires Core(c) && EdgeOk(c) && Synchronized(c.state)
    ensures Core(WindowUpdate(c, seg)) && EdgeOk(WindowUpdate(c, seg))
  {
    hide SeqLt, SeqEq, SeqLe;
  }

  lemma ListenInputKeeps(c: Conn, seg: Segment, env: Env)
    requires Inv(c)
    ensures Inv(ListenInput(c, seg, env).conn)
  {
    hide SendSyn;
    SendSynKeeps(Child(seg, env), env.now);
  }

  /** Every segment keeps the invariant. */
  lemma InputKeeps(c: Conn, seg: Segment, env: Env)
    requires Inv(c) && Near(c, seg)
    ensures Inv(Input(c, seg, env).conn)
  {
    hide SeqLt, SegmentInput, ListenInput, Input;
    if !c.used || c.state.Closed? || c.state.Listen?
       || (c.state.TimeWait? && seg.syn && !seg.ack && SeqLt(c.rcv.nxt, seg.seqNo)) {
      UnansweredKeeps(c, seg, env);
    } else {
      SegmentInputKeeps(c, seg, env);
      UnusedIsClosed(c, seg, env);
      AnswerKeeps(c, seg, env);
    }
  }

  lemma UnansweredKeeps(c: Conn, seg: Segment, env: Env)
    requires Inv(c)
    requires !c.used || c.state.Closed? || c.state.Listen?
             || (c.state.TimeWait? && seg.syn && !seg.ack && SeqLt(c.rcv.nxt, seg.seqNo))
    ensures Inv(Input(c, seg, env).conn)
  {
    hide SeqLt, SegmentInput, Output, ListenInput, ReplyReset, Finish, Inv;
    if !c.used || c.state.Closed? {
      assert Input(c, seg, env).conn == c;
    } else if c.state.Listen? {
      ListenInputKeeps(c, seg, env);
      assert Input(c, seg, env) == ListenInput(c, seg, env);
    } else {
      assert Input(c, seg, env).conn == Finish(c);
      FinishKeeps(c);
    }
  }

  lemma FinishKeeps(c: Conn)
    requires Inv(c)
    ensures Inv(Finish(c))
  {
  }

  lemma AnswerKeeps(c: Conn, seg: Segment, env: Env)
    requires c.used && !c.state.Closed? && !c.state.Listen?
    requires !(c.state.TimeWait? && seg.syn && !seg.ack && SeqLt(c.rcv.nxt, seg.seqNo))
    requires var got := SegmentInput(c, seg, env).conn; Core(got) && (got.used || got.state.Closed?)
    ensures Inv(Input(c, seg, env).conn)
  {
    hide SeqLt, SegmentInput, Output;
    var got := SegmentInput(c, seg, env);
    if got.conn.used {
      OutputKeeps(got.conn, env.now);
      assert Input(c, seg, env).conn == Output(got.conn, env.now).conn;
    } else {
      assert Input(c, seg, env).conn == got.conn;
    }
  }

  // A block is only freed by closing it.
  lemma UnusedIsClosed(c: Conn, seg: Segment, env: Env)
    requires c.used
    ensures SegmentInput(c, seg, env).conn.used || SegmentInput(c, seg, env).conn.state.Closed?
  {
    hide SeqLt, SeqEq, SeqLe, Acceptable, TextInput, AckAdvance, ResetInput, SynSentInput, Establish, WindowUpdate;
    if c.state.SynSent? {
      FreedInSynSent(c, seg, env);
    } else if seg.rst {
      FreedByReset(c, seg);
    } else if c.state.SynReceived? {
      EstablishUsed(c, seg, env);
      FreedByText(Establish(SetWindow(c, seg), seg, env), seg, env.now);
    } else {
      FreedByAck(c, seg.ackNo, env);
      var acked := if SeqLt(c.snd.una, seg.ackNo) then AckAdvance(c, seg.ackNo, env) else c;
      WindowUpdateUsed(acked, seg);
      if acked.used { FreedByText(WindowUpdate(acked, seg), seg, env.now); }
    }
  }

  lemma FreedInSynSent(c: Conn, seg: Segment, env: Env)
    requires c.used
    ensures SynSentInput(c, seg, env).conn.used || SynSentInput(c, seg, env).conn.state.Closed?
  {
    hide SeqLt, SeqLe, Fail, Establish, SynHeard, ReplyReset;
    FailCloses(c, ECONNREFUSED);
    HeardStays(c, seg, env);
  }

  lemma FailCloses(c: Conn, error: int)
    ensures Fail(c, error).state.Closed?
  {
  }

  lemma HeardStays(c: Conn, seg: Segment, env: Env)
    ensures SynHeard(c, seg).used == c.used && Establish(SynHeard(c, seg), seg, env).used == c.used
  {
  }

  lemma FreedByReset(c: Conn, seg: Segment)
    requires c.used
    ensures ResetInput(c, seg).used || ResetInput(c, seg).state.Closed?
  {
    hide SeqEq;
  }

  lemma FreedByText(c: Conn, seg: Segment, now: nat)
    requires c.used
    ensures TextInput(c, seg, now).conn.used || TextInput(c, seg, now).conn.state.Closed?
  {
    hide SeqEq, Overlap;
  }

  lemma FreedByAck(c: Conn, ackNo: int, env: Env)
    requires c.used
    ensures AckAdvance(c, ackNo, env).used || AckAdvance(c, ackNo, env).state.Closed?
  {
    hide SeqEq, SeqLt, FinAcked, AckedBytes, AckArmed, Finish, EnterTimeWait;
    ArmedFrame(c, ackNo, env);
    FinishValue(AckArmed(c, ackNo, env));
    EnterTimeWaitValue(AckArmed(c, ackNo, env), env.now);
  }

  // What dropping acknowledged bytes leaves alone.
  lemma ArmedFrame(c: Conn, ackNo: int, env: Env)
    ensures var d := AckArmed(c, ackNo, env);
            d.used == c.used && d.state == c.state && d.rcv == c.rcv && d.peerFin == c.peerFin
  {
    hide SeqEq, SeqLt, AckedBytes;
  }

  lemma EstablishUsed(c: Conn, seg: Segment, env: Env)
    ensures Establish(SetWindow(c, seg), seg, env).used == c.used
  {
  }

  lemma WindowUpdateUsed(c: Conn, seg: Segment)
    ensures WindowUpdate(c, seg).used == c.used
  {
    hide SeqLt, SeqLe, SeqEq;
  }

  // ---------- timers and calls ----------

  lemma TimeoutKeeps(c: Conn, now: nat)
    requires Inv(c)
    ensures Inv(Timeout(c, now).conn)
  {
    hide SeqEq, SynTimeout, Probe, Resend, Inv;
    if c.state.SynSent? || c.state.SynReceived? {
      SynTimeoutKeeps(c, now);
    } else if DataState(c.state) {
      ProbeKeeps(c, now);
      ResendKeeps(c, now);
      if !(c.snd.wnd == 0 && |c.snd.tx| > 0) && SeqEq(c.snd.una, c.snd.nxt) { IdleTimerKeeps(c); }
    } else {
      IdleTimerKeeps(c);
    }
  }

  // With nothing outstanding the timer may stop.
  lemma IdleTimerKeeps(c: Conn)
    requires Inv(c) && !c.state.SynSent? && !c.state.SynReceived?
    requires DataState(c.state) ==> !(c.snd.wnd == 0 && |c.snd.tx| > 0) && SeqEq(c.snd.una, c.snd.nxt)
    ensures Inv(c.(timer := 0))
  {
    hide SeqEq;
    if DataState(c.state) { NothingInFlight(c.snd, FinCount(c.state)); }
  }

  lemma SynTimeoutKeeps(c: Conn, now: nat)
    requires Inv(c) && (c.state.SynSent? || c.state.SynReceived?)
    ensures Inv(SynTimeout(c, now).conn)
  {
    hide SendSyn, Fail;
    var r := c.(retries := c.retries + 1);
    FailKeeps(r, ETIMEDOUT);
    SendSynKeeps(Backoff(r), now);
  }

  lemma ProbeKeeps(c: Conn, now: nat)
    requires Inv(c) && DataState(c.state)
    ensures Inv(Probe(c, now).conn)
    ensures AllSent(c, Probe(c, now).sent) && AllBelow(Probe(c, now).sent, Probe(c, now).conn.snd.max)
    ensures SameSender(c.snd, Probe(c, now).conn.snd) && Probe(c, now).conn.snd.max == c.snd.max
    ensures SameReceiver(c.rcv, Probe(c, now).conn.rcv)
  {
    hide WindowPeek;
    WindowEdge(Backoff(c));
  }

  lemma ResendKeeps(c: Conn, now: nat)
    requires Inv(c) && DataState(c.state)
    ensures Inv(Resend(c, now).conn)
  {
    hide Output, Abort;
    var r := c.(retries := c.retries + 1);
    AbortKeeps(r, ETIMEDOUT);
    OutputKeeps(SetNxt(Backoff(r), r.snd.una).(timer := now + Backoff(r).rto), now);
  }

  lemma FailKeeps(c: Conn, error: int)
    requires RTO_MIN <= c.rto <= RTO_MAX
    ensures Inv(Fail(c, error))
  {
  }

  lemma AbortKeeps(c: Conn, error: int)
    requires RTO_MIN <= c.rto <= RTO_MAX
    ensures Inv(Abort(c, error).conn)
  {
  }

  lemma TickKeeps(c: Conn, now: nat)
    requires Inv(c)
    ensures Inv(Tick(c, now).conn)
  {
    hide Timeout;
    TimeoutKeeps(c, now);
  }

  lemma ConnectKeeps(entropy: nat, now: nat, reachable: bool)
    ensures Inv(Connect(entropy, now, reachable).conn)
  {
    hide SendSyn;
    SendSynKeeps(FreshBlock(entropy).(state := SynSent), now);
  }

  lemma ReadKeeps(c: Conn, cap: nat, now: nat)
    requires Inv(c)
    ensures Inv(Read(c, cap, now).out.conn)
  {
    hide SeqLt, Diff, WindowPeek, Output;
    var r := Read(c, cap, now).out.conn;
    if Unconnected(c.state) {
      assert r == c;
    } else if c.error != 0 {
      assert r == c.(error := 0);
    } else if |c.rcv.rx| == 0 {
      assert r == c;
    } else {
      var taken := c.(rcv := c.rcv.(rx := c.rcv.rx[Min(cap, |c.rcv.rx|)..]));
      OutputKeeps(taken.(ackNow := true), now);
      assert r == taken || r == Output(taken.(ackNow := true), now).conn;
    }
  }

  lemma WriteKeeps(c: Conn, data: seq<Byte>, now: nat)
    requires Inv(c)
    ensures Inv(Write(c, data, now).out.conn)
  {
    hide Output;
    var w := Write(c, data, now).out.conn;
    if Unconnected(c.state) {
      assert w == c;
    } else if c.error != 0 {
      assert w == c.(error := 0);
    } else if c.finPending || (!c.state.Established? && !c.state.CloseWait?) || |c.snd.tx| >= BUFFER_SIZE {
      assert w == c;
    } else {
      var count := Min(|data|, BUFFER_SIZE - |c.snd.tx|);
      var queued := c.(snd := c.snd.(tx := c.snd.tx + data[..count]));
      OutputKeeps(queued, now);
      assert w == Output(queued, now).conn;
    }
  }

  lemma ShutdownKeeps(c: Conn, readSide: bool, writeSide: bool, now: nat)
    requires Inv(c)
    ensures Inv(Shutdown(c, readSide, writeSide, now).out.conn)
  {
    hide Output;
    if !Unconnected(c.state) && !c.state.Closed? {
      if readSide {
        OutputKeeps(c.(readShut := true, rcv := c.rcv.(rx := [])).(finPending := true), now);
      } else {
        OutputKeeps(c.(finPending := true), now);
      }
    }
  }

  lemma CloseKeeps(c: Conn, now: nat)
    requires Inv(c)
    ensures Inv(Close(c, now).conn)
  {
    hide Output, Abort;
    var o := c.(orphan := true);
    AbortKeeps(o, 0);
    if Synchronized(c.state) {
      OutputKeeps(o.(rcv := c.rcv.(rx := []), finPending := true,
                     life := if c.state.TimeWait? then c.life else now + ORPHAN_LIFE_MS), now);
    }
  }

  // ---------- small facts ----------

  lemma ClosedOutput(c: Conn, now: nat)
    requires c.state.Closed?
    ensures Output(c, now) == Out(c, [])
  {
  }

  lemma EstablishState(c: Conn, seg: Segment, env: Env)
    ensures Establish(c, seg, env).state.Established?
  {
  }

  lemma UpdateState(c: Conn, seg: Segment)
    ensures WindowUpdate(c, seg).state == c.state
  {
    hide SeqLt, SeqLe, SeqEq;
  }

  lemma ListenStarts(entropy: nat)
    ensures Inv(FreshBlock(entropy).(state := Listen))
  {
  }

  lemma ShutReady(c: Conn, readSide: bool)
    requires Inv(c) && !Unconnected(c.state)
    ensures Core((if readSide then c.(readShut := true, rcv := c.rcv.(rx := [])) else c).(finPending := true))
  {
  }

  lemma BackoffCore(c: Conn, now: nat)
    requires Inv(c) && DataState(c.state)
    ensures var r := c.(retries := c.retries + 1); Core(SetNxt(Backoff(r), r.snd.una).(timer := now + Backoff(r).rto))
  {
  }

  // The SYN a block sends: with an acknowledgement exactly in SYN_RECEIVED.
  lemma SynIs(c: Conn, now: nat)
    ensures var o := SendSyn(c, now);
            && o.sent
               == [Segment(c.snd.iss, if c.state.SynReceived? then c.rcv.nxt
                                                                   else 0, true, c.state.SynReceived?, false, false,
                                                                        WindowPeek(c), MSS_MAX, [])]
            && o.conn.state == c.state && o.conn.used == c.used && o.conn.snd.iss == c.snd.iss
               && o.conn.rcv.nxt == c.rcv.nxt
            && o.conn.ackNow == (c.ackNow && !c.state.SynReceived?)
  {
    hide WindowPeek, SeqLt;
  }

  lemma InvHandshake(c: Conn)
    requires Inv(c) && (c.state.SynSent? || c.state.SynReceived?)
    ensures Handshake(c)
  {
  }
}
