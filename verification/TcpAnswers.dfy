/**
 How one end answers the other: probes of a closed window always draw the current window, an open
 against nobody is refused, a forgotten connection is reset, text is taken up to the room there is,
 and the retransmission timer runs exactly while something waits.
 */
module TcpAnswers {
  import opened TcpSpec
  import opened TcpInvariant
  import opened TcpWrap
  import opened TcpSystem
  import opened TcpRuns
  import opened TcpWindow
  import opened TcpFlow
  import opened TcpHeed
  import opened TcpReplies
  import opened TcpProgress

  // ---------- probes ----------

  // An empty segment left of the receiver's window.
  predicate Behind(c: Conn, seg: Segment) {
    seg.data == [] && !seg.syn && !seg.fin && !seg.rst && 0 < c.rcv.nxt - seg.seqNo < HALF
  }

  lemma NeverAcceptable(c: Conn, seg: Segment)
    requires Behind(c, seg)
    ensures !Acceptable(c, seg)
  {
    hide SeqLt, SeqEq;
    SeqExact(seg.seqNo, c.rcv.nxt);
    SeqExact(c.rcv.nxt, seg.seqNo);
  }

  // A segment left of the window is answered with the current window before anything else.
  lemma BehindIsAnswered(c: Conn, seg: Segment, env: Env)
    requires Inv(c) && c.used && Synchronized(c.state) && Behind(c, seg)
    ensures Announces(c, Input(c, seg, env).sent)
  {
    hide Inv, Core, Acceptable, Output, SegmentInput, Synchronized, Announces, SeqLt, WindowPeek;
    SyncedIsConnected(c.state);
    NeverAcceptable(c, seg);
    Unacceptable(c, seg, env);
    var d := c.(ackNow := true);
    InvIsCore(c);
    AckOwedCore(c);
    OwedIsAnnounced(d, env.now);
    AnnouncesSame(d, c, Output(d, env.now).sent);
    assert [] + Output(d, env.now).sent == Output(d, env.now).sent;
  }

  lemma Unacceptable(c: Conn, seg: Segment, env: Env)
    requires !Acceptable(c, seg) && !c.state.SynSent? && !seg.rst && !seg.fin
    ensures SegmentInput(c, seg, env) == Out(c.(ackNow := true), [])
  {
    hide Acceptable, SynSentInput, ResetInput, TextInput, AckAdvance, WindowUpdate, Establish;
  }

  // The probe itself: one empty segment numbered before snd_una, and only timer and timeout change.
  lemma ProbeIs(c: Conn, now: nat)
    requires DataState(c.state) && c.snd.wnd == 0 && |c.snd.tx| > 0
    ensures var o := Timeout(c, now);
            && |o.sent| == 1 && o.sent[0].seqNo == c.snd.una - 1 && o.sent[0].data == [] && o.sent[0].ack
            && !o.sent[0].syn && !o.sent[0].fin && !o.sent[0].rst
            && o.conn.snd == c.snd && o.conn.state == c.state && o.conn.retries == c.retries
            && o.conn.rto == Doubled(c.rto, 1) && o.conn.timer == now + o.conn.rto
  {
    hide WindowPeek, Timeout;
    ProbeTimeout(c, now);
  }

  lemma ProbeTimeout(c: Conn, now: nat)
    requires DataState(c.state) && c.snd.wnd == 0 && |c.snd.tx| > 0
    ensures Timeout(c, now) == Probe(c, now)
  {
    hide SeqEq, Resend, SynTimeout, Probe;
  }

  /**
   In every run the probe of a closed window is answered: whatever the peer has received by then,
   the probe lies left of its window, is never acceptable, and draws an acknowledgement with the
   window the peer has at that moment.
   */
  lemma ProbeIsAnswered(moves: seq<Move>, left: bool, now: nat, env: Env)
    requires Legal(moves)
    requires var c := One(Reached(moves), left).conn; DataState(c.state) && c.snd.wnd == 0 && |c.snd.tx| > 0
    requires var d := One(Reached(moves), !left).conn; d.used && Synchronized(d.state)
    ensures var c, d := One(Reached(moves), left).conn, One(Reached(moves), !left).conn;
            var probe := Timeout(c, now).sent;
            |probe| == 1 && !Acceptable(d, probe[0]) && Announces(d, Input(d, probe[0], env).sent)
  {
    var p := Reached(moves);
    EveryRunKeeps(moves);
    EitherEnd(p, left);
    EitherEnd(p, !left);
    var x, y := One(p, left), One(p, !left);
    hide Reached, Legal, Inv, Acceptable, Announces, Timeout, Input;
    ProbeIs(x.conn, now);
    LeftOfWindow(x, SentBy(p, left), y, SentBy(p, !left));
    NeverAcceptable(y.conn, Timeout(x.conn, now).sent[0]);
    BehindIsAnswered(y.conn, Timeout(x.conn, now).sent[0], env);
  }

  lemma LeftOfWindow(x: Side, nx: Net, y: Side, ny: Net)
    requires Good(x, nx, y, ny) && DataState(x.conn.state) && Synchronized(y.conn.state)
    ensures 0 < y.conn.rcv.nxt - (x.conn.snd.una - 1) < HALF
  {
    assert Acking(x, y, ny) && Receiving(x, y) && Core(x.conn);
  }

  // ---------- nobody there ----------

  /** An open against an end that is closed is refused: its SYN draws a reset that fails it with ECONNREFUSED. */
  lemma OpenIsRefused(entropy: nat, at: nat, peer: Conn, env: Env)
    requires !peer.used || peer.state.Closed?
    ensures var c := Connect(entropy, at, true);
            |c.sent| == 1 && var reply := Input(peer, c.sent[0], env);
            && reply.conn == peer && |reply.sent| == 1
            && var d := Input(c.conn, reply.sent[0], env).conn;
            d.state.Closed? && d.error == ECONNREFUSED
  {
    hide WindowPeek, Output, SegmentInput;
    var c := Connect(entropy, at, true);
    SynOut(entropy, at);
    var reset := Input(peer, c.sent[0], env).sent[0];
    assert reset == ResetSegment(0, c.sent[0].seqNo + 1, true);
    ResetRefuses(c.conn, reset, env);
    ClosedOutput(SegmentInput(c.conn, reset, env).conn, env.now);
  }

  lemma SynOut(entropy: nat, at: nat)
    ensures var c := Connect(entropy, at, true);
            && |c.sent| == 1 && c.sent[0].syn && !c.sent[0].ack && !c.sent[0].fin && !c.sent[0].rst
               && c.sent[0].data == []
            && c.sent[0].seqNo == entropy && c.conn.state.SynSent? && c.conn.used
            && c.conn.snd.iss == entropy && c.conn.snd.nxt == entropy + 1
  {
    hide WindowPeek, SeqLt;
  }

  lemma ResetRefuses(c: Conn, reset: Segment, env: Env)
    requires c.state.SynSent? && reset.rst && reset.ack && reset.ackNo == c.snd.iss + 1 == c.snd.nxt
    ensures var d := SegmentInput(c, reset, env).conn; d.state.Closed? && d.error == ECONNREFUSED
    ensures SegmentInput(c, reset, env).sent == []
  {
    SynSentDispatch(c, reset, env);
    SeqExact(c.snd.iss, reset.ackNo);
    SeqExact(reset.ackNo, c.snd.nxt);
    hide SeqLt, SeqLe, SegmentInput, ReplyReset;
  }

  /**
   A peer that has forgotten the connection ends it: any segment a synchronized block sends to an
   end that is closed draws a reset numbered rcv_nxt, which closes the block unless it is in TIME_WAIT.
   */
  lemma ForgottenIsReset(c: Conn, seg: Segment, peer: Conn, env: Env)
    requires Inv(c) && c.used && Synchronized(c.state) && !c.state.TimeWait? && (!peer.used || peer.state.Closed?)
    requires Sent(c.snd, c.rcv, c.finPending, seg) && seg.ack
    ensures var reply := Input(peer, seg, env);
            reply.conn == peer && |reply.sent| == 1 && Input(c, reply.sent[0], env).conn.state.Closed?
  {
    hide Inv, Core, Synchronized, Acceptable;
    AckOf(c, seg);
    var reset := ResetSegment(seg.ackNo, 0, false);
    assert Input(peer, seg, env) == Out(peer, [reset]);
    NextIsAcceptable(c, reset);
    hide Input;
    ResetCloses(c, reset, env);
  }

  lemma AckOf(c: Conn, seg: Segment)
    requires Sent(c.snd, c.rcv, c.finPending, seg) && seg.ack
    ensures seg.ackNo == c.rcv.nxt && !seg.rst
  {
  }

  lemma NextIsAcceptable(c: Conn, seg: Segment)
    requires Inv(c) && Synchronized(c.state) && seg.seqNo == c.rcv.nxt && SegmentLength(seg) == 0
    ensures Acceptable(c, seg) && SeqEq(seg.seqNo, c.rcv.nxt)
  {
    assert |c.rcv.rx| <= BUFFER_SIZE;
    hide SeqLt, SeqEq, Inv;
    SeqExact(c.rcv.nxt, c.rcv.nxt);
    if |c.rcv.rx| < BUFFER_SIZE { SeqExact(c.rcv.nxt, c.rcv.nxt + (BUFFER_SIZE - |c.rcv.rx|)); }
  }

  // ---------- text ----------

  /**
   What tcp_text_input does with text, in plain numbers: what lies left of rcv_nxt is skipped, text
   that then starts at rcv_nxt is taken as far as there is room (all of it if reading is shut) or
   resets the connection if its owner is gone, and everything else is only answered.
   */
  lemma TextIsTakenWhole(c: Conn, seg: Segment)
    requires -HALF <= seg.seqNo - c.rcv.nxt < HALF - 0x1_0000 && 0 < |seg.data| < 0x1_0000 && |c.rcv.rx| <= BUFFER_SIZE
    ensures var at, d := c.rcv.nxt - seg.seqNo, AcceptText(c, seg).conn;
            if at >= |seg.data| then d == c
            else if at < 0 || !TakesData(c.state) then d == c.(ackNow := true)
            else if c.orphan then d.state.Closed? && d.error == ECONNRESET && |AcceptText(c, seg).sent| == 1
            else var k := if c.readShut then |seg.data| - at else Min(|seg.data| - at, BUFFER_SIZE - |c.rcv.rx|);
                 && d.rcv.nxt == c.rcv.nxt + k && d.ackNow
                 && d.rcv.rx == c.rcv.rx + (if c.readShut then [] else seg.data[at..at + k])
  {
    hide SeqEq, Overlap, Abort, AcceptText;
    OverlapExact(c, seg);
    TextCases(c, seg, Overlap(c, seg));
    if TakesData(c.state) { AbortIs(c); }
  }

  lemma AbortIs(c: Conn)
    requires TakesData(c.state)
    ensures var o := Abort(c, ECONNRESET); o.conn.state.Closed? && o.conn.error == ECONNRESET && |o.sent| == 1
  {
  }

  // The same with the overlap and the comparison as the code finds them.
  lemma TextCases(c: Conn, seg: Segment, skip: nat)
    requires skip == Overlap(c, seg) && |c.rcv.rx| <= BUFFER_SIZE
    ensures var o, here := AcceptText(c, seg), SeqEq(seg.seqNo + skip, c.rcv.nxt);
            if skip == |seg.data| then o.conn == c
            else if !TakesData(c.state) || !here then o.conn == c.(ackNow := true)
            else if c.orphan then o == Abort(c, ECONNRESET)
            else var k := if c.readShut then |seg.data| - skip else Min(|seg.data| - skip, BUFFER_SIZE - |c.rcv.rx|);
                 && o.conn.rcv.nxt == c.rcv.nxt + k && o.conn.ackNow
                 && o.conn.rcv.rx == c.rcv.rx + (if c.readShut then [] else seg.data[skip..skip + k])
  {
    hide SeqEq, Overlap, Abort;
    var data := seg.data[skip..];
    var k := Min(|data|, BUFFER_SIZE - |c.rcv.rx|);
    assert data[..k] == seg.data[skip..skip + k];
  }

  /** The acceptance test of RFC 793 section 3.9, in plain numbers. */
  lemma AcceptableIff(c: Conn, seg: Segment)
    requires -HALF < seg.seqNo - c.rcv.nxt < HALF - 0x2_0000 && |seg.data| < 0x1_0000 && |c.rcv.rx| <= BUFFER_SIZE
    ensures var from, upto, len := c.rcv.nxt, c.rcv.nxt + BUFFER_SIZE - |c.rcv.rx|, SegmentLength(seg);
            var last := seg.seqNo + len - 1;
            Acceptable(c, seg) <==>
            if from == upto then seg.data == [] && seg.seqNo == from
            else from <= seg.seqNo < upto || (len > 0 && from <= last < upto)
  {
    hide SeqLt, SeqEq, SegmentLength;
    assert 0 <= SegmentLength(seg) <= |seg.data| + 2 by { LengthIs(seg); }
    var window, len := BUFFER_SIZE - |c.rcv.rx|, SegmentLength(seg);
    LengthIs(seg);
    SeqExact(seg.seqNo, c.rcv.nxt);
    InWindowIff(c, window, seg.seqNo);
    if len > 0 { InWindowIff(c, window, seg.seqNo + len - 1); }
  }

  lemma LengthIs(seg: Segment)
    ensures |seg.data| <= SegmentLength(seg) <= |seg.data| + 2 && (SegmentLength(seg) == 0 ==> seg.data == [])
  {
  }

  lemma InWindowIff(c: Conn, window: nat, seqNo: int)
    requires -HALF < seqNo - c.rcv.nxt < HALF - 0x1_0000 && window <= BUFFER_SIZE
    ensures InWindow(c, window, seqNo) <==> c.rcv.nxt <= seqNo < c.rcv.nxt + window
  {
    hide SeqLt, SeqEq;
    SeqExact(c.rcv.nxt, seqNo);
    if c.rcv.nxt <= seqNo { SeqExact(seqNo, c.rcv.nxt + window); }
  }

  /**
   A segment whose text reaches past rcv_nxt, wherever it starts, advances the stream by all of its
   new bytes, if they fit, and by as many as fit if it starts at rcv_nxt.
   */
  lemma NewBytesAreTaken(c: Conn, seg: Segment, env: Env)
    requires Inv(c) && c.used && TakesData(c.state) && !c.orphan && !c.readShut && |c.rcv.rx| < BUFFER_SIZE
    requires seg.ack && !seg.rst && !seg.syn && !seg.fin && |seg.data| < 0x1_0000
    requires c.snd.una <= seg.ackNo <= c.snd.max
    requires var at, room := c.rcv.nxt - seg.seqNo, BUFFER_SIZE - |c.rcv.rx|;
             0 <= at < |seg.data| && (at == 0 || |seg.data| - at <= room)
    ensures var at, room := c.rcv.nxt - seg.seqNo, BUFFER_SIZE - |c.rcv.rx|;
            Input(c, seg, env).conn.rcv.nxt == c.rcv.nxt + Min(|seg.data| - at, room)
  {
    hide Core, Inv, Acceptable, SegmentInput, Output, SeqLt, SeqLe, SeqEq, AckAdvance, WindowUpdate, TextInput;
    InvIsCore(c);
    BoundsOf(c);
    AcceptableIff(c, seg);
    SeqExact(c.snd.max, seg.ackNo);
    SeqExact(c.snd.una, seg.ackNo);
    var acked := if SeqLt(c.snd.una, seg.ackNo) then AckAdvance(c, seg.ackNo, env) else c;
    AckedReceptive(c, seg.ackNo, env);
    UpdateReceptive(acked, seg);
    AcceptedIs(c, seg, env);
    AckedShut(c, seg, env);
    var d := WindowUpdate(acked, seg);
    TakenText(d, seg, env.now);
    NearSegment(c, seg);
    SegmentInputKeeps(c, seg, env);
    OutputKeeps(SegmentInput(c, seg, env).conn, env.now);
  }

  lemma NearSegment(c: Conn, seg: Segment)
    requires |seg.data| < 0x1_0000 && c.snd.una <= seg.ackNo <= c.snd.una + HALF
    ensures Near(c, seg)
  {
  }

  lemma AckedShut(c: Conn, seg: Segment, env: Env)
    requires Core(c) && Receptive(c) && c.snd.una <= seg.ackNo <= c.snd.max
    ensures var acked := if SeqLt(c.snd.una, seg.ackNo) then AckAdvance(c, seg.ackNo, env) else c;
            WindowUpdate(acked, seg).readShut == c.readShut
  {
    hide Core, AckAdvance, AckedBytes, FinAcked, SeqLt, SeqLe, SeqEq;
    BoundsOf(c);
    SeqExact(c.snd.una, seg.ackNo);
    if c.snd.una < seg.ackNo {
      AckedBytesExact(c, seg.ackNo);
      AckAdvanceValue(c, seg.ackNo, env);
    }
  }

  lemma TakenText(d: Conn, seg: Segment, now: nat)
    requires Receptive(d) && !d.readShut && !seg.fin && 0 < |seg.data| < 0x1_0000
    requires var at := d.rcv.nxt - seg.seqNo; 0 <= at < |seg.data|
    ensures var o := TextInput(d, seg, now).conn;
            o.used && o.rcv.nxt == d.rcv.nxt + Min(|seg.data| - (d.rcv.nxt - seg.seqNo), BUFFER_SIZE - |d.rcv.rx|)
  {
    hide AcceptText, SeqEq;
    TextIsTakenWhole(d, seg);
    UsedStill(d, seg);
  }

  lemma UsedStill(d: Conn, seg: Segment)
    requires d.used && !d.orphan
    ensures AcceptText(d, seg).conn.used
  {
    hide Overlap, SeqEq;
  }

  // The count of tries after an acknowledgement: news or a closed window start it again.
  lemma TriesStartAgain(c: Conn, seg: Segment, env: Env)
    requires c.used && Inv(c) && Near(c, seg) && Synchronized(c.state)
    requires Acceptable(c, seg) && !seg.rst && !seg.syn && seg.ack && c.snd.una <= seg.ackNo <= c.snd.max
    ensures var d := SegmentInput(c, seg, env).conn;
            !d.state.Closed? ==> d.retries == if c.snd.una < seg.ackNo || seg.window == 0 then 0 else c.retries
  {
    hide SeqEq, SeqLt, SeqLe, Acceptable, TextInput, AckAdvance, WindowUpdate, SegmentInput, Inv, Near, Synchronized;
    SyncedIsConnected(c.state);
    SeqExactHere(c, seg);
    InRange(c, seg);
    AckTries(c, seg.ackNo, env);
    InUse(c, seg.ackNo, env);
    var acked := if SeqLt(c.snd.una, seg.ackNo) then AckAdvance(c, seg.ackNo, env) else c;
    UpdateTries(acked, seg);
    TextTries(WindowUpdate(acked, seg), seg, env.now);
    ClosedEarly(c, seg, env);
    if acked.used && !acked.state.Closed? { AcceptedIs(c, seg, env); }
  }

  lemma ClosedEarly(c: Conn, seg: Segment, env: Env)
    requires !c.state.SynSent? && !c.state.SynReceived? && Acceptable(c, seg) && !seg.rst && !seg.syn && seg.ack
    requires !SeqLt(c.snd.max, seg.ackNo)
    ensures var acked := if SeqLt(c.snd.una, seg.ackNo) then AckAdvance(c, seg.ackNo, env) else c;
            acked.state.Closed? ==> SegmentInput(c, seg, env).conn.state.Closed?
  {
    hide Acceptable, SeqLt, TextInput, AckAdvance, WindowUpdate, SynSentInput, ResetInput, Establish;
  }

  lemma AckTries(c: Conn, ackNo: int, env: Env)
    ensures AckAdvance(c, ackNo, env).retries == 0
  {
    hide SeqLt, SeqEq, AckedBytes, FinAcked, AckArmed, Finish, EnterTimeWait;
    ArmedTries(c, ackNo, env);
    FinishValue(AckArmed(c, ackNo, env));
    EnterTimeWaitValue(AckArmed(c, ackNo, env), env.now);
  }

  lemma ArmedTries(c: Conn, ackNo: int, env: Env)
    ensures AckArmed(c, ackNo, env).retries == 0
  {
    hide SeqLt, SeqEq, AckedBytes;
  }

  lemma UpdateTries(c: Conn, seg: Segment)
    ensures WindowUpdate(c, seg).retries == if seg.window == 0 then 0 else c.retries
  {
    hide SeqLt, SeqEq, SeqLe;
  }

  lemma TextTries(c: Conn, seg: Segment, now: nat)
    ensures TextInput(c, seg, now).conn.retries == c.retries
  {
    hide SeqEq, Overlap;
  }

  // ---------- the retransmission timer ----------

  // Something is in flight, or text waits behind a closed window.
  predicate Busy(s: Sender) { s.una != s.nxt || (|s.tx| > 0 && s.wnd == 0) }

  /** tcp_output leaves the timer running exactly while the block is busy, and starts it with the full timeout. */
  lemma TimerRunsWhileBusy(c: Conn, now: nat)
    requires Core(c) && DataState(c.state)
    ensures var d := Output(c, now).conn;
            d.timer == (if !Busy(d.snd) then 0 else if c.timer == 0 then now + c.rto else c.timer)
  {
    var pulled := Pulled(c);
    var data := SendData(pulled);
    var fin := SendFin(data.conn);
    var ack := SendAck(fin.conn);
    hide *;
    OutputUnfolds(c, now);
    PulledKeeps(c);
    PulledRto(c);
    SendDataKeeps(pulled);
    SendFinKeeps(data.conn);
    SynchronizedData(fin.conn.state);
    SendAckKeeps(fin.conn);
    SameRto(pulled, data.conn);
    SameRto(data.conn, fin.conn);
    SameRto(fin.conn, ack.conn);
    AckOrderCore(ack.conn);
    ArmIs(ack.conn, now);
  }

  lemma PulledRto(c: Conn)
    ensures Pulled(c).timer == c.timer && Pulled(c).state == c.state && Pulled(c).rto == c.rto
  {
  }

  lemma SameRto(c: Conn, d: Conn)
    requires Transmitted(c, d)
    ensures d.rto == c.rto
  {
  }

  lemma ArmIs(c: Conn, now: nat)
    requires SeqEq(c.snd.una, c.snd.nxt) <==> c.snd.una == c.snd.nxt
    ensures ArmTimer(c, now).snd == c.snd
    ensures ArmTimer(c, now).timer == if !Busy(c.snd) then 0 else if c.timer == 0 then now + c.rto else c.timer
  {
    hide SeqEq;
  }

  /** An acknowledgement that moves snd_una restarts the timer and the count of tries, or stops it if all is
  acknowledged. */
  lemma AckRestartsTimer(c: Conn, ackNo: int, env: Env)
    requires Core(c) && DataState(c.state) && c.snd.una < ackNo <= c.snd.max
    ensures var d := AckAdvance(c, ackNo, env);
            DataState(d.state) ==>
              d.retries == 0 && d.timer == (if d.snd.una == d.snd.nxt then 0 else env.now + d.rto)
  {
    hide SeqLt, SeqEq, AckedBytes, FinAcked, Core;
    OrderOf(c);
    AckedBytesExact(c, ackNo);
    AckArmedValue(c, ackNo, env);
    var d := AckArmed(c, ackNo, env);
    SeqExact(d.snd.una, d.snd.nxt);
  }

  lemma OrderOf(c: Conn)
    requires Core(c) && DataState(c.state)
    ensures SendOrder(c.snd, FinCount(c.state)) && (FinOut(c.state) ==> c.finPending)
    ensures c.snd.nxt <= c.snd.una + BUFFER_SIZE + 1
  {
  }

  // ---------- closing ----------

  /**
   Closing a connection with unread bytes resets the peer and drops the block; otherwise its stream
   ends behind what is queued, at once if nothing is unsent, and the orphan has thirty seconds.
   */
  lemma CloseEndsTheStream(c: Conn, now: nat)
    requires Inv(c) && (c.state.Established? || c.state.CloseWait?)
    ensures var o := Close(c, now);
            if |c.rcv.rx| > 0
            then o.conn.state.Closed? && !o.conn.used && |o.sent| == 1 && o.sent[0].rst && o.sent[0].seqNo == c.snd.nxt
            else && o.conn.orphan && o.conn.finPending && o.conn.life == now + ORPHAN_LIFE_MS
                 && o.conn.snd.tx == c.snd.tx
                 && (c.snd.nxt == c.snd.una + |c.snd.tx| && !(c.snd.wnd == 0 && |c.snd.tx| > 0) ==>
                       o.conn.state == FinSentState(c.state) && o.conn.snd.nxt == c.snd.nxt + 1)
  {
    hide Output, Core, Inv, SeqLt, WindowPeek;
    if |c.rcv.rx| == 0 {
      var d := c.(orphan := true).(rcv := c.rcv.(rx := []), finPending := true, life := now + ORPHAN_LIFE_MS);
      CloseReady(c, now + ORPHAN_LIFE_MS);
      OutputKeeps(d, now);
      if c.snd.nxt == c.snd.una + |c.snd.tx| && !(c.snd.wnd == 0 && |c.snd.tx| > 0) { FinGoesOut(d, now); }
    }
  }

  // With every byte sent and a FIN pending, tcp_output sends the FIN.
  lemma FinGoesOut(c: Conn, now: nat)
    requires Core(c) && DataState(c.state) && c.finPending && c.snd.nxt == c.snd.una + |c.snd.tx|
             && !(c.snd.wnd == 0 && |c.snd.tx| > 0)
    ensures var d := Output(c, now).conn; d.state == FinSentState(c.state) && d.snd.nxt == c.snd.nxt + 1
  {
    InFlight(c.snd, FinCount(c.state));
    ChunkIs(c);
    RingFits(c);
    hide SeqEq, SeqLt, Diff, WindowPeek, Core, ChunkLength, Output, SendFin, ArmTimer, SendAck;
    OutputUnfolds(c, now);
    PulledStays(c);
    assert SendData(c) == Out(c, []);
    MaxNear(c);
    SendFinValue(c);
    AckLeavesSender(SendFin(c).conn, now);
    AckLeavesSender(SendAck(SendFin(c).conn).conn, now);
    StateStays(SendFin(c).conn, now);
    StateStays(SendAck(SendFin(c).conn).conn, now);
  }

  lemma PulledStays(c: Conn)
    requires !(c.snd.wnd == 0 && |c.snd.tx| > 0)
    ensures Pulled(c) == c
  {
  }

  lemma MaxNear(c: Conn)
    requires Core(c) && DataState(c.state)
    ensures -HALF <= c.snd.max - c.snd.nxt - 1 < HALF
  {
  }

  lemma StateStays(c: Conn, now: nat)
    ensures SendAck(c).conn.state == c.state && ArmTimer(c, now).state == c.state
  {
    hide WindowPeek, SeqEq;
  }
}
