/**
 What the calls of a connection announce and when it gives up: a read opens the window in steps
 worth sending, a write takes what fits, a reset closes exactly when it is meant for the block, and
 retransmission doubles its timeout until the tries run out.
 */
module TcpReplies {
  import opened TcpSpec
  import opened TcpInvariant
  import opened TcpWrap
  import TcpSystem
  import opened TcpWindow
  import opened TcpFlow
  import opened TcpHeed

  // ---------- reading opens the window ----------

  // An acknowledgement that announces the window a block offers now.
  predicate Announces(c: Conn, sent: seq<Segment>) {
    sent != [] && sent[0].ack && sent[0].ackNo == c.rcv.nxt && sent[0].window == WindowPeek(c)
  }

  lemma SameAnnouncement(c: Conn, d: Conn)
    requires d.rcv == c.rcv && d.mss == c.mss
    ensures WindowPeek(d) == WindowPeek(c)
  {
    hide SeqLt, Diff;
  }

  lemma EmitsFirst(c: Conn)
    ensures c.ackNow ==> Announces(c, SendAck(c).sent)
    ensures SendFin(c) == Out(c, []) || Announces(c, SendFin(c).sent)
    ensures ChunkLength(c) > 0 ==> Announces(c, SendChunk(c).sent)
  {
    hide SeqLt, SeqEq, Diff, WindowPeek, ChunkLength;
  }

  // The first of three runs of segments that is not empty comes first.
  lemma FirstOf(c: Conn, a: seq<Segment>, b: seq<Segment>, d: seq<Segment>)
    requires Announces(c, a) || (a == [] && (Announces(c, b) || (b == [] && Announces(c, d))))
    ensures Announces(c, a + b + d)
  {
    hide WindowPeek;
  }

  lemma DataFirst(c: Conn)
    requires |c.snd.tx| <= BUFFER_SIZE
    ensures if ChunkLength(c) == 0 then SendData(c) == Out(c, []) else Announces(c, SendData(c).sent)
  {
    hide SendChunk, ChunkLength, WindowPeek;
    EmitsFirst(c);
  }

  // tcp_output of a block that owes an acknowledgement announces the window before anything else.
  lemma OwedIsAnnounced(c: Conn, now: nat)
    requires Core(c) && Synchronized(c.state) && c.ackNow
    ensures Announces(c, Output(c, now).sent)
  {
    hide Core, SendChunk, SendFin, SendAck, WindowPeek, SendSyn, ArmTimer, Announces, Inv;
    EmitsFirst(c);
    if DataState(c.state) {
      hide SendData, Output, Pulled, ChunkLength;
      var pulled := Pulled(c);
      OutputUnfolds(c, now);
      PulledOnly(c);
      PulledKeeps(c);
      RingFits(pulled);
      DataFirst(pulled);
      var data := SendData(pulled);
      if data == Out(pulled, []) {
        EmitsFirst(pulled);
        FirstOf(pulled, [], SendFin(pulled).sent, SendAck(SendFin(pulled).conn).sent);
      } else {
        FirstOf(pulled, data.sent, SendFin(data.conn).sent, SendAck(SendFin(data.conn).conn).sent);
      }
      AnnouncesSame(pulled, c, Output(c, now).sent);
    }
  }

  lemma PulledOnly(c: Conn)
    ensures Pulled(c).rcv == c.rcv && Pulled(c).mss == c.mss && Pulled(c).ackNow == c.ackNow
            && Pulled(c).state == c.state
  {
  }

  lemma AnnouncesSame(c: Conn, d: Conn, sent: seq<Segment>)
    requires Announces(c, sent) && d.rcv == c.rcv && d.mss == c.mss
    ensures Announces(d, sent)
  {
    hide WindowPeek;
    SameAnnouncement(c, d);
  }

  // The window field, in plain numbers: all free space once that is a step more than was promised.
  lemma WindowOffers(c: Conn)
    requires RecvBounds(c.rcv) && c.rcv.nxt <= c.rcv.adv
    ensures var free, offered := BUFFER_SIZE - |c.rcv.rx|, c.rcv.adv - c.rcv.nxt;
            WindowPeek(c) == if free - offered >= Min(c.mss, BUFFER_SIZE / 2) then free else offered
  {
    hide SeqLt, Diff;
    SeqExact(c.rcv.nxt, c.rcv.adv);
    DiffExact(c.rcv.adv, c.rcv.nxt);
  }

  /**
   A read returns the oldest bytes, as many as asked for or all there are.  It announces the window
   exactly when the free space has grown past the promised edge by a full segment or half the
   buffer, and then it offers all of the free space.
   */
  lemma ReadReopens(c: Conn, cap: nat, now: nat)
    requires Inv(c) && Synchronized(c.state) && c.error == 0 && |c.rcv.rx| > 0
    ensures var r, count := Read(c, cap, now), Min(cap, |c.rcv.rx|);
            var free := BUFFER_SIZE - |c.rcv.rx| + count;
            && r.reply == Done(c.rcv.rx[..count]) && r.out.conn.rcv.rx == c.rcv.rx[count..]
            && (if free - (c.rcv.adv - c.rcv.nxt) >= Min(c.mss, BUFFER_SIZE / 2)
                then r.out.sent != [] && r.out.sent[0].ack && r.out.sent[0].ackNo == c.rcv.nxt
                     && r.out.sent[0].window == free && r.out.conn.rcv.adv == c.rcv.nxt + free
                else r.out.sent == [] && r.out.conn.rcv.adv == c.rcv.adv)
  {
    var count := Min(cap, |c.rcv.rx|);
    var taken := TakenFrom(c, count);
    var owed := taken.(ackNow := true);
    ReadIs(c, cap, now);
    TakenReady(c, count);
    Bounds(c);
    TakenBounds(c, count);
    OfferedIs(c);
    SyncedIsConnected(c.state);
    hide SeqLt, Diff, WindowPeek, Output, Read, Inv, Core, Offered, Synchronized, Announces, RecvBounds;
    WindowOffers(taken);
    SameAnnouncement(taken, owed);
    if WindowPeek(taken) > Offered(c) {
      OwedIsAnnounced(owed, now);
      AnnouncesIs(owed, Output(owed, now).sent);
      AnnouncedEdge(owed, now);
    }
  }

  lemma AnnouncesIs(c: Conn, sent: seq<Segment>)
    requires Announces(c, sent)
    ensures sent != [] && sent[0].ack && sent[0].ackNo == c.rcv.nxt && sent[0].window == WindowPeek(c)
  {
  }

  lemma SyncedIsConnected(s: State)
    requires Synchronized(s)
    ensures !Unconnected(s) && !s.Closed? && !s.SynSent?
  {
  }

  lemma Bounds(c: Conn)
    requires Inv(c) && Synchronized(c.state)
    ensures RecvBounds(c.rcv) && c.rcv.nxt <= c.rcv.adv && |c.rcv.rx| <= BUFFER_SIZE
            && c.rcv.adv <= c.rcv.nxt + BUFFER_SIZE - |c.rcv.rx|
  {
  }

  lemma TakenBounds(c: Conn, count: nat)
    requires RecvBounds(c.rcv) && count <= |c.rcv.rx|
    ensures RecvBounds(TakenFrom(c, count).rcv)
  {
  }

  lemma OfferedIs(c: Conn)
    requires RecvBounds(c.rcv) && c.rcv.nxt <= c.rcv.adv
    ensures Offered(c) == c.rcv.adv - c.rcv.nxt
  {
    hide SeqLt, Diff;
    SeqExact(c.rcv.nxt, c.rcv.adv);
    DiffExact(c.rcv.adv, c.rcv.nxt);
  }

  // Once all free space was announced the edge lies at its end.
  lemma AnnouncedEdge(c: Conn, now: nat)
    requires Core(c) && Synchronized(c.state) && Announces(c, Output(c, now).sent)
    ensures var d := Output(c, now).conn;
            d.rcv.rx == c.rcv.rx && (WindowPeek(c) == BUFFER_SIZE - |c.rcv.rx| ==>
                                       d.rcv.adv == c.rcv.nxt + BUFFER_SIZE - |c.rcv.rx|)
  {
    hide Output, Core, Inv, WindowPeek, Synchronized, DataState;
    OutputKeeps(c, now);
    OutputPromises(c, c, now);
    var o := Output(c, now);
    SentIsAck(c, o.sent[0]);
    assert o.sent[0] in o.sent;
    FrameSynchronized(c, o.conn);
    Bounds(o.conn);
  }

  lemma SentIsAck(c: Conn, seg: Segment)
    ensures Sent(c.snd, c.rcv, c.finPending, seg) ==> !seg.rst
  {
  }

  lemma FrameSynchronized(c: Conn, d: Conn)
    requires OutputFrame(c, d) && Synchronized(c.state)
    ensures Synchronized(d.state) && d.rcv.nxt == c.rcv.nxt && d.rcv.rx == c.rcv.rx
  {
  }

  // ---------- writing ----------

  /** A write takes as much as the ring has room for, in order, behind what is queued. */
  lemma WriteQueues(c: Conn, data: seq<Byte>, now: nat)
    requires Inv(c) && (c.state.Established? || c.state.CloseWait?) && !c.finPending && c.error == 0
    ensures var r, room := Write(c, data, now), BUFFER_SIZE - |c.snd.tx|;
            if room == 0 then r == CallOut(Out(c, []), Again)
            else && r.reply.Accepted? && r.reply.count <= |data|
                 && (r.reply.count == |data| || r.reply.count == room) && r.reply.count <= room
                 && r.out.conn.snd.tx == c.snd.tx + data[..r.reply.count]
  {
    hide Output;
    if |c.snd.tx| < BUFFER_SIZE {
      var d := c.(snd := c.snd.(tx := c.snd.tx + data[..Min(|data|, BUFFER_SIZE - |c.snd.tx|)]));
      assert Core(d);
      OutputKeeps(d, now);
    }
  }

  // ---------- resets ----------

  /**
   A reset closes a synchronized block exactly when it is acceptable and numbered rcv_nxt; any
   other acceptable one is answered with an acknowledgement, and TIME_WAIT ignores them all.
   */
  lemma ResetCloses(c: Conn, seg: Segment, env: Env)
    requires Inv(c) && c.used && Synchronized(c.state) && seg.rst && !(c.state.TimeWait? && seg.syn)
    ensures var o := Input(c, seg, env);
            && (o.conn.state.Closed? <==> Acceptable(c, seg) && SeqEq(seg.seqNo, c.rcv.nxt) && !c.state.TimeWait?)
            && (o.conn.state.Closed? ==>
                  && o.sent == []
                     && o.conn.error == (if c.state.Closing? || c.state.LastAck? then c.error else ECONNRESET)
                  && (c.state.Closing? || c.state.LastAck? || o.conn.rcv.rx == []))
            && (Acceptable(c, seg) && !SeqEq(seg.seqNo, c.rcv.nxt) && !c.state.TimeWait? ==>
                  o.sent != [] && o.sent[0].ack && o.sent[0].ackNo == c.rcv.nxt)
  {
    hide SeqLt, SeqEq, Acceptable, Output, Inv, Core, SegmentInput, Synchronized, Announces;
    SyncedIsConnected(c.state);
    ResetGot(c, seg, env);
    var d := SegmentInput(c, seg, env).conn;
    if d.state.Closed? {
      ClosedOutput(d, env.now);
    } else {
      OutputKeeps(d, env.now);
      FrameSynchronized(d, Output(d, env.now).conn);
      SyncedIsConnected(Output(d, env.now).conn.state);
      if d.ackNow {
        OwedIsAnnounced(d, env.now);
        AnnouncesIs(d, Output(d, env.now).sent);
      }
    }
  }

  lemma ResetGot(c: Conn, seg: Segment, env: Env)
    requires Inv(c) && Synchronized(c.state) && seg.rst
    ensures var o := SegmentInput(c, seg, env);
            && o.sent == []
            && (o.conn.state.Closed? <==> Acceptable(c, seg) && SeqEq(seg.seqNo, c.rcv.nxt) && !c.state.TimeWait?)
            && (o.conn.state.Closed? ==>
                  && o.conn.error == (if c.state.Closing? || c.state.LastAck? then c.error else ECONNRESET)
                  && (c.state.Closing? || c.state.LastAck? || o.conn.rcv.rx == []))
            && (!o.conn.state.Closed? ==> o.conn.used == c.used && Core(o.conn) && o.conn.state == c.state
                                          && o.conn.rcv == c.rcv)
            && (Acceptable(c, seg) && !SeqEq(seg.seqNo, c.rcv.nxt) && !c.state.TimeWait? ==> o.conn.ackNow)
  {
    hide SeqEq, Acceptable, Core, Inv, SegmentInput, Finish, Fail, ResetInput, Synchronized;
    SyncedIsConnected(c.state);
    TcpSystem.InvIsCore(c);
    AckOwedCore(c);
    ResetDispatch(c, seg, env);
    LifeOnly(c, SegmentInput(c, seg, env).conn.life);
    if Acceptable(c, seg) { ResetInputIs(c, seg); }
  }

  lemma ResetInputIs(c: Conn, seg: Segment)
    requires Synchronized(c.state)
    ensures var d := ResetInput(c, seg);
            if c.state.TimeWait? then d == c
            else if !SeqEq(seg.seqNo, c.rcv.nxt) then d == c.(ackNow := true)
            else && d.state.Closed?
                 && d.error == (if c.state.Closing? || c.state.LastAck? then c.error else ECONNRESET)
                 && (c.state.Closing? || c.state.LastAck? || d.rcv.rx == [])
  {
    hide SeqEq;
  }

  lemma ResetDispatch(c: Conn, seg: Segment, env: Env)
    requires !c.state.SynSent? && seg.rst
    ensures var o := SegmentInput(c, seg, env);
            && o.sent == []
            && (if Acceptable(c, seg) then o.conn == ResetInput(c, seg) else o.conn == c.(life := o.conn.life))
  {
    hide SeqLt, SeqEq, Acceptable, TextInput, AckAdvance, WindowUpdate, Establish, SynSentInput, ResetInput;
  }

  lemma LifeOnly(c: Conn, life: nat)
    requires Core(c)
    ensures Core(c.(life := life))
  {
  }

  // ---------- giving up ----------

  // The timeout after n doublings.
  function Doubled(rto: nat, n: nat): nat {
    if n == 0 then rto else Min(RTO_MAX, 2 * Doubled(rto, n - 1))
  }

  // Unacknowledged data or FIN, and a window to send it into.
  ghost predicate Waiting(c: Conn) {
    c.used && DataState(c.state) && c.snd.una < c.snd.nxt && !(c.snd.wnd == 0 && |c.snd.tx| > 0)
  }

  lemma StillWaiting(c: Conn, now: nat)
    requires Inv(c) && Waiting(c) && c.retries < DATA_RETRIES && now > 0
    ensures var d := Timeout(c, now).conn;
            Inv(d) && Waiting(d) && d.retries == c.retries + 1 && d.rto == Doubled(c.rto, 1) && d.timer == now + d.rto
  {
    hide SeqEq, SeqLt, Output, Inv, Core, Synchronized, WindowPeek;
    WaitingFacts(c);
    BackoffCore(c, now);
    var r := c.(retries := c.retries + 1);
    var mid := SetNxt(Backoff(r), r.snd.una).(timer := now + Backoff(r).rto);
    OutputKeeps(mid, now);
    OutputWaits(mid, now);
  }

  lemma WaitingFacts(c: Conn)
    requires Inv(c) && DataState(c.state)
    ensures !SeqEq(c.snd.una, c.snd.nxt) <==> c.snd.una != c.snd.nxt
    ensures c.snd.una != c.snd.nxt && |c.snd.tx| == 0 ==> c.finPending
    ensures RTO_MIN <= c.rto <= RTO_MAX
  {
    hide SeqEq;
    NothingInFlight(c.snd, FinCount(c.state));
  }

  // tcp_output leaves a running timer alone while anything is in flight, and everything but the numbers sent.
  lemma OutputWaits(c: Conn, now: nat)
    requires Core(c) && DataState(c.state) && c.timer != 0 && !(c.snd.wnd == 0 && |c.snd.tx| > 0)
             && (|c.snd.tx| > 0 || c.finPending)
    ensures var d := Output(c, now).conn;
            d.snd.una < d.snd.nxt && d.timer == c.timer && DataState(d.state) && d.used == c.used
                && d.retries == c.retries
            && d.rto == c.rto && d.snd.wnd == c.snd.wnd && d.snd.tx == c.snd.tx
  {
    hide SeqEq, SeqLt, Output, Core, Inv, SendData, SendFin, SendAck, WindowPeek, Synchronized;
    OutputKeeps(c, now);
    var d := Output(c, now).conn;
    ProgressIs(d);
    FrameData(c, d);
    TimerStays(c, now);
  }

  lemma FrameData(c: Conn, d: Conn)
    requires OutputFrame(c, d) && DataState(c.state)
    ensures DataState(d.state) && d.snd.tx == c.snd.tx && d.snd.wnd == c.snd.wnd && d.finPending == c.finPending
  {
  }

  lemma ProgressIs(c: Conn)
    requires Inv(c) && DataState(c.state)
    ensures c.snd.una <= c.snd.nxt && Progressing(c)
  {
  }

  lemma TimerStays(c: Conn, now: nat)
    requires Core(c) && DataState(c.state) && c.timer != 0
    ensures var d := Output(c, now).conn; d.snd.una < d.snd.nxt ==> d.timer == c.timer
  {
    var pulled := Pulled(c);
    var data := SendData(pulled);
    var fin := SendFin(data.conn);
    var ack := SendAck(fin.conn);
    hide *;
    OutputUnfolds(c, now);
    PulledKeeps(c);
    PulledTimer(c);
    SendDataKeeps(pulled);
    SendFinKeeps(data.conn);
    SynchronizedData(fin.conn.state);
    SendAckKeeps(fin.conn);
    AckOrderCore(ack.conn);
    ArmsOnly(ack.conn, now);
  }

  lemma PulledTimer(c: Conn)
    ensures Pulled(c).timer == c.timer && Pulled(c).state == c.state
  {
  }

  lemma AckOrderCore(c: Conn)
    requires Core(c) && DataState(c.state)
    ensures SeqEq(c.snd.una, c.snd.nxt) <==> c.snd.una == c.snd.nxt
  {
    hide SeqEq;
    NothingInFlight(c.snd, FinCount(c.state));
  }

  lemma ArmsOnly(c: Conn, now: nat)
    ensures ArmTimer(c, now).snd == c.snd
    ensures c.timer != 0 && !SeqEq(c.snd.una, c.snd.nxt) ==> ArmTimer(c, now).timer == c.timer
  {
  }

  // The block after one timeout at each of these times, with nothing heard in between.
  function TimedOut(c: Conn, times: seq<nat>): Conn {
    if times == [] then c else Timeout(TimedOut(c, times[..|times| - 1]), times[|times| - 1]).conn
  }

  lemma {:induction false} DoubledMore(rto: nat, n: nat)
    requires RTO_MIN <= rto <= RTO_MAX
    ensures RTO_MIN <= Doubled(rto, n) <= RTO_MAX && Doubled(Doubled(rto, n), 1) == Doubled(rto, n + 1)
  {
    if n > 0 { DoubledMore(rto, n - 1); }
  }

  /**
   Retransmission: as long as nothing is heard, every timeout doubles the next one up to eight
   seconds and sends again, until the sixth try is used up.
   */
  lemma {:induction false} RetriesDouble(c: Conn, times: seq<nat>)
    requires Inv(c) && Waiting(c) && c.retries + |times| <= DATA_RETRIES && forall t <- times :: t > 0
    ensures var d := TimedOut(c, times);
            && Inv(d) && Waiting(d) && d.retries == c.retries + |times| && d.rto == Doubled(c.rto, |times|)
            && (times != [] ==> d.timer == times[|times| - 1] + d.rto)
  {
    hide Inv, Timeout, Waiting, Doubled;
    if times == [] {
      assert Doubled(c.rto, 0) == c.rto by { NoDoubling(c.rto); }
    } else {
      var n := |times| - 1;
      assert times[n] in times && forall t <- times[..n] :: t in times;
      RetriesDouble(c, times[..n]);
      InvRto(c);
      DoubledMore(c.rto, n);
      StillWaiting(TimedOut(c, times[..n]), times[n]);
    }
  }

  lemma NoDoubling(rto: nat)
    ensures Doubled(rto, 0) == rto
  {
  }

  lemma InvRto(c: Conn)
    requires Inv(c)
    ensures RTO_MIN <= c.rto <= RTO_MAX
  {
  }

  /** The timeout after the last try fails the connection and tells the peer with a reset. */
  lemma GivesUp(c: Conn, times: seq<nat>, now: nat)
    requires Inv(c) && Waiting(c) && c.retries + |times| == DATA_RETRIES && forall t <- times :: t > 0
    ensures var o := Timeout(TimedOut(c, times), now);
            o.conn.state.Closed? && o.conn.error == ETIMEDOUT && |o.sent| == 1 && o.sent[0].rst && o.conn.snd.tx == []
  {
    RetriesDouble(c, times);
    var d := TimedOut(c, times);
    WaitingFacts(d);
    hide Inv, Output, SeqEq, TimedOut, Doubled;
  }

  // ---------- giving up an open ----------

  lemma SynAgain(c: Conn, now: nat)
    requires Inv(c) && (c.state.SynSent? || c.state.SynReceived?) && c.retries < SYN_RETRIES
    ensures var d := Timeout(c, now).conn;
            Inv(d) && d.state == c.state && d.retries == c.retries + 1 && d.rto == Doubled(c.rto, 1)
            && d.timer == now + d.rto
  {
    hide SendSyn;
    var r := Backoff(c.(retries := c.retries + 1));
    SendSynKeeps(r, now);
    hide Inv;
    SynTimer(r, now);
  }

  lemma SynTimer(c: Conn, now: nat)
    ensures SendSyn(c, now).conn.timer == now + c.rto
  {
    hide SeqLt, WindowPeek;
  }

  /** An open that nobody answers: five more SYNs at doubled intervals, and the next timeout fails it. */
  lemma {:induction false} OpenGivesUp(c: Conn, times: seq<nat>)
    requires Inv(c) && (c.state.SynSent? || c.state.SynReceived?) && c.retries + |times| <= SYN_RETRIES + 1
    ensures var d := TimedOut(c, times);
            if c.retries + |times| <= SYN_RETRIES
            then Inv(d) && d.state == c.state && d.retries == c.retries + |times| && d.rto == Doubled(c.rto, |times|)
                 && (times != [] ==> d.timer == times[|times| - 1] + d.rto)
            else c.retries > SYN_RETRIES || (d.state.Closed? && d.error == ETIMEDOUT)
  {
    hide Inv, Doubled, SendSyn;
    if times == [] {
      NoDoubling(c.rto);
    } else {
      var n := |times| - 1;
      OpenGivesUp(c, times[..n]);
      InvRto(c);
      if c.retries <= SYN_RETRIES {
        DoubledMore(c.rto, n);
        var d := TimedOut(c, times[..n]);
        if d.retries < SYN_RETRIES { SynAgain(d, times[n]); }
      }
    }
  }

  // ---------- the end of a closed connection ----------

  /** A tick ends TIME_WAIT exactly when its time is over. */
  lemma LifeIsKept(c: Conn, now: nat)
    requires c.used && c.state.TimeWait? && c.timer == 0
    ensures if c.life != 0 && now >= c.life then Tick(c, now) == Out(Finish(c), []) && Tick(c, now).conn.state.Closed?
            else Tick(c, now) == Out(c, [])
  {
  }

  // The ways into TIME_WAIT: an acknowledgement of the FIN, or the peer's FIN after it.
  lemma TimeWaitLasts(c: Conn, seg: Segment, env: Env)
    requires Inv(c) && Near(c, seg) && Synchronized(c.state) && !c.state.TimeWait? && c.used
    ensures var d := Input(c, seg, env).conn;
            d.state.TimeWait? ==> d.life == env.now + TIME_WAIT_MS && d.timer == 0
  {
    hide SeqLt, SeqEq, SeqLe, Output, Inv, Core, Near, SegmentInput, Synchronized;
    SyncedIsConnected(c.state);
    var got := SegmentInput(c, seg, env).conn;
    SegmentInputKeeps(c, seg, env);
    if got.used {
      OutputKeeps(got, env.now);
      OutputInTimeWait(got, env.now);
    }
    IntoTimeWait(c, seg, env);
  }

  lemma OutputInTimeWait(c: Conn, now: nat)
    ensures c.state.TimeWait? ==> Output(c, now).conn.life == c.life && Output(c, now).conn.timer == c.timer
  {
    hide WindowPeek, SendData, SendFin, SendSyn;
  }

  lemma IntoTimeWait(c: Conn, seg: Segment, env: Env)
    requires Synchronized(c.state) && !c.state.TimeWait?
    ensures var d := SegmentInput(c, seg, env).conn;
            d.state.TimeWait? ==> d.life == env.now + TIME_WAIT_MS && d.timer == 0
  {
    hide SeqLt, SeqEq, SeqLe, Acceptable, AckAdvance, TextInput, ResetInput, WindowUpdate, Establish, SynSentInput,
      Synchronized;
    SyncedIsConnected(c.state);
    ResetLeaves(c, seg);
    AckIntoTimeWait(c, seg.ackNo, env);
    var acked := if SeqLt(c.snd.una, seg.ackNo) then AckAdvance(c, seg.ackNo, env) else c;
    UpdateTimes(acked, seg);
    TextIntoTimeWait(WindowUpdate(acked, seg), seg, env.now);
    if c.state.SynReceived? { TextIntoTimeWait(Establish(SetWindow(c, seg), seg, env), seg, env.now); }
  }

  lemma ResetLeaves(c: Conn, seg: Segment)
    ensures !c.state.TimeWait? ==> !ResetInput(c, seg).state.TimeWait?
  {
    hide SeqEq, Fail, Finish;
    FailCloses(c, ECONNREFUSED);
    FailCloses(c, ECONNRESET);
    FinishValue(c);
  }

  lemma AckIntoTimeWait(c: Conn, ackNo: int, env: Env)
    requires !c.state.TimeWait?
    ensures var d := AckAdvance(c, ackNo, env);
            d.state.TimeWait? ==> d.life == env.now + TIME_WAIT_MS && d.timer == 0
  {
    hide SeqEq, SeqLt, FinAcked, AckedBytes, AckArmed, Finish;
    ArmedFrame(c, ackNo, env);
    FinishValue(AckArmed(c, ackNo, env));
  }

  lemma UpdateTimes(c: Conn, seg: Segment)
    ensures var d := WindowUpdate(c, seg); d.state == c.state && d.life == c.life && d.timer == c.timer
  {
    hide SeqEq, SeqLt, SeqLe;
  }

  lemma TextIntoTimeWait(c: Conn, seg: Segment, now: nat)
    ensures var d := TextInput(c, seg, now).conn;
            d.state.TimeWait? ==> (c.state.TimeWait? && d.life == c.life && d.timer == c.timer)
                                  || (d.life == now + TIME_WAIT_MS && d.timer == 0)
  {
    hide SeqEq, Overlap;
  }

  /** The segment size follows the peer's SYN, between 64 and 1460 bytes; without the option it stays at the default. */
  lemma SizeFollowsTheSyn(c: Conn, seg: Segment, env: Env)
    ensures 64 <= seg.mss <= 1460 ==> SynHeard(c, seg).mss == seg.mss && Child(seg, env).mss == seg.mss
    ensures 0 < seg.mss < 64 ==> SynHeard(c, seg).mss == 64 && Child(seg, env).mss == 64
    ensures seg.mss > 1460 ==> SynHeard(c, seg).mss == 1460 && Child(seg, env).mss == 1460
    ensures seg.mss == 0 ==> SynHeard(c, seg).mss == c.mss && Child(seg, env).mss == 536
  {
  }
}
