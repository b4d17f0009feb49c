/**
 The advertised right edge of the receive window over whole runs: from the moment a block knows
 its peer's sequence numbers, no step moves the edge to the left.
 */
module TcpWindow {
  import opened TcpSpec
  import opened TcpInvariant
  import opened TcpWrap

  // States in which an edge was promised to a known peer.
  predicate Edged(s: State) { s.SynReceived? || Synchronized(s) }

  // How far one step can move the edge: a full segment taken and the whole buffer free again.
  const MAX_ADVANCE: int := 0x3_0000

  ghost predicate Advances(c: Conn, d: Conn) {
    Edged(c.state) && Edged(d.state) ==> c.rcv.adv <= d.rcv.adv <= c.rcv.adv + MAX_ADVANCE
  }

  // ---------- input leaves the edge to the output that follows ----------

  lemma TextHoldsEdge(c: Conn, seg: Segment, now: nat)
    ensures TextInput(c, seg, now).conn.rcv.adv == c.rcv.adv
  {
    hide AcceptText, TakesFin;
    AcceptHoldsEdge(c, seg);
  }

  lemma AcceptHoldsEdge(c: Conn, seg: Segment)
    ensures AcceptText(c, seg).conn.rcv.adv == c.rcv.adv
  {
    hide SeqEq, Overlap;
  }

  lemma AckHoldsEdge(c: Conn, ackNo: int, env: Env)
    ensures AckAdvance(c, ackNo, env).rcv == c.rcv
  {
    hide SeqEq, SeqLt, FinAcked, AckedBytes, AckArmed, Finish, EnterTimeWait;
    ArmedFrame(c, ackNo, env);
    FinishValue(AckArmed(c, ackNo, env));
    EnterTimeWaitValue(AckArmed(c, ackNo, env), env.now);
  }

  lemma ResetHoldsEdge(c: Conn, seg: Segment)
    ensures ResetInput(c, seg).rcv.adv == c.rcv.adv
  {
    hide SeqEq;
  }

  lemma WindowHoldsEdge(c: Conn, seg: Segment, env: Env)
    ensures WindowUpdate(c, seg).rcv == c.rcv && Establish(SetWindow(c, seg), seg, env).rcv == c.rcv
  {
    hide SeqEq, SeqLt, SeqLe;
  }

  lemma SegmentHoldsEdge(c: Conn, seg: Segment, env: Env)
    requires !c.state.SynSent?
    ensures SegmentInput(c, seg, env).conn.rcv.adv == c.rcv.adv
  {
    hide SeqEq, SeqLt, SeqLe, Acceptable, TextInput, AckAdvance, ResetInput, WindowUpdate, Establish, SynSentInput,
        SetWindow, ReplyReset;
    if Acceptable(c, seg) && seg.rst {
      ResetHoldsEdge(c, seg);
    } else if Acceptable(c, seg) && !seg.syn && seg.ack {
      if c.state.SynReceived? {
        WindowHoldsEdge(c, seg, env);
        TextHoldsEdge(Establish(SetWindow(c, seg), seg, env), seg, env.now);
      } else {
        AckHoldsEdge(c, seg.ackNo, env);
        var acked := if SeqLt(c.snd.una, seg.ackNo) then AckAdvance(c, seg.ackNo, env) else c;
        WindowHoldsEdge(acked, seg, env);
        TextHoldsEdge(WindowUpdate(acked, seg), seg, env.now);
      }
    }
  }

  // ---------- output moves it right ----------

  // A block mid-call with the edge still where it was, and what tcp_output makes of it.
  lemma OutputAdvances(c: Conn, mid: Conn, now: nat)
    requires Core(mid) && mid.rcv.adv == c.rcv.adv
    ensures Advances(c, Output(mid, now).conn)
  {
    hide Output, Inv;
    OutputKeeps(mid, now);
    var d := Output(mid, now).conn;
    if Edged(d.state) {
      InvBounds(d);
      CoreBounds(mid);
    }
  }

  lemma InvBounds(c: Conn)
    requires Inv(c) && Edged(c.state)
    ensures RecvBounds(c.rcv) && c.rcv.nxt <= c.rcv.adv
  {
  }

  lemma CoreBounds(c: Conn)
    requires Core(c) && Edged(c.state)
    ensures RecvBounds(c.rcv)
  {
  }

  lemma EdgedOpen(s: State)
    ensures Edged(s) ==> !s.SynSent? && !s.Closed? && !s.Listen?
  {
  }

  lemma InputAdvances(c: Conn, seg: Segment, env: Env)
    requires Inv(c) && Near(c, seg)
    ensures Advances(c, Input(c, seg, env).conn)
  {
    hide SeqLt, SegmentInput, Output, Inv, Core, ListenInput, Near, Synchronized;
    EdgedOpen(c.state);
    if Edged(c.state) && c.used && !(c.state.TimeWait? && seg.syn && !seg.ack && SeqLt(c.rcv.nxt, seg.seqNo)) {
      var got := SegmentInput(c, seg, env);
      SegmentInputKeeps(c, seg, env);
      SegmentHoldsEdge(c, seg, env);
      if got.conn.used { OutputAdvances(c, got.conn, env.now); }
    }
  }

  lemma TimeoutAdvances(c: Conn, now: nat)
    requires Inv(c)
    ensures Advances(c, Timeout(c, now).conn)
  {
    hide SeqEq, Inv, SynTimeout, Probe, Resend;
    if Edged(c.state) {
      if c.state.SynReceived? {
        ResentSyn(c, now);
      } else if DataState(c.state) {
        ProbeAdvances(c, now);
        ResendAdvances(c, now);
      }
    }
  }

  lemma ProbeAdvances(c: Conn, now: nat)
    requires Inv(c) && DataState(c.state)
    ensures Advances(c, Probe(c, now).conn)
  {
    hide WindowPeek;
    WindowEdge(Backoff(c));
  }

  lemma ResendAdvances(c: Conn, now: nat)
    requires Inv(c) && DataState(c.state)
    ensures Advances(c, Resend(c, now).conn)
  {
    hide Inv, Output;
    BackoffCore(c, now);
    OutputAdvances(c, SetNxt(Backoff(c.(retries := c.retries + 1)), c.snd.una).(timer := now + Backoff(c).rto), now);
  }

  lemma ResentSyn(c: Conn, now: nat)
    requires Inv(c) && c.state.SynReceived?
    ensures Advances(c, SynTimeout(c, now).conn)
  {
    hide SendSyn;
    var r := Backoff(c.(retries := c.retries + 1));
    SendSynKeeps(r, now);
  }

  lemma TickAdvances(c: Conn, now: nat)
    requires Inv(c)
    ensures Advances(c, Tick(c, now).conn)
  {
    hide Timeout, Inv;
    TimeoutAdvances(c, now);
  }

  lemma ReadAdvances(c: Conn, cap: nat, now: nat)
    requires Inv(c)
    ensures Advances(c, Read(c, cap, now).out.conn)
  {
    ReadIs(c, cap, now);
    hide SeqLt, Diff, WindowPeek, Output, Read, Inv, Core, Offered;
    if !Unconnected(c.state) && c.error == 0 && |c.rcv.rx| > 0 {
      var taken := TakenFrom(c, Min(cap, |c.rcv.rx|));
      TakenReady(c, Min(cap, |c.rcv.rx|));
      OutputAdvances(c, taken.(ackNow := true), now);
    }
  }

  lemma TakenReady(c: Conn, count: nat)
    requires Inv(c) && !Unconnected(c.state) && count <= |c.rcv.rx|
    ensures Core(TakenFrom(c, count).(ackNow := true))
  {
  }

  lemma WriteAdvances(c: Conn, data: seq<Byte>, now: nat)
    requires Inv(c)
    ensures Advances(c, Write(c, data, now).out.conn)
  {
    hide Output;
    if (c.state.Established? || c.state.CloseWait?) && |c.snd.tx| < BUFFER_SIZE && !c.finPending {
      OutputAdvances(c, c.(snd := c.snd.(tx := c.snd.tx + data[..Min(|data|, BUFFER_SIZE - |c.snd.tx|)])), now);
    }
  }

  lemma ShutdownAdvances(c: Conn, readSide: bool, writeSide: bool, now: nat)
    requires Inv(c)
    ensures Advances(c, Shutdown(c, readSide, writeSide, now).out.conn)
  {
    hide Output, Core, Inv;
    if !Unconnected(c.state) && !c.state.Closed? {
      var r := if readSide then c.(readShut := true, rcv := c.rcv.(rx := [])) else c;
      ShutReady(c, readSide);
      OutputAdvances(c, r.(finPending := true), now);
    }
  }

  lemma CloseAdvances(c: Conn, now: nat)
    requires Inv(c)
    ensures Advances(c, Close(c, now).conn)
  {
    hide Output, Core, Inv;
    if Synchronized(c.state) {
      var life := if c.state.TimeWait? then c.life else now + ORPHAN_LIFE_MS;
      var o := c.(orphan := true).(rcv := c.rcv.(rx := []), finPending := true, life := life);
      CloseReady(c, life);
      OutputAdvances(c, o, now);
    }
  }

  lemma CloseReady(c: Conn, life: nat)
    requires Inv(c) && Synchronized(c.state)
    ensures Core(c.(orphan := true).(rcv := c.rcv.(rx := []), finPending := true, life := life))
  {
  }

  /** No event moves the advertised right edge to the left, and none moves it far. */
  lemma EdgeStep(c: Conn, e: Event)
    requires Inv(c) && (e.Arrive? ==> Near(c, e.seg))
    ensures Advances(c, Step(c, e).conn)
  {
    hide Input, Tick, Read, Write, Shutdown, Close, Inv;
    match e
    case Arrive(seg, env) => InputAdvances(c, seg, env);
    case Clock(now) => TickAdvances(c, now);
    case ReadCall(cap, at) => ReadAdvances(c, cap, at);
    case WriteCall(data, at) => WriteAdvances(c, data, at);
    case ShutdownCall(r, w, at) => ShutdownAdvances(c, r, w, at);
    case CloseCall(at) => CloseAdvances(c, at);
    case AcceptCall =>
  }

  /**
   Every run of the 32-bit block, against any network: each event leaves the advertised edge
   where it is or moves it ahead in the circular order of sequence numbers.
   */
  lemma EdgeNeverMovesLeft(entropy: nat, now: nat, reachable: bool, listener: bool, events: seq<Event>, n: nat)
    requires n < |events| && forall e <- events :: Wire(e)
    ensures var start := if listener then FreshBlock(entropy).(state := Listen)
                                          else Connect(entropy, now, reachable).conn;
            var before, after := Run(start, events[..n]), Run(start, events[..n + 1]);
            Edged(before.state) && Edged(after.state) ==>
              Diff(after.rcv.adv, before.rcv.adv) <= MAX_ADVANCE < HALF && !SeqLt(after.rcv.adv, before.rcv.adv)
  {
    hide Inv, Step, Connect, Cong, Wrap;
    var start := if listener then FreshBlock(entropy).(state := Listen) else Connect(entropy, now, reachable).conn;
    ConnectKeeps(entropy, now, reachable);
    ListenStarts(entropy);
    var before, after := Run(start, events[..n]), Run(start, events[..n + 1]);
    assert events[..n + 1][..n] == events[..n];
    var t := Unwrapped(start, events[..n]);
    var near := NearReading(t, events[n]);
    var t' := Step(t, near).conn;
    CongStep(before, t, events[n], near);
    EdgeStep(t, near);
    SameEdge(before, t);
    SameEdge(after, t');
    if Edged(before.state) && Edged(after.state) {
      DiffExact(t'.rcv.adv, t.rcv.adv);
      SeqExact(t'.rcv.adv, t.rcv.adv);
    }
  }

  lemma SameEdge(c: Conn, t: Conn)
    requires Cong(c, t)
    ensures c.state == t.state && Wrap(c.rcv.adv) == Wrap(t.rcv.adv)
  {
  }
}
