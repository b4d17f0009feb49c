/**
 The peer's window over whole runs: the window an end obeys is the window field of a segment its
 peer sent, and it lies below the edge the peer stands by.
 */
module TcpHeed {
  import opened TcpSpec
  import opened TcpInvariant
  import opened TcpWrap
  import opened TcpSystem
  import opened TcpRuns
  import opened TcpWindow
  import opened TcpFlow

  // ---------- where a window comes from ----------

  ghost predicate SameWindow(s: Sender, t: Sender) { t.wnd == s.wnd && t.wl1 == s.wl1 && t.wl2 == s.wl2 }

  // The window, and the numbers it came with, are those of this segment.
  ghost predicate From(s: Sender, seg: Segment) {
    !seg.rst && s.wnd == seg.window && s.wl1 == seg.seqNo && (seg.ack ==> s.wl2 == seg.ackNo <= s.una)
  }

  // The window stays with what is acknowledged, or is the segment's own.
  ghost predicate Heeds(c: Conn, d: Conn, seg: Segment) {
    Edged(d.state) ==> From(d.snd, seg) || (Edged(c.state) && SameWindow(c.snd, d.snd) && c.snd.una <= d.snd.una)
  }

  lemma TextHoldsSender(c: Conn, seg: Segment, now: nat)
    ensures var d := TextInput(c, seg, now).conn; d.state.Closed? || d.snd == c.snd
  {
    hide SeqEq, Overlap;
  }

  lemma SynSentHeeds(c: Conn, seg: Segment, env: Env)
    requires c.state.SynSent?
    ensures Heeds(c, SynSentInput(c, seg, env).conn, seg)
  {
    hide SeqLt, SeqLe, ReplyReset, Establish, SynHeard, Edged, From, Fail;
    EdgedOpen(c.state);
    EdgedOpen(Closed);
    FailCloses(c, ECONNREFUSED);
    if !seg.rst {
      EstablishHeeds(c, seg, env);
      if !seg.ack { HeardSyn(c, seg); }
    }
  }

  lemma EstablishHeeds(c: Conn, seg: Segment, env: Env)
    requires !seg.rst
    ensures From(Establish(SetWindow(c, seg), seg, env).snd, seg)
            && From(Establish(SynHeard(c, seg), seg, env).snd, seg)
  {
  }

  lemma HeardSyn(c: Conn, seg: Segment)
    requires !seg.rst && !seg.ack
    ensures From(SynHeard(c, seg).snd, seg)
  {
  }

  lemma ResetHeeds(c: Conn, seg: Segment)
    ensures Heeds(c, ResetInput(c, seg), seg)
  {
    hide SeqEq, Edged, From, Fail, Finish;
    EdgedOpen(Closed);
    FinishValue(c);
    FailCloses(c, ECONNREFUSED);
    FailCloses(c, ECONNRESET);
  }

  lemma AckHeeds(c: Conn, seg: Segment, env: Env)
    requires Inv(c) && Near(c, seg) && Synchronized(c.state) && !seg.rst && !seg.syn && seg.ack
    requires !SeqLt(c.snd.max, seg.ackNo)
    ensures var acked := if SeqLt(c.snd.una, seg.ackNo) then AckAdvance(c, seg.ackNo, env) else c;
            && SameWindow(c.snd, acked.snd) && c.snd.una <= acked.snd.una
            && (SeqLe(acked.snd.una, seg.ackNo) ==> acked.snd.una == seg.ackNo)
  {
    hide SeqLt, SeqLe, SeqEq, AckAdvance, AckedBytes, FinAcked;
    SeqExact(c.snd.una, seg.ackNo);
    if c.snd.una < seg.ackNo {
      SeqExact(c.snd.max, seg.ackNo);
      AckAdvanceValue(c, seg.ackNo, env);
    }
  }

  lemma UpdateHeeds(c: Conn, seg: Segment)
    requires !seg.rst && (SeqLe(c.snd.una, seg.ackNo) ==> c.snd.una == seg.ackNo)
    ensures var d := WindowUpdate(c, seg); d.snd.una == c.snd.una && (SameWindow(c.snd, d.snd) || From(d.snd, seg))
  {
    hide SeqLt, SeqLe, SeqEq;
  }

  lemma AcceptedHeeds(c: Conn, seg: Segment, env: Env)
    requires Inv(c) && Near(c, seg) && Synchronized(c.state)
    requires Acceptable(c, seg) && !seg.rst && !seg.syn && seg.ack
    ensures Heeds(c, SegmentInput(c, seg, env).conn, seg)
  {
    hide SeqEq, SeqLt, SeqLe, Acceptable, TextInput, AckAdvance, ResetInput, WindowUpdate, Establish, SynSentInput,
      SetWindow, ReplyReset, Inv, Near, Edged, From, Synchronized, DataState;
    OpenStates(c.state);
    OpenStates(Closed);
    if !SeqLt(c.snd.max, seg.ackNo) {
      AckHeeds(c, seg, env);
      var acked := if SeqLt(c.snd.una, seg.ackNo) then AckAdvance(c, seg.ackNo, env) else c;
      UpdateHeeds(acked, seg);
      TextHoldsSender(WindowUpdate(acked, seg), seg, env.now);
    }
  }

  lemma SynReceivedHeeds(c: Conn, seg: Segment, env: Env)
    requires c.state.SynReceived? && Acceptable(c, seg) && !seg.rst && !seg.syn && seg.ack
    ensures Heeds(c, SegmentInput(c, seg, env).conn, seg)
  {
    hide SeqEq, SeqLt, SeqLe, Acceptable, TextInput, AckAdvance, ResetInput, WindowUpdate, Establish, SynSentInput,
      SetWindow, ReplyReset, Edged, From;
    OpenStates(c.state);
    OpenStates(Closed);
    EstablishHeeds(c, seg, env);
    TextHoldsSender(Establish(SetWindow(c, seg), seg, env), seg, env.now);
  }

  // Segments that end before the acknowledgement is looked at.
  lemma UnacceptedHeeds(c: Conn, seg: Segment, env: Env)
    requires !c.state.SynSent? && !c.state.Closed? && !c.state.Listen?
    requires !(Acceptable(c, seg) && !seg.rst && !seg.syn && seg.ack)
    ensures Heeds(c, SegmentInput(c, seg, env).conn, seg)
  {
    hide SeqEq, SeqLt, SeqLe, Acceptable, TextInput, AckAdvance, ResetInput, WindowUpdate, Establish, SynSentInput,
      SetWindow, ReplyReset, Edged, From;
    OpenStates(c.state);
    ResetHeeds(c, seg);
  }

  lemma SegmentHeeds(c: Conn, seg: Segment, env: Env)
    requires Inv(c) && Near(c, seg) && !c.state.Closed? && !c.state.Listen?
    ensures Heeds(c, SegmentInput(c, seg, env).conn, seg)
  {
    hide Acceptable, SegmentInput, SynSentInput, Inv, Near, Heeds, Synchronized, Edged;
    OpenStates(c.state);
    if c.state.SynSent? {
      SynSentHeeds(c, seg, env);
      SynSentDispatch(c, seg, env);
    } else if !(Acceptable(c, seg) && !seg.rst && !seg.syn && seg.ack) {
      UnacceptedHeeds(c, seg, env);
    } else if c.state.SynReceived? {
      SynReceivedHeeds(c, seg, env);
    } else {
      AcceptedHeeds(c, seg, env);
    }
  }

  lemma OpenStates(s: State)
    ensures !s.Closed? && !s.Listen? && !s.SynSent? ==> Edged(s) && (s.SynReceived? || Synchronized(s))
    ensures s.Closed? ==> !Edged(s)
    ensures Synchronized(s) ==> Edged(s) && !s.SynReceived? && !s.SynSent?
  {
  }

  lemma OutputHeeds(c: Conn, mid: Conn, now: nat, seg: Segment)
    requires Core(mid) && Heeds(c, mid, seg)
    ensures Heeds(c, Output(mid, now).conn, seg)
  {
    hide Output, Core, Inv;
    OutputKeeps(mid, now);
  }

  lemma InputHeeds(c: Conn, seg: Segment, env: Env)
    requires Inv(c) && (Near(c, seg) || c.state.Closed? || c.state.Listen?)
    ensures Heeds(c, Input(c, seg, env).conn, seg)
  {
    hide SeqLt, SegmentInput, Output, Inv, Core, Near, ListenInput, Heeds, Finish;
    SelfHeeds(c, seg);
    if c.used && !c.state.Closed? {
      if c.state.Listen? {
        ListenHeeds(c, seg, env);
      } else if c.state.TimeWait? && seg.syn && !seg.ack && SeqLt(c.rcv.nxt, seg.seqNo) {
        ClosedHeeds(c, Finish(c), seg);
      } else {
        var got := SegmentInput(c, seg, env).conn;
        SegmentInputKeeps(c, seg, env);
        SegmentHeeds(c, seg, env);
        if got.used { OutputHeeds(c, got, env.now, seg); }
      }
    }
  }

  lemma SelfHeeds(c: Conn, seg: Segment)
    ensures Heeds(c, c, seg) && Heeds(c, Finish(c), seg)
  {
  }

  lemma ClosedHeeds(c: Conn, d: Conn, seg: Segment)
    requires d == Finish(c)
    ensures Heeds(c, d, seg)
  {
  }

  lemma ListenHeeds(c: Conn, seg: Segment, env: Env)
    requires c.state.Listen?
    ensures Heeds(c, ListenInput(c, seg, env).conn, seg)
  {
    hide SeqLt, WindowPeek, ReplyReset;
  }

  // ---------- the other calls leave the window alone ----------

  ghost predicate Holds(c: Conn, d: Conn) {
    Edged(d.state) ==> Edged(c.state) && SameWindow(c.snd, d.snd) && d.snd.una == c.snd.una
  }

  lemma OutputHolds(c: Conn, mid: Conn, now: nat)
    requires Core(mid) && Holds(c, mid)
    ensures Holds(c, Output(mid, now).conn)
  {
    hide Output, Core, Inv;
    OutputKeeps(mid, now);
  }

  lemma SynHolds(c: Conn, now: nat)
    ensures Holds(c, SynTimeout(c, now).conn)
  {
    hide SeqLt, WindowPeek, Edged;
    OpenStates(Closed);
  }

  lemma ProbeHolds(c: Conn, now: nat)
    ensures Holds(c, Probe(c, now).conn)
  {
    hide WindowPeek, Edged;
  }

  lemma ResendHolds(c: Conn, now: nat)
    requires Inv(c) && DataState(c.state)
    ensures Holds(c, Resend(c, now).conn)
  {
    hide Inv, Core, Output, Edged, Synchronized, DataState;
    BackoffCore(c, now);
    OpenStates(Closed);
    var r := c.(retries := c.retries + 1);
    if r.retries <= DATA_RETRIES {
      OutputHolds(c, SetNxt(Backoff(r), r.snd.una).(timer := now + Backoff(r).rto), now);
    }
  }

  lemma TickHolds(c: Conn, now: nat)
    requires Inv(c)
    ensures Holds(c, Tick(c, now).conn)
  {
    hide SeqEq, Inv, SynTimeout, Probe, Resend, Edged;
    OpenStates(Closed);
    SynHolds(c, now);
    ProbeHolds(c, now);
    if DataState(c.state) { ResendHolds(c, now); }
  }

  lemma ReadHolds(c: Conn, cap: nat, now: nat)
    requires Inv(c)
    ensures Holds(c, Read(c, cap, now).out.conn)
  {
    ReadIs(c, cap, now);
    hide SeqLt, Diff, WindowPeek, Output, Read, Inv, Core, Offered, Edged;
    if !Unconnected(c.state) && c.error == 0 && |c.rcv.rx| > 0 {
      TakenReady(c, Min(cap, |c.rcv.rx|));
      OutputHolds(c, TakenFrom(c, Min(cap, |c.rcv.rx|)).(ackNow := true), now);
    }
  }

  lemma WriteHolds(c: Conn, data: seq<Byte>, now: nat)
    requires Inv(c)
    ensures Holds(c, Write(c, data, now).out.conn)
  {
    hide Output;
    if (c.state.Established? || c.state.CloseWait?) && |c.snd.tx| < BUFFER_SIZE && !c.finPending && c.error == 0 {
      OutputHolds(c, c.(snd := c.snd.(tx := c.snd.tx + data[..Min(|data|, BUFFER_SIZE - |c.snd.tx|)])), now);
    }
  }

  lemma ShutdownHolds(c: Conn, readSide: bool, writeSide: bool, now: nat)
    requires Inv(c)
    ensures Holds(c, Shutdown(c, readSide, writeSide, now).out.conn)
  {
    hide Output, Core, Inv, Edged;
    if !Unconnected(c.state) && !c.state.Closed? && writeSide {
      var r := if readSide then c.(readShut := true, rcv := c.rcv.(rx := [])) else c;
      ShutReady(c, readSide);
      OutputHolds(c, r.(finPending := true), now);
    }
  }

  lemma CloseHolds(c: Conn, now: nat)
    requires Inv(c)
    ensures Holds(c, Close(c, now).conn)
  {
    hide Output, Core, Inv, Edged;
    OpenStates(Closed);
    if Synchronized(c.state) && !((c.state.Established? || c.state.CloseWait?) && |c.rcv.rx| > 0) {
      var life := if c.state.TimeWait? then c.life else now + ORPHAN_LIFE_MS;
      var d := c.(orphan := true).(rcv := c.rcv.(rx := []), finPending := true, life := life);
      CloseReady(c, life);
      OutputHolds(c, d, now);
    }
  }

  /** A window changes only when a segment brings another: no other call touches it or what it counts from. */
  lemma StepHolds(c: Conn, e: Event)
    requires Inv(c) && !e.Arrive?
    ensures Holds(c, Step(c, e).conn)
  {
    hide Tick, Read, Write, Shutdown, Close, Inv, Edged;
    match e
    case Arrive(seg, env) =>
    case Clock(now) => TickHolds(c, now);
    case ReadCall(cap, at) => ReadHolds(c, cap, at);
    case WriteCall(data, at) => WriteHolds(c, data, at);
    case ShutdownCall(r, w, at) => ShutdownHolds(c, r, w, at);
    case CloseCall(at) => CloseHolds(c, at);
    case AcceptCall =>
  }

  // ---------- the edge the peer stands by ----------

  // Every window promised in a segment ends at or below the edge.
  ghost predicate Under(sent: seq<Segment>, edge: int) {
    forall seg <- sent :: !seg.rst && seg.ack ==> seg.ackNo + seg.window <= edge
  }

  // The edge moved right, if there was one, and covers what was promised on the way.
  ghost predicate Promises(c: Conn, o: Out) {
    Under(o.sent, o.conn.rcv.adv) && (Edged(c.state) || c.state.Closed? ==> c.rcv.adv <= o.conn.rcv.adv)
  }

  lemma UnderBoth(a: seq<Segment>, b: seq<Segment>, edge: int, last: int)
    requires Under(a, edge) && Under(b, last) && edge <= last
    ensures Under(a + b, last)
  {
  }

  lemma SynUnder(c: Conn, now: nat)
    ensures Under(SendSyn(c, now).sent, SendSyn(c, now).conn.rcv.adv)
  {
    hide SeqLt, WindowPeek;
  }

  lemma ChunkUnder(c: Conn)
    requires ChunkLength(c) > 0
    ensures Under(SendChunk(c).sent, SendChunk(c).conn.rcv.adv)
  {
    hide SeqLt, WindowPeek, ChunkLength, Diff;
  }

  lemma {:induction false} DataUnder(c: Conn)
    requires Core(c) && DataState(c.state)
    ensures Under(SendData(c).sent, SendData(c).conn.rcv.adv)
    decreases Unsent(c)
  {
    hide SendChunk, ChunkLength, Core, Under;
    RingFits(c);
    NothingUnder(SendData(c).conn.rcv.adv);
    if ChunkLength(c) > 0 {
      var first := SendChunk(c);
      SendChunkKeeps(c);
      ChunkUnder(c);
      ChunkShrinks(c);
      DataUnder(first.conn);
      SendDataKeeps(first.conn);
      UnderBoth(first.sent, SendData(first.conn).sent, first.conn.rcv.adv, SendData(first.conn).conn.rcv.adv);
    }
  }

  lemma NothingUnder(edge: int)
    ensures Under([], edge)
  {
  }

  lemma TailUnder(c: Conn)
    ensures Under(SendFin(c).sent, SendFin(c).conn.rcv.adv) && Under(SendAck(c).sent, SendAck(c).conn.rcv.adv)
  {
    hide SeqLt, SeqEq, WindowPeek;
  }

  lemma OutputDataUnder(c: Conn, now: nat)
    requires Core(c) && DataState(c.state)
    ensures Under(Output(c, now).sent, Output(c, now).conn.rcv.adv)
  {
    var pulled := Pulled(c);
    var data := SendData(pulled);
    var fin := SendFin(data.conn);
    var ack := SendAck(fin.conn);
    hide *;
    OutputUnfolds(c, now);
    PulledKeeps(c);
    PulledIs(c);
    SendDataKeeps(pulled);
    DataUnder(pulled);
    SendFinKeeps(data.conn);
    SynchronizedData(fin.conn.state);
    SendAckKeeps(fin.conn);
    TailUnder(data.conn);
    TailUnder(fin.conn);
    TransmittedEdge(data.conn, fin.conn);
    TransmittedEdge(fin.conn, ack.conn);
    UnderBoth(data.sent, fin.sent, data.conn.rcv.adv, fin.conn.rcv.adv);
    UnderBoth(data.sent + fin.sent, ack.sent, fin.conn.rcv.adv, ack.conn.rcv.adv);
    ArmedEdge(ack.conn, now);
  }

  lemma SynchronizedData(s: State)
    ensures DataState(s) ==> Synchronized(s)
  {
  }

  lemma TransmittedEdge(c: Conn, d: Conn)
    requires Transmitted(c, d)
    ensures c.rcv.adv <= d.rcv.adv
  {
  }

  lemma ArmedEdge(c: Conn, now: nat)
    ensures ArmTimer(c, now).rcv == c.rcv
  {
  }

  lemma OutputPromises(c: Conn, mid: Conn, now: nat)
    requires Core(mid) && mid.rcv.adv == c.rcv.adv
    ensures Promises(c, Output(mid, now)) && c.rcv.adv <= Output(mid, now).conn.rcv.adv
  {
    hide Core, Inv, SendSyn, SendAck, SendData, SendFin, Under, Edged;
    OutputKeeps(mid, now);
    if DataState(mid.state) {
      hide Output;
      OutputDataUnder(mid, now);
    } else {
      SynUnder(mid, now);
      TailUnder(mid);
      NothingUnder(mid.rcv.adv);
    }
  }

  lemma ResetsUnder(sent: seq<Segment>, edge: int)
    requires forall seg <- sent :: seg.rst
    ensures Under(sent, edge)
  {
  }

  lemma SegmentResets(c: Conn, seg: Segment, env: Env)
    ensures forall r <- SegmentInput(c, seg, env).sent :: r.rst
  {
    hide SeqLt, SeqEq, SeqLe, Acceptable, AckAdvance, Establish, ResetInput, WindowUpdate, Overlap, Fail, SynHeard,
      AcceptFin, SegmentLength, SetWindow;
  }

  lemma InputPromises(c: Conn, seg: Segment, env: Env)
    requires Inv(c) && (Near(c, seg) || c.state.Closed? || c.state.Listen?)
    ensures Promises(c, Input(c, seg, env))
  {
    hide SeqLt, SegmentInput, Output, Inv, Core, Near, SendSyn, Child, SegmentLength, Under, Edged, Synchronized;
    var o := Input(c, seg, env);
    EdgedOpen(c.state);
    if !c.used || c.state.Closed? || (c.state.TimeWait? && seg.syn && !seg.ack && SeqLt(c.rcv.nxt, seg.seqNo)) {
      ResetsUnder(o.sent, o.conn.rcv.adv);
    } else if c.state.Listen? {
      SynUnder(Child(seg, env), env.now);
      if forall r <- o.sent :: r.rst { ResetsUnder(o.sent, o.conn.rcv.adv); }
    } else {
      var got := SegmentInput(c, seg, env);
      SegmentInputKeeps(c, seg, env);
      SegmentResets(c, seg, env);
      ResetsUnder(got.sent, got.conn.rcv.adv);
      if !c.state.SynSent? { SegmentHoldsEdge(c, seg, env); }
      if got.conn.used {
        OutputPromises(got.conn, got.conn, env.now);
        UnderBoth(got.sent, Output(got.conn, env.now).sent, got.conn.rcv.adv, o.conn.rcv.adv);
      }
    }
  }

  lemma SynTimeoutPromises(c: Conn, now: nat)
    requires Inv(c) && (c.state.SynSent? || c.state.SynReceived?)
    ensures Promises(c, SynTimeout(c, now))
  {
    hide SendSyn, Under;
    var r := Backoff(c.(retries := c.retries + 1));
    SynUnder(r, now);
    SendSynKeeps(r, now);
    NothingUnder(c.rcv.adv);
  }

  lemma ProbePromises(c: Conn, now: nat)
    requires Inv(c) && DataState(c.state)
    ensures Promises(c, Probe(c, now))
  {
    hide WindowPeek;
    WindowEdge(Backoff(c));
  }

  lemma ResendPromises(c: Conn, now: nat)
    requires Inv(c) && DataState(c.state)
    ensures Promises(c, Resend(c, now))
  {
    hide Inv, Core, Output, Under, Edged;
    BackoffCore(c, now);
    var r := c.(retries := c.retries + 1);
    if r.retries > DATA_RETRIES {
      AbortResets(r, ETIMEDOUT);
      ResetsUnder(Resend(c, now).sent, Resend(c, now).conn.rcv.adv);
    } else {
      OutputPromises(c, SetNxt(Backoff(r), r.snd.una).(timer := now + Backoff(r).rto), now);
    }
  }

  lemma AbortResets(c: Conn, error: int)
    ensures (forall seg <- Abort(c, error).sent :: seg.rst) && Abort(c, error).conn.rcv.adv == c.rcv.adv
  {
  }

  lemma TickPromises(c: Conn, now: nat)
    requires Inv(c)
    ensures Promises(c, Tick(c, now))
  {
    hide SeqEq, Inv, SynTimeout, Probe, Resend, Edged, Under;
    NothingUnder(c.rcv.adv);
    if c.state.SynSent? || c.state.SynReceived? { SynTimeoutPromises(c, now); }
    if DataState(c.state) {
      ProbePromises(c, now);
      ResendPromises(c, now);
    }
  }

  lemma ReadPromises(c: Conn, cap: nat, now: nat)
    requires Inv(c)
    ensures Promises(c, Read(c, cap, now).out)
  {
    ReadIs(c, cap, now);
    hide SeqLt, Diff, WindowPeek, Output, Read, Inv, Core, Offered, Edged, Under;
    NothingUnder(c.rcv.adv);
    if !Unconnected(c.state) && c.error == 0 && |c.rcv.rx| > 0 {
      TakenReady(c, Min(cap, |c.rcv.rx|));
      OutputPromises(c, TakenFrom(c, Min(cap, |c.rcv.rx|)).(ackNow := true), now);
    }
  }

  lemma WritePromises(c: Conn, data: seq<Byte>, now: nat)
    requires Inv(c)
    ensures Promises(c, Write(c, data, now).out)
  {
    hide Output, Edged, Under;
    NothingUnder(c.rcv.adv);
    if (c.state.Established? || c.state.CloseWait?) && |c.snd.tx| < BUFFER_SIZE && !c.finPending && c.error == 0 {
      OutputPromises(c, c.(snd := c.snd.(tx := c.snd.tx + data[..Min(|data|, BUFFER_SIZE - |c.snd.tx|)])), now);
    }
  }

  lemma ShutdownPromises(c: Conn, readSide: bool, writeSide: bool, now: nat)
    requires Inv(c)
    ensures Promises(c, Shutdown(c, readSide, writeSide, now).out)
  {
    hide Output, Core, Inv, Edged, Under;
    NothingUnder(c.rcv.adv);
    if !Unconnected(c.state) && !c.state.Closed? && writeSide {
      var r := if readSide then c.(readShut := true, rcv := c.rcv.(rx := [])) else c;
      ShutReady(c, readSide);
      OutputPromises(c, r.(finPending := true), now);
    }
  }

  lemma ClosePromises(c: Conn, now: nat)
    requires Inv(c)
    ensures Promises(c, Close(c, now))
  {
    hide Output, Core, Inv, Edged, Under, Abort;
    var o := c.(orphan := true);
    NothingUnder(c.rcv.adv);
    if Synchronized(c.state) && !((c.state.Established? || c.state.CloseWait?) && |c.rcv.rx| > 0) {
      var life := if c.state.TimeWait? then c.life else now + ORPHAN_LIFE_MS;
      CloseReady(c, life);
      OutputPromises(c, o.(rcv := c.rcv.(rx := []), finPending := true, life := life), now);
    } else {
      AbortResets(o, 0);
      ResetsUnder(Abort(o, 0).sent, c.rcv.adv);
    }
  }

  /** Whatever happens to a block, the windows it promises end at or below the edge it stands by. */
  lemma StepPromises(c: Conn, e: Event)
    requires Inv(c) && (e.Arrive? ==> Near(c, e.seg) || c.state.Closed? || c.state.Listen?)
    ensures Promises(c, Step(c, e))
  {
    hide Input, Tick, Read, Write, Shutdown, Close, Inv, Edged, Under;
    match e
    case Arrive(seg, env) => InputPromises(c, seg, env);
    case Clock(now) => TickPromises(c, now);
    case ReadCall(cap, at) => ReadPromises(c, cap, at);
    case WriteCall(data, at) => WritePromises(c, data, at);
    case ShutdownCall(r, w, at) => ShutdownPromises(c, r, w, at);
    case CloseCall(at) => ClosePromises(c, at);
    case AcceptCall => NothingUnder(c.rcv.adv);
  }

  // ---------- two ends ----------

  // The window x obeys is the window field of a segment that its peer sent.
  ghost predicate Told(x: Side, ny: Net) {
    Edged(x.conn.state) ==> exists s: Segment :: s in ny && From(x.conn.snd, s)
  }

  // Every window y ever promised ends at or below the edge it stands by.
  ghost predicate Stands(y: Side, ny: Net) {
    forall s <- ny :: !s.rst && s.ack ==> s.ackNo + s.window <= y.conn.rcv.adv
  }

  ghost predicate Heeding(p: Pair) { Told(p.a, p.nb) && Told(p.b, p.na) && Stands(p.a, p.na) && Stands(p.b, p.nb) }

  // The event a block sees when its end acts.
  function EventOf(a: Action): Event
    requires !a.Open? && !a.OpenListen?
  {
    match a
    case Deliver(seg, env) => Arrive(seg, env)
    case Timer(at) => Clock(at)
    case DoRead(cap, at) => ReadCall(cap, at)
    case DoWrite(data, at) => WriteCall(data, at)
    case DoShutdown(rd, wr, at) => ShutdownCall(rd, wr, at)
    case DoClose(at) => CloseCall(at)
    case DoAccept => AcceptCall
  }

  lemma ActIsStep(x: Side, a: Action)
    requires !a.Open? && !a.OpenListen?
    ensures Act(x, a).side.conn == Step(x.conn, EventOf(a)).conn && Act(x, a).sent == Step(x.conn, EventOf(a)).sent
  {
    hide Input, Tick, Read, Write, Shutdown, Close;
  }

  // What a delivered segment looks like to the block.
  lemma ArrivesNear(x: Side, nx: Net, y: Side, ny: Net, a: Action)
    requires Good(x, nx, y, ny) && Allowed(x, ny, a) && a.Deliver?
    ensures Near(x.conn, a.seg) || x.conn.state.Closed? || x.conn.state.Listen?
  {
    hide Good, Fresh;
    if !x.conn.state.Closed? && !x.conn.state.Listen? && !a.seg.rst { DeliveredNear(x, nx, y, ny, a.seg); }
  }

  lemma ToldStep(x: Side, nx: Net, y: Side, ny: Net, a: Action)
    requires Good(x, nx, y, ny) && Inv(x.conn) && Allowed(x, ny, a) && Told(x, ny) && !a.Open? && !a.OpenListen?
    ensures Told(Act(x, a).side, ny)
  {
    hide Good, Inv, Act, Step, Edged, Near, Fresh;
    ActIsStep(x, a);
    var c, d := x.conn, Act(x, a).side.conn;
    if a.Deliver? {
      ArrivesNear(x, nx, y, ny, a);
      InputHeeds(c, a.seg, a.env);
      ArriveIs(c, a);
      if Edged(d.state) && !From(d.snd, a.seg) {
        var s: Segment :| s in ny && From(c.snd, s);
        assert From(d.snd, s);
      }
    } else {
      EventIsOther(a);
      StepHolds(c, EventOf(a));
      if Edged(d.state) {
        var s: Segment :| s in ny && From(c.snd, s);
        assert From(d.snd, s);
      }
    }
  }

  lemma ArriveIs(c: Conn, a: Action)
    requires a.Deliver?
    ensures Step(c, EventOf(a)) == Input(c, a.seg, a.env) && EventOf(a) == Arrive(a.seg, a.env)
  {
    hide Input;
  }

  lemma EventIsOther(a: Action)
    requires !a.Open? && !a.OpenListen? && !a.Deliver?
    ensures !EventOf(a).Arrive?
  {
  }

  lemma ToldMore(x: Side, ny: Net, more: Net)
    requires Told(x, ny)
    ensures Told(x, ny + more)
  {
    hide From;
    if Edged(x.conn.state) {
      var s: Segment :| s in ny && From(x.conn.snd, s);
      assert s in ny + more;
    }
  }

  // Before it heard its peer an end acknowledges nothing; afterwards its edge never moves left.
  lemma StandsStep(x: Side, nx: Net, y: Side, ny: Net, a: Action)
    requires Good(x, nx, y, ny) && Inv(x.conn) && Allowed(x, ny, a) && Stands(x, nx) && !a.Open? && !a.OpenListen?
    ensures Stands(Act(x, a).side, nx + Elements(Act(x, a).sent))
  {
    SyncedStates(x, nx, y, ny);
    hide Good, Inv, Act, Step, Edged, Near, Fresh;
    ActIsStep(x, a);
    if a.Deliver? {
      ArrivesNear(x, nx, y, ny, a);
      ArriveIs(x.conn, a);
    } else {
      EventIsOther(a);
    }
    StepPromises(x.conn, EventOf(a));
  }

  lemma SyncedStates(x: Side, nx: Net, y: Side, ny: Net)
    requires Good(x, nx, y, ny)
    ensures (Edged(x.conn.state) || x.conn.state.Closed?) || forall s <- nx :: !s.rst ==> !s.ack
  {
    hide Core, Receiving, Genuine;
    assert Acking(y, x, nx);
  }

  // Opening an endpoint: nothing was promised and no window is known.
  lemma OpenHeeds(x: Side, nx: Net, y: Side, ny: Net, a: Action)
    requires Good(x, nx, y, ny) && (a.Open? || a.OpenListen?) && Told(x, ny) && Stands(x, nx)
    ensures Told(Act(x, a).side, ny) && Stands(Act(x, a).side, nx + Elements(Act(x, a).sent))
  {
    assert nx + Elements([]) == nx;
    if !x.started {
      ListenerOnlyResets(x, nx);
      hide Good, Told, Stands, Elements, Connect, FreshBlock;
      if a.Open? {
        ConnectHeeds(a.entropy, a.at, a.reachable);
        Unheard(Act(x, a).side, ny);
        StandsAnyway(Act(x, a).side, nx, Act(x, a).sent);
      } else {
        ListenUnheard(a.entropy);
        Unheard(Act(x, a).side, ny);
        StandsAnyway(Act(x, a).side, nx, []);
      }
    }
  }

  lemma ConnectHeeds(entropy: nat, at: nat, reachable: bool)
    ensures var o := Connect(entropy, at, reachable); !Edged(o.conn.state) && forall s <- o.sent :: !s.ack
  {
    hide SeqLt, WindowPeek;
  }

  lemma ListenUnheard(entropy: nat)
    ensures !Edged(FreshBlock(entropy).(state := Listen).state)
  {
  }

  lemma Unheard(x: Side, ny: Net)
    requires !Edged(x.conn.state)
    ensures Told(x, ny)
  {
  }

  lemma StandsAnyway(x: Side, nx: Net, sent: seq<Segment>)
    requires (forall s <- nx :: s.rst) && forall s <- sent :: !s.ack
    ensures Stands(x, nx + Elements(sent))
  {
  }

  lemma ActHeeds(x: Side, nx: Net, y: Side, ny: Net, a: Action)
    requires Good(x, nx, y, ny) && Inv(x.conn) && Allowed(x, ny, a) && Told(x, ny) && Told(y, nx) && Stands(x, nx)
    ensures var e := Act(x, a);
            Told(e.side, ny) && Told(y, nx + Elements(e.sent)) && Stands(e.side, nx + Elements(e.sent))
  {
    hide Good, Inv, Act, Told, Stands, Allowed, Elements;
    ToldMore(y, nx, Elements(Act(x, a).sent));
    if a.Open? || a.OpenListen? {
      OpenHeeds(x, nx, y, ny, a);
    } else {
      ToldStep(x, nx, y, ny, a);
      StandsStep(x, nx, y, ny, a);
    }
  }

  lemma {:induction false} EveryRunHeeds(moves: seq<Move>)
    requires Legal(moves)
    ensures Heeding(Reached(moves))
  {
    if moves == [] {
      assert Told(Idle(), {}) && Stands(Idle(), {});
    } else {
      var last := |moves| - 1;
      LegalUpTo(moves, last);
      EveryRunHeeds(moves[..last]);
      EveryRunKeeps(moves[..last]);
      var p, m := Reached(moves[..last]), moves[last];
      hide Good, Inv, Act, Told, Stands, Elements, Allowed;
      if m.left {
        ActHeeds(p.a, p.na, p.b, p.nb, m.action);
      } else {
        Symmetric(p.a, p.na, p.b, p.nb);
        ActHeeds(p.b, p.nb, p.a, p.na, m.action);
      }
    }
  }

  lemma ActObeys(x: Side, nx: Net, y: Side, ny: Net, a: Action)
    requires Good(x, nx, y, ny) && Inv(x.conn) && Allowed(x, ny, a)
    ensures Obeys(Act(x, a).side.conn, Act(x, a).sent)
  {
    hide Good, Inv, Step, Near, Fresh, Obeys, Input, Tick, Read, Write, Shutdown, Close, Connect;
    if a.Open? || a.OpenListen? {
      OpenTextless(x, a);
      TextlessObeys(Act(x, a).side.conn, Act(x, a).sent);
    } else {
      ActIsStep(x, a);
      if a.Deliver? {
        ArrivesNear(x, nx, y, ny, a);
        ArriveIs(x.conn, a);
      } else {
        EventIsOther(a);
      }
      StepObeys(x.conn, EventOf(a));
    }
  }

  lemma OpenTextless(x: Side, a: Action)
    requires a.Open? || a.OpenListen?
    ensures forall s <- Act(x, a).sent :: s.data == []
  {
    hide SeqLt, WindowPeek;
  }

  /**
   In every run no end sends text past the window it was last told.  Each text segment an action
   sends is no longer than a segment may be and ends at or below snd_una plus the window field of
   a segment s that the peer sent, the last one the end took a window from; s acknowledged no more
   than snd_una.  If s acknowledged exactly snd_una, the text also lies below the edge the peer
   stands by at that moment.
   */
  lemma TextStaysInTheWindow(moves: seq<Move>, left: bool, a: Action, seg: Segment) returns (s: Segment)
    requires Legal(moves) && Enabled(Reached(moves), Move(left, a))
    requires seg in Act(One(Reached(moves), left), a).sent && seg.data != []
    ensures var p, d := Reached(moves), Act(One(Reached(moves), left), a).side.conn;
            && s in SentBy(p, !left) && From(d.snd, s) && |seg.data| <= d.mss
            && d.snd.una <= seg.seqNo && seg.seqNo + |seg.data| <= d.snd.una + s.window
            && (s.ack && s.ackNo == d.snd.una ==> seg.seqNo + |seg.data| <= One(p, !left).conn.rcv.adv)
  {
    var p := Reached(moves);
    EveryRunKeeps(moves);
    EveryRunHeeds(moves);
    EitherEnd(p, left);
    var x, y := One(p, left), One(p, !left);
    hide Good, Inv, Act, Reached, Legal, Elements, From, Piece;
    ActHeeds(x, SentBy(p, left), y, SentBy(p, !left), a);
    ActObeys(x, SentBy(p, left), y, SentBy(p, !left), a);
    var d := Act(x, a).side.conn;
    assert DataState(d.state) && Piece(d.snd, d.mss, seg);
    s :| s in SentBy(p, !left) && From(d.snd, s);
    PieceInside(d, seg, s);
    assert s in SentBy(p, !left) && !s.rst && s.ack ==> s.ackNo + s.window <= y.conn.rcv.adv;
  }

  lemma PieceInside(d: Conn, seg: Segment, s: Segment)
    requires Piece(d.snd, d.mss, seg) && From(d.snd, s)
    ensures |seg.data| <= d.mss && d.snd.una <= seg.seqNo && seg.seqNo + |seg.data| <= d.snd.una + s.window && !s.rst
  {
  }

  // ---------- which window is taken ----------

  // The segment is not older than the one the window came from, and acknowledges something known.
  predicate Newer(s: Sender, seg: Segment) {
    s.una <= seg.ackNo <= s.max && (s.wl1 < seg.seqNo || (s.wl1 == seg.seqNo && s.wl2 <= seg.ackNo))
  }

  // Numbers that 32 bits can compare.
  predicate Comparable(s: Sender, seg: Segment) {
    -HALF <= s.wl1 - seg.seqNo < HALF && -HALF <= s.wl2 - seg.ackNo < HALF
  }

  /** An end in contact with its peer takes the window of an acceptable segment exactly when it is the newest. */
  lemma WindowFollowsNewest(c: Conn, seg: Segment, env: Env)
    requires c.used && Inv(c) && Near(c, seg) && Synchronized(c.state) && Comparable(c.snd, seg)
    requires Acceptable(c, seg) && !seg.rst && !seg.syn && seg.ack
    ensures var d := SegmentInput(c, seg, env).conn;
            !d.state.Closed? ==> if Newer(c.snd, seg) then From(d.snd, seg) else SameWindow(c.snd, d.snd)
  {
    hide SeqEq, SeqLt, SeqLe, Acceptable, TextInput, AckAdvance, ResetInput, WindowUpdate, Establish, SynSentInput,
      SetWindow, ReplyReset, Inv, Near, Synchronized, DataState;
    OpenStates(c.state);
    InRange(c, seg);
    if !SeqLt(c.snd.max, seg.ackNo) {
      AckHeeds(c, seg, env);
      var acked := if SeqLt(c.snd.una, seg.ackNo) then AckAdvance(c, seg.ackNo, env) else c;
      AckMoves(c, seg, env);
      InUse(c, seg.ackNo, env);
      UpdateIs(acked, seg);
      TextHoldsSender(WindowUpdate(acked, seg), seg, env.now);
    }
  }

  lemma InRange(c: Conn, seg: Segment)
    requires Inv(c) && Near(c, seg) && Synchronized(c.state) && !seg.rst && seg.ack
    ensures c.snd.una <= seg.ackNo ==> (SeqLt(c.snd.max, seg.ackNo) <==> c.snd.max < seg.ackNo)
    ensures c.snd.una <= c.snd.max
  {
    hide SeqLt, SeqEq, SeqLe;
    if c.snd.una <= seg.ackNo { SeqExact(c.snd.max, seg.ackNo); }
  }

  // After the acknowledgement the segment acknowledges snd_una exactly if it acknowledged no less before.
  lemma AckMoves(c: Conn, seg: Segment, env: Env)
    requires Inv(c) && Near(c, seg) && Synchronized(c.state) && !seg.rst && !seg.syn && seg.ack
    requires !SeqLt(c.snd.max, seg.ackNo)
    ensures var acked := if SeqLt(c.snd.una, seg.ackNo) then AckAdvance(c, seg.ackNo, env) else c;
            SeqLe(acked.snd.una, seg.ackNo) <==> c.snd.una <= seg.ackNo
  {
    hide SeqLt, SeqLe, SeqEq, AckAdvance, AckedBytes, FinAcked;
    SeqExact(c.snd.una, seg.ackNo);
    if c.snd.una < seg.ackNo {
      SeqExact(c.snd.max, seg.ackNo);
      AckAdvanceValue(c, seg.ackNo, env);
      SeqExact(seg.ackNo, seg.ackNo);
    }
  }

  lemma UpdateIs(c: Conn, seg: Segment)
    requires !seg.rst && Comparable(c.snd, seg) && (SeqLe(c.snd.una, seg.ackNo) ==> c.snd.una == seg.ackNo)
    ensures var d := WindowUpdate(c, seg);
            if SeqLe(c.snd.una, seg.ackNo)
               && (c.snd.wl1 < seg.seqNo || (c.snd.wl1 == seg.seqNo && c.snd.wl2 <= seg.ackNo))
            then From(d.snd, seg) else SameWindow(c.snd, d.snd)
  {
    hide SeqLt, SeqLe, SeqEq;
    SeqExact(c.snd.wl1, seg.seqNo);
    SeqExact(c.snd.wl2, seg.ackNo);
  }

  /**
   The edge the peer stands by can be passed all the same: an acknowledgement on a segment numbered
   before the one the window came from moves snd_una but not the window, so the old window is
   counted from the new place and text goes out although this segment promised none.
   */
  lemma OlderNumberOverruns(c: Conn, seg: Segment, env: Env) returns (text: Segment)
    requires Inv(c) && Near(c, seg) && c.state.Established? && c.used && Comparable(c.snd, seg)
    requires Acceptable(c, seg) && !seg.rst && !seg.syn && !seg.fin && seg.ack && seg.data == []
    requires seg.seqNo < c.snd.wl1 && c.snd.wnd > 0 && seg.window == 0 && !c.finPending
    requires c.snd.una < seg.ackNo == c.snd.nxt == c.snd.max < c.snd.una + |c.snd.tx|
    ensures text in Input(c, seg, env).sent && text.data != [] && text.seqNo + |text.data| > seg.ackNo + seg.window
  {
    hide SeqLt, SeqLe, SeqEq, Inv, Near, Acceptable, Output, SegmentInput, ChunkLength, SendChunk, Core;
    var got := SegmentInput(c, seg, env).conn;
    SegmentInputKeeps(c, seg, env);
    WidenedWindow(c, seg, env);
    text := WindowIsUsed(got, env.now);
  }

  lemma WidenedWindow(c: Conn, seg: Segment, env: Env)
    requires Inv(c) && Near(c, seg) && c.state.Established? && c.used && Comparable(c.snd, seg)
    requires Acceptable(c, seg) && !seg.rst && !seg.syn && !seg.fin && seg.ack && seg.data == []
    requires seg.seqNo < c.snd.wl1 && !c.finPending
    requires c.snd.una < seg.ackNo == c.snd.nxt == c.snd.max < c.snd.una + |c.snd.tx|
    ensures var d := SegmentInput(c, seg, env).conn;
            d.used && d.state.Established? && d.snd.una == d.snd.nxt == seg.ackNo && d.snd.wnd == c.snd.wnd
                && |d.snd.tx| > 0
  {
    hide SeqEq, SeqLt, SeqLe, Acceptable, AckAdvance, ResetInput, WindowUpdate, Establish, SynSentInput,
      SetWindow, ReplyReset, Inv, Near, AckedBytes, FinAcked, AcceptFin;
    InRange(c, seg);
    AckOrder(c);
    SeqExactHere(c, seg);
    AckedBytesExact(c, seg.ackNo);
    AckAdvanceValue(c, seg.ackNo, env);
    AckHeeds(c, seg, env);
    var acked := AckAdvance(c, seg.ackNo, env);
    AckUsed(c, seg.ackNo, env);
    UpdateIs(acked, seg);
    UpdateState(acked, seg);
    UpdateOnly(acked, seg);
  }

  lemma AckOrder(c: Conn)
    requires Inv(c) && Synchronized(c.state)
    ensures SendOrder(c.snd, FinCount(c.state)) && (FinOut(c.state) ==> c.finPending)
  {
  }

  lemma SeqExactHere(c: Conn, seg: Segment)
    requires Inv(c) && Near(c, seg) && Synchronized(c.state) && !seg.rst && seg.ack
    ensures SeqLt(c.snd.una, seg.ackNo) <==> c.snd.una < seg.ackNo
  {
    SeqExact(c.snd.una, seg.ackNo);
  }

  lemma AckUsed(c: Conn, ackNo: int, env: Env)
    requires !FinAcked(c, ackNo)
    ensures AckAdvance(c, ackNo, env).used == c.used
  {
    hide SeqEq, SeqLt, AckedBytes, FinAcked;
  }

  lemma InUse(c: Conn, ackNo: int, env: Env)
    requires c.used
    ensures AckAdvance(c, ackNo, env).used || AckAdvance(c, ackNo, env).state.Closed?
  {
    hide SeqEq, SeqLt, AckedBytes, FinAcked, AckArmed, Finish, EnterTimeWait;
    ArmedFrame(c, ackNo, env);
    FinishValue(AckArmed(c, ackNo, env));
    EnterTimeWaitValue(AckArmed(c, ackNo, env), env.now);
  }

  lemma UpdateOnly(c: Conn, seg: Segment)
    ensures var d := WindowUpdate(c, seg);
            d.used == c.used && d.snd.una == c.snd.una && d.snd.nxt == c.snd.nxt && d.snd.tx == c.snd.tx
  {
    hide SeqEq, SeqLt, SeqLe;
  }

  // With nothing in flight, an open window and queued text, tcp_output sends from snd_una.
  lemma WindowIsUsed(c: Conn, now: nat) returns (text: Segment)
    requires Core(c) && DataState(c.state) && c.snd.una == c.snd.nxt && c.snd.wnd > 0 && |c.snd.tx| > 0
    ensures text in Output(c, now).sent && text.data != [] && text.seqNo == c.snd.una
  {
    hide SeqLt, SeqEq, WindowPeek, ChunkLength, SendChunk, Diff, Core, SendFin, SendAck, ArmTimer, Output;
    ChunkIs(c);
    ChunkIsPiece(c);
    RingFits(c);
    OutputUnfolds(c, now);
    PulledSame(c);
    text := SendChunk(c).sent[0];
    assert text in SendData(c).sent;
  }

  lemma PulledSame(c: Conn)
    requires c.snd.wnd > 0
    ensures Pulled(c) == c
  {
  }
}
