/**
 What tcp_output puts on the wire, byte by byte: text inside the peer's window and no longer than a
 segment, in order, as much as the window and the silly-window rule let through.
 */
module TcpFlow {
  import opened TcpSpec
  import opened TcpInvariant
  import opened TcpWrap
  import opened TcpWindow

  // A piece that the window cuts shorter than a segment waits while anything is in flight.
  predicate Silly(s: Sender, mss: int, at: int) { 0 < at && s.wnd - at < |s.tx| - at && s.wnd - at < mss }

  // Nothing more can go out: no byte is unsent, the window is full, or the next piece would be silly.
  predicate Stopped(s: Sender, mss: int) {
    var at := s.nxt - s.una;
    |s.tx| <= at || s.wnd <= at || Silly(s, mss, at)
  }

  // Text the window lets through; it is short only at the end of the text, of the window or of the ring.
  ghost predicate Piece(s: Sender, mss: int, seg: Segment) {
    var at, n := seg.seqNo - s.una, |seg.data|;
    && 0 <= at && 0 < n <= mss && at + n <= s.wnd && !Silly(s, mss, at)
    && at + n <= |s.tx| && seg.data == s.tx[at..at + n]
    && (n == mss || at + n == |s.tx| || at + n == s.wnd || (s.txHead + at + n) % BUFFER_SIZE == 0)
  }

  ghost predicate Pieces(s: Sender, mss: int, sent: seq<Segment>) {
    forall seg <- sent :: seg.data != [] ==> Piece(s, mss, seg)
  }

  // The segments follow one another without gap or overlap.
  ghost predicate InARow(sent: seq<Segment>, from: int, upto: int) {
    if sent == [] then from == upto
    else sent[0].seqNo == from && InARow(sent[1..], from + |sent[0].data|, upto)
  }

  // The segments that carry text.
  function Text(sent: seq<Segment>): seq<Segment> {
    if sent == [] then []
    else (if sent[0].data == [] then [] else [sent[0]]) + Text(sent[1..])
  }

  lemma {:induction false} TextOfText(sent: seq<Segment>)
    requires forall seg <- sent :: seg.data != []
    ensures Text(sent) == sent
  {
    if sent != [] { TextOfText(sent[1..]); }
  }

  lemma {:induction false} TextBefore(sent: seq<Segment>, rest: seq<Segment>)
    requires forall seg <- rest :: seg.data == []
    ensures Text(sent + rest) == Text(sent)
  {
    if sent == [] {
      assert sent + rest == rest;
      NoText(rest);
    } else {
      assert (sent + rest)[1..] == sent[1..] + rest;
      TextBefore(sent[1..], rest);
    }
  }

  lemma {:induction false} NoText(sent: seq<Segment>)
    requires forall seg <- sent :: seg.data == []
    ensures Text(sent) == []
  {
    if sent != [] { NoText(sent[1..]); }
  }

  // ---------- the data loop ----------

  lemma ChunkIs(c: Conn)
    requires Core(c) && DataState(c.state)
    ensures ChunkLength(c) == 0 <==> Stopped(c.snd, c.mss)
    ensures ChunkLength(c) > 0 ==>
              var at, n := c.snd.nxt - c.snd.una, ChunkLength(c);
              && 0 <= at && n <= c.mss && at + n <= c.snd.wnd && at + n <= |c.snd.tx| && !Silly(c.snd, c.mss, at)
              && (n == c.mss || at + n == |c.snd.tx| || at + n == c.snd.wnd
                  || n == BUFFER_SIZE - (c.snd.txHead + at) % BUFFER_SIZE)
  {
    hide Diff, RecvBounds, FinCoherent;
    InFlight(c.snd, FinCount(c.state));
  }

  lemma RingEnd(p: nat, n: nat)
    requires n == BUFFER_SIZE - p % BUFFER_SIZE
    ensures (p + n) % BUFFER_SIZE == 0
  {
  }

  lemma ChunkIsPiece(c: Conn)
    requires Core(c) && DataState(c.state) && ChunkLength(c) > 0
    ensures Pieces(c.snd, c.mss, SendChunk(c).sent) && InARow(SendChunk(c).sent, c.snd.nxt, SendChunk(c).conn.snd.nxt)
    ensures forall seg <- SendChunk(c).sent :: seg.data != []
    ensures |SendChunk(c).sent| == 1 && SendChunk(c).conn.mss == c.mss
    ensures SendChunk(c).conn.snd.nxt <= c.snd.una + |c.snd.tx|
  {
    hide ChunkLength, SendChunk, Diff, WindowPeek, Silly;
    ChunkIs(c);
    Flying(c);
    SendChunkValue(c);
    var at, n := c.snd.nxt - c.snd.una, ChunkLength(c);
    assert c.snd.tx[at..][..n] == c.snd.tx[at..at + n];
    if n == BUFFER_SIZE - (c.snd.txHead + at) % BUFFER_SIZE { RingEnd(c.snd.txHead + at, n); }
  }

  lemma Flying(c: Conn)
    requires Core(c) && DataState(c.state)
    ensures Diff(c.snd.nxt, c.snd.una) == c.snd.nxt - c.snd.una
    ensures ChunkLength(c) <= BUFFER_SIZE && -0x1_0000 <= c.snd.max - c.snd.nxt <= 0x1_0000
  {
    hide Diff;
    InFlight(c.snd, FinCount(c.state));
  }

  // Text that is a piece for a block is one for any block with the same queue and window.
  lemma SamePieces(s: Sender, t: Sender, mss: int, sent: seq<Segment>)
    requires SameSender(s, t)
    ensures Pieces(s, mss, sent) <==> Pieces(t, mss, sent)
  {
    forall seg ensures Piece(s, mss, seg) <==> Piece(t, mss, seg) {}
    hide Piece;
  }

  lemma InARowJoins(first: seq<Segment>, rest: seq<Segment>, from: int, mid: int, upto: int)
    requires |first| == 1 && InARow(first, from, mid) && InARow(rest, mid, upto)
    ensures InARow(first + rest, from, upto)
  {
    assert (first + rest)[1..] == rest;
  }

  /**
   The data loop of tcp_output: it sends the queued text in order from snd_nxt on, in pieces the
   window lets through, and stops only when nothing more can go out.
   */
  lemma {:induction false} SendDataObeys(c: Conn)
    requires Core(c) && DataState(c.state)
    ensures var o := SendData(c);
            && Pieces(c.snd, c.mss, o.sent) && InARow(o.sent, c.snd.nxt, o.conn.snd.nxt)
            && (forall seg <- o.sent :: seg.data != []) && Stopped(o.conn.snd, o.conn.mss) && o.conn.mss == c.mss
            && (o.conn.snd.nxt == c.snd.nxt || o.conn.snd.nxt <= c.snd.una + |c.snd.tx|)
    decreases Unsent(c)
  {
    hide SendChunk, ChunkLength, Piece, Stopped, Core;
    ChunkIs(c);
    RingFits(c);
    if ChunkLength(c) > 0 {
      var first := SendChunk(c);
      SendChunkKeeps(c);
      ChunkIsPiece(c);
      ChunkShrinks(c);
      SendDataObeys(first.conn);
      SamePieces(c.snd, first.conn.snd, c.mss, SendData(first.conn).sent);
      InARowJoins(first.sent, SendData(first.conn).sent, c.snd.nxt, first.conn.snd.nxt, SendData(c).conn.snd.nxt);
    }
  }

  lemma RingFits(c: Conn)
    requires Core(c) && DataState(c.state)
    ensures |c.snd.tx| <= BUFFER_SIZE
  {
  }

  // ---------- tcp_output ----------

  lemma Textless(c: Conn, now: nat)
    ensures forall seg <- SendFin(c).sent :: seg.data == []
    ensures forall seg <- SendAck(c).sent :: seg.data == []
    ensures forall seg <- SendSyn(c, now).sent :: seg.data == []
  {
    hide SeqEq, SeqLt, WindowPeek;
  }

  lemma SameStop(s: Sender, t: Sender, mss: int)
    requires SameSender(s, t) && Stopped(s, mss) && (t.nxt == s.nxt || t.nxt >= t.una + |t.tx|)
    ensures Stopped(t, mss)
  {
  }

  lemma {:induction false} PiecesRest(s: Sender, mss: int, sent: seq<Segment>, rest: seq<Segment>)
    requires Pieces(s, mss, sent) && forall seg <- rest :: seg.data == []
    ensures Pieces(s, mss, sent + rest)
  {
    hide Piece;
  }

  // Where the text of one tcp_output starts: a shut window takes snd_nxt back.
  function TextStart(s: Sender): int { if s.wnd == 0 && |s.tx| > 0 then s.una else s.nxt }

  // And where it ends: before a FIN that went out behind it.
  function TextEnd(s: Sender, from: int): int { if from <= s.una + |s.tx| < s.nxt then s.una + |s.tx| else s.nxt }

  lemma PulledIs(c: Conn)
    ensures Pulled(c).snd.nxt == TextStart(c.snd) && SameSender(c.snd, Pulled(c).snd) && Pulled(c).mss == c.mss
            && Pulled(c).state == c.state
  {
  }

  // The FIN goes out behind the last byte, or nothing changes.
  lemma FinBehindText(c: Conn)
    requires Core(c) && DataState(c.state)
    ensures var f := SendFin(c).conn;
            && SameSender(c.snd, f.snd) && f.mss == c.mss
            && (f.snd.nxt == c.snd.nxt || (c.snd.nxt == c.snd.una + |c.snd.tx| && f.snd.nxt == c.snd.nxt + 1))
  {
    hide SeqEq, SeqLt, WindowPeek, SendFin, Diff;
    InFlight(c.snd, FinCount(c.state));
    if c.finPending && c.snd.nxt == c.snd.una + |c.snd.tx| { SendFinValue(c); } else { SendFinSkipped(c); }
  }

  lemma AckLeavesSender(c: Conn, now: nat)
    ensures SendAck(c).conn.snd == c.snd && SendAck(c).conn.mss == c.mss
    ensures ArmTimer(c, now).snd == c.snd && ArmTimer(c, now).mss == c.mss
  {
    hide WindowPeek, SeqEq;
  }

  /**
   tcp_output in a data state: every text segment lies inside the peer's window and is no longer
   than a segment may be, the texts follow one another from snd_nxt on, and more would have been
   sent had the window and the silly-window rule let it.
   */
  lemma OutputObeys(c: Conn, now: nat)
    requires Core(c) && DataState(c.state)
    ensures var o := Output(c, now);
            && SameSender(c.snd, o.conn.snd) && o.conn.mss == c.mss
            && Pieces(c.snd, c.mss, o.sent)
               && InARow(Text(o.sent), TextStart(c.snd), TextEnd(o.conn.snd, TextStart(c.snd)))
            && Stopped(o.conn.snd, c.mss)
  {
    var pulled := Pulled(c);
    var data := SendData(pulled);
    var fin := SendFin(data.conn);
    var ack := SendAck(fin.conn);
    hide *;
    OutputUnfolds(c, now);
    PulledKeeps(c);
    PulledIs(c);
    SendDataKeeps(pulled);
    SendDataObeys(pulled);
    FinBehindText(data.conn);
    AckLeavesSender(fin.conn, now);
    AckLeavesSender(ack.conn, now);
    TransmittedSender(pulled, data.conn);
    SenderChain(c.snd, pulled.snd, data.conn.snd, fin.conn.snd);
    SamePieces(c.snd, pulled.snd, c.mss, data.sent);
    Textless(data.conn, now);
    Textless(fin.conn, now);
    PiecesRest(c.snd, c.mss, data.sent, fin.sent);
    PiecesRest(c.snd, c.mss, data.sent + fin.sent, ack.sent);
    TextOfText(data.sent);
    TextBefore(data.sent, fin.sent);
    TextBefore(data.sent + fin.sent, ack.sent);
    SameStop(data.conn.snd, fin.conn.snd, c.mss);
    EndsThere(pulled.snd, data.conn.snd, fin.conn.snd);
  }

  lemma TransmittedSender(c: Conn, d: Conn)
    requires Transmitted(c, d)
    ensures SameSender(c.snd, d.snd)
  {
  }

  lemma SenderChain(a: Sender, b: Sender, c: Sender, d: Sender)
    requires SameSender(a, b) && SameSender(b, c) && SameSender(c, d)
    ensures SameSender(a, d) && d.una == c.una && d.tx == c.tx
  {
  }

  lemma EndsThere(s: Sender, d: Sender, t: Sender)
    requires SameSender(s, d) && SameSender(d, t) && (d.nxt == s.nxt || d.nxt <= s.una + |s.tx|)
    requires t.nxt == d.nxt || (d.nxt == d.una + |d.tx| && t.nxt == d.nxt + 1)
    ensures s.nxt <= d.nxt ==> TextEnd(t, s.nxt) == d.nxt
  {
  }

  // ---------- every call ----------

  // All text among the segments was sent by a block in a data state, inside its window.
  ghost predicate Obeys(d: Conn, sent: seq<Segment>) {
    forall seg <- sent :: seg.data != [] ==> DataState(d.state) && Piece(d.snd, d.mss, seg)
  }

  lemma TextlessObeys(d: Conn, sent: seq<Segment>)
    requires forall seg <- sent :: seg.data == []
    ensures Obeys(d, sent)
  {
    hide Piece;
  }

  lemma OutputObeying(c: Conn, now: nat)
    requires Core(c)
    ensures Obeys(Output(c, now).conn, Output(c, now).sent)
  {
    hide SendSyn, SendAck, SendData, SendFin, Piece, Pieces, Obeys, Inv, OutputFrame, Core, ArmTimer, Pulled;
    var o := Output(c, now);
    if DataState(c.state) {
      OutputObeys(c, now);
      SamePieces(c.snd, o.conn.snd, c.mss, o.sent);
      OutputKeeps(c, now);
      PiecesObey(c, o);
    } else {
      Textless(c, now);
      TextlessObeys(o.conn, o.sent);
    }
  }

  lemma PiecesObey(c: Conn, o: Out)
    requires DataState(c.state) && OutputFrame(c, o.conn) && Pieces(o.conn.snd, c.mss, o.sent)
    ensures Obeys(o.conn, o.sent)
  {
    hide Piece;
  }

  lemma SegmentTextless(c: Conn, seg: Segment, env: Env)
    ensures forall r <- SegmentInput(c, seg, env).sent :: r.data == []
  {
    hide SeqLt, SeqEq, SeqLe, Acceptable, AckAdvance, Establish, ResetInput, WindowUpdate, Overlap, Fail, SynHeard,
      AcceptFin, SegmentLength, SetWindow;
  }

  lemma InputObeying(c: Conn, seg: Segment, env: Env)
    requires Inv(c) && (Near(c, seg) || c.state.Closed? || c.state.Listen?)
    ensures Obeys(Input(c, seg, env).conn, Input(c, seg, env).sent)
  {
    hide SeqLt, SegmentInput, Output, Inv, Core, Near, Obeys, SendSyn, Child, SegmentLength;
    var o := Input(c, seg, env);
    if !c.used || c.state.Closed? || (c.state.TimeWait? && seg.syn && !seg.ack && SeqLt(c.rcv.nxt, seg.seqNo)) {
      TextlessObeys(o.conn, o.sent);
    } else if c.state.Listen? {
      Textless(Child(seg, env), env.now);
      TextlessObeys(o.conn, o.sent);
    } else {
      var got := SegmentInput(c, seg, env);
      SegmentInputKeeps(c, seg, env);
      SegmentTextless(c, seg, env);
      if got.conn.used {
        OutputObeying(got.conn, env.now);
        ObeysBefore(o.conn, got.sent, Output(got.conn, env.now).sent);
      } else {
        TextlessObeys(o.conn, o.sent);
      }
    }
  }

  lemma ObeysBefore(d: Conn, sent: seq<Segment>, rest: seq<Segment>)
    requires Obeys(d, rest) && forall seg <- sent :: seg.data == []
    ensures Obeys(d, sent + rest)
  {
    hide Piece;
  }

  lemma AbortTextless(c: Conn, error: int)
    ensures forall seg <- Abort(c, error).sent :: seg.data == []
  {
    hide Fail;
  }

  lemma SynTimeoutTextless(c: Conn, now: nat)
    ensures forall seg <- SynTimeout(c, now).sent :: seg.data == []
  {
    hide SendSyn, Fail;
    Textless(Backoff(c.(retries := c.retries + 1)), now);
  }

  lemma ProbeTextless(c: Conn, now: nat)
    ensures forall seg <- Probe(c, now).sent :: seg.data == []
  {
    hide WindowPeek;
  }

  lemma ResendObeying(c: Conn, now: nat)
    requires Inv(c) && DataState(c.state)
    ensures var o := Resend(c, now); Obeys(o.conn, o.sent)
  {
    hide Inv, Core, Output, Obeys, Abort;
    BackoffCore(c, now);
    var r := c.(retries := c.retries + 1);
    if r.retries > DATA_RETRIES {
      AbortTextless(r, ETIMEDOUT);
      TextlessObeys(Resend(c, now).conn, Resend(c, now).sent);
    } else {
      OutputObeying(SetNxt(Backoff(r), r.snd.una).(timer := now + Backoff(r).rto), now);
    }
  }

  lemma TickObeying(c: Conn, now: nat)
    requires Inv(c)
    ensures Obeys(Tick(c, now).conn, Tick(c, now).sent)
  {
    hide SeqEq, Inv, SynTimeout, Probe, Resend, Obeys, Finish;
    var o := Tick(c, now);
    SynTimeoutTextless(c, now);
    ProbeTextless(c, now);
    if DataState(c.state) { ResendObeying(c, now); }
    if forall seg <- o.sent :: seg.data == [] { TextlessObeys(o.conn, o.sent); }
  }

  lemma ReadObeying(c: Conn, cap: nat, now: nat)
    requires Inv(c)
    ensures var o := Read(c, cap, now).out; Obeys(o.conn, o.sent)
  {
    ReadIs(c, cap, now);
    hide SeqLt, Diff, WindowPeek, Output, Read, Inv, Core, Offered, Obeys;
    var o := Read(c, cap, now).out;
    if !Unconnected(c.state) && c.error == 0 && |c.rcv.rx| > 0 {
      var taken := TakenFrom(c, Min(cap, |c.rcv.rx|)).(ackNow := true);
      TakenReady(c, Min(cap, |c.rcv.rx|));
      OutputObeying(taken, now);
    }
    if o.sent == [] { TextlessObeys(o.conn, o.sent); }
  }

  lemma WriteObeying(c: Conn, data: seq<Byte>, now: nat)
    requires Inv(c)
    ensures var o := Write(c, data, now).out; Obeys(o.conn, o.sent)
  {
    hide Output, Obeys;
    var o := Write(c, data, now).out;
    if (c.state.Established? || c.state.CloseWait?) && |c.snd.tx| < BUFFER_SIZE && !c.finPending && c.error == 0 {
      OutputObeying(c.(snd := c.snd.(tx := c.snd.tx + data[..Min(|data|, BUFFER_SIZE - |c.snd.tx|)])), now);
    } else {
      TextlessObeys(o.conn, o.sent);
    }
  }

  lemma ShutdownObeying(c: Conn, readSide: bool, writeSide: bool, now: nat)
    requires Inv(c)
    ensures var o := Shutdown(c, readSide, writeSide, now).out; Obeys(o.conn, o.sent)
  {
    hide Output, Core, Inv, Obeys;
    var o := Shutdown(c, readSide, writeSide, now).out;
    if !Unconnected(c.state) && !c.state.Closed? && writeSide {
      var r := if readSide then c.(readShut := true, rcv := c.rcv.(rx := [])) else c;
      ShutReady(c, readSide);
      OutputObeying(r.(finPending := true), now);
    } else {
      TextlessObeys(o.conn, o.sent);
    }
  }

  lemma CloseObeying(c: Conn, now: nat)
    requires Inv(c)
    ensures var o := Close(c, now); Obeys(o.conn, o.sent)
  {
    hide Output, Core, Inv, Obeys, Abort;
    var o := Close(c, now);
    if Synchronized(c.state) && !((c.state.Established? || c.state.CloseWait?) && |c.rcv.rx| > 0) {
      var life := if c.state.TimeWait? then c.life else now + ORPHAN_LIFE_MS;
      var d := c.(orphan := true).(rcv := c.rcv.(rx := []), finPending := true, life := life);
      CloseReady(c, life);
      OutputObeying(d, now);
    } else {
      AbortTextless(c.(orphan := true), 0);
      TextlessObeys(o.conn, o.sent);
    }
  }

  /**
   Whatever happens to a block, every text segment it sends lies inside the window and the queue
   it has afterwards, against any peer and any network.
   */
  lemma StepObeys(c: Conn, e: Event)
    requires Inv(c) && (e.Arrive? ==> Near(c, e.seg) || c.state.Closed? || c.state.Listen?)
    ensures var o := Step(c, e); Obeys(o.conn, o.sent)
  {
    hide Input, Tick, Read, Write, Shutdown, Close, Inv, Obeys;
    match e
    case Arrive(seg, env) => InputObeying(c, seg, env);
    case Clock(now) => TickObeying(c, now);
    case ReadCall(cap, at) => ReadObeying(c, cap, at);
    case WriteCall(data, at) => WriteObeying(c, data, at);
    case ShutdownCall(r, w, at) => ShutdownObeying(c, r, w, at);
    case CloseCall(at) => CloseObeying(c, at);
    case AcceptCall => TextlessObeys(Accept(c), []);
  }
}
