/**
 Two endpoints and a network that loses, duplicates and reorders segments.  In every run
 the bytes read on one side are a prefix of the bytes written on the other, and a FIN is
 consumed only after every byte before it.
 */
module TcpSystem {
  import opened TcpSpec
  import opened TcpInvariant
  import opened TcpWrap

  // An endpoint: its block, whether it was opened, whether it has heard the peer's SYN, all
  // bytes tcp_write accepted and all bytes tcp_read returned.
  datatype Side = Side(conn: Conn, started: bool, synced: bool, written: seq<Byte>, read: seq<Byte>)

  // Everything ever sent stays deliverable, which covers loss, duplication and reordering.
  type Net = set<Segment>

  function Base(x: Side): int { x.conn.snd.iss + 1 }

  predicate Heard(s: State) { s.SynReceived? || Synchronized(s) }

  function FinOffset(b: bool): nat { if b then 1 else 0 }

  function Elements(sent: seq<Segment>): Net { set seg | seg in sent }

  // ---------- the invariant of the pair ----------

  // The transmit ring is the unacknowledged tail of the written stream.
  ghost predicate SenderOk(x: Side) {
    && (!x.started ==> x.conn.state.Closed?)
    && (x.conn.state.Listen? || x.conn.state.SynSent? || !x.started ==> !x.synced)
    && (x.conn.state.Listen? || x.conn.state.SynSent? || x.conn.state.SynReceived? || !x.started ==> x.written == [])
    && (Synchronized(x.conn.state) ==>
          && Base(x) <= x.conn.snd.una <= Base(x) + |x.written| + 1
          && (x.conn.snd.una == Base(x) + |x.written| + 1 <==> FinDone(x.conn.state))
          && (!FinDone(x.conn.state) ==> x.conn.snd.tx == x.written[x.conn.snd.una - Base(x)..]))
  }

  // A segment x may have sent: its text is a slice of the written stream at the right place.
  ghost predicate Genuine(x: Side, seg: Segment) {
    && x.started && !x.conn.state.Listen? && |seg.data| <= BUFFER_SIZE
    && (if seg.syn then seg.seqNo == x.conn.snd.iss && seg.data == [] && !seg.fin else seg.ack)
    && (|seg.data| > 0 ==> Base(x) <= seg.seqNo && seg.seqNo + |seg.data| <= Base(x) + |x.written|
                           && seg.data == x.written[seg.seqNo - Base(x)..][..|seg.data|])
    && (seg.fin ==> x.conn.finPending && seg.seqNo + |seg.data| == Base(x) + |x.written|)
    && seg.seqNo + SegmentLength(seg) <= x.conn.snd.max
  }

  ghost predicate AllGenuine(x: Side, nx: Net) { forall seg <- nx :: !seg.rst ==> Genuine(x, seg) }

  // What y has received of x's stream.
  ghost predicate Receiving(x: Side, y: Side) {
    && y.read + y.conn.rcv.rx <= x.written
    && (!y.synced ==> x.conn.snd.max <= Base(x) && y.read == [] && y.conn.rcv.rx == [] && !y.conn.peerFin
                      && !y.conn.state.SynReceived? && !Synchronized(y.conn.state))
    && (y.synced ==> Tracks(x, y))
  }

  ghost predicate Tracks(x: Side, y: Side) {
    && x.started && !x.conn.state.Listen? && y.started && y.conn.rcv.irs == x.conn.snd.iss
    && Base(x) <= y.conn.rcv.nxt <= x.conn.snd.max <= y.conn.rcv.nxt + 0x4000
    && (if y.conn.peerFin then x.conn.finPending && y.conn.rcv.nxt == Base(x) + |x.written| + 1
        else y.conn.rcv.nxt <= Base(x) + |x.written|)
    && (Heard(y.conn.state) && !y.conn.readShut && !y.conn.orphan ==>
          |y.read| + |y.conn.rcv.rx| == y.conn.rcv.nxt - Base(x) - FinOffset(y.conn.peerFin))
  }

  // y acknowledges only what it has received of x's stream.
  ghost predicate Acking(x: Side, y: Side, ny: Net) {
    && (forall seg <- ny :: !seg.rst && seg.ack ==> y.synced && Base(x) <= seg.ackNo <= y.conn.rcv.nxt)
    && (Synchronized(x.conn.state) ==> y.synced && x.conn.snd.una <= y.conn.rcv.nxt)
  }

  ghost predicate Good(x: Side, nx: Net, y: Side, ny: Net) {
    && Core(x.conn) && Core(y.conn)
    && SenderOk(x) && SenderOk(y) && AllGenuine(x, nx) && AllGenuine(y, ny)
    && Receiving(x, y) && Receiving(y, x) && Acking(x, y, ny) && Acking(y, x, nx)
  }

  // ---------- monotonicity ----------

  // The written stream only grows, and not any more once its end was announced.
  ghost predicate Grows(x: Side, x': Side) {
    && x'.started == x.started && x'.conn.snd.iss == x.conn.snd.iss && x.conn.snd.max <= x'.conn.snd.max
    && x.written <= x'.written && (x.conn.finPending ==> x'.conn.finPending && x'.written == x.written)
    && (x'.conn.state.Listen? ==> x.conn.state.Listen?)
  }

  lemma StillGenuine(x: Side, x': Side, nx: Net)
    requires Grows(x, x') && AllGenuine(x, nx)
    ensures AllGenuine(x', nx)
  {
    forall seg <- nx | !seg.rst ensures Genuine(x', seg) {
      assert Genuine(x, seg);
    }
  }

  // ---------- transmission ----------

  lemma SentIsGenuine(x: Side, x': Side, seg: Segment)
    requires Core(x.conn) && SenderOk(x) && x.started && (x.conn.state.SynReceived? || Synchronized(x.conn.state))
    requires Grows(x, x') && x'.written == x.written && Sent(x.conn.snd, x.conn.rcv, x.conn.finPending, seg)
    requires seg.seqNo + SegmentLength(seg) <= x'.conn.snd.max && (FinDone(x.conn.state) ==> !seg.fin)
    ensures Genuine(x', seg)
  {
    hide Core, Sent, SenderOk, Genuine, Grows;
    if x.conn.state.SynReceived? { SentInHandshake(x, x', seg); } else { SentInStream(x, x', seg); }
  }

  lemma SentInHandshake(x: Side, x': Side, seg: Segment)
    requires Core(x.conn) && SenderOk(x) && x.started && x.conn.state.SynReceived?
    requires Grows(x, x') && x'.written == x.written && Sent(x.conn.snd, x.conn.rcv, x.conn.finPending, seg)
    requires seg.seqNo + SegmentLength(seg) <= x'.conn.snd.max
    ensures Genuine(x', seg)
  {
  }

  lemma SentInStream(x: Side, x': Side, seg: Segment)
    requires Core(x.conn) && SenderOk(x) && x.started && Synchronized(x.conn.state)
    requires Grows(x, x') && x'.written == x.written && Sent(x.conn.snd, x.conn.rcv, x.conn.finPending, seg)
    requires seg.seqNo + SegmentLength(seg) <= x'.conn.snd.max && (FinDone(x.conn.state) ==> !seg.fin)
    ensures Genuine(x', seg)
  {
    hide Core;
    StreamSizes(x);
    if !FinDone(x.conn.state) && |seg.data| > 0 {
      TailOfTail(x.written, x.conn.snd.una - Base(x), seg.seqNo - x.conn.snd.una);
    }
  }

  lemma TailOfTail(s: seq<Byte>, from: nat, at: nat)
    requires from + at <= |s|
    ensures s[from..][at..] == s[from + at..]
  {
  }

  lemma StreamSizes(x: Side)
    requires Core(x.conn) && Synchronized(x.conn.state)
    ensures |x.conn.snd.tx| <= BUFFER_SIZE && (FinDone(x.conn.state) ==> x.conn.snd.tx == [])
  {
  }

  // x's stream grew: what y received of it is still right.
  lemma StillReceiving(x: Side, x': Side, y: Side)
    requires Receiving(x, y) && Grows(x, x')
    requires if y.synced then x'.conn.snd.max <= y.conn.rcv.nxt + 0x4000 else x'.conn.snd.max <= Base(x)
    ensures Receiving(x', y)
  {
  }

  // x's receive side is untouched.
  ghost predicate SameReceipt(x: Side, x': Side) {
    && x'.read == x.read && x'.synced == x.synced && x'.started == x.started
    && x'.conn.rcv.irs == x.conn.rcv.irs && x'.conn.rcv.nxt == x.conn.rcv.nxt && x'.conn.rcv.rx == x.conn.rcv.rx
    && x'.conn.peerFin == x.conn.peerFin && x'.conn.readShut == x.conn.readShut
    && x'.conn.orphan == x.conn.orphan
    && (Synchronized(x'.conn.state) ==> Synchronized(x.conn.state))
    && (x'.conn.state.SynReceived? ==> x.conn.state.SynReceived?)
  }

  lemma StillReceived(y: Side, x: Side, x': Side)
    requires Receiving(y, x) && SameReceipt(x, x')
    ensures Receiving(y, x')
  {
  }

  // x may move snd_una as long as y has received that much.
  lemma StillAcked(x: Side, x': Side, y: Side, ny: Net)
    requires Acking(x, y, ny) && x'.conn.snd.iss == x.conn.snd.iss
    requires Synchronized(x'.conn.state) ==> y.synced && x'.conn.snd.una <= y.conn.rcv.nxt
    ensures Acking(x', y, ny)
  {
  }

  // x's new segments acknowledge no more than x has received.
  lemma StillAcking(y: Side, x: Side, x': Side, nx: Net, sent: seq<Segment>)
    requires Acking(y, x, nx) && (x.synced ==> x'.synced && x.conn.rcv.nxt <= x'.conn.rcv.nxt)
    requires forall seg <- sent :: !seg.rst && seg.ack ==> x'.synced && Base(y) <= seg.ackNo <= x'.conn.rcv.nxt
    ensures Acking(y, x', nx + Elements(sent))
  {
  }

  // A step of x that only transmits keeps the pair good.
  lemma TransmitKeeps(x: Side, nx: Net, y: Side, ny: Net, x': Side, sent: seq<Segment>)
    requires Good(x, nx, y, ny) && x.started && (x.conn.state.SynReceived? || Synchronized(x.conn.state))
    requires x' == x.(conn := x'.conn) && Core(x'.conn) && OutputFrame(x.conn, x'.conn)
    requires AllSent(x.conn, sent) && AllBelow(sent, x'.conn.snd.max)
    requires FinDone(x.conn.state) ==> forall seg <- sent :: !seg.fin
    ensures Good(x', nx + Elements(sent), y, ny)
  {
    hide Receiving, Acking, AllGenuine, Core, OutputFrame, SenderOk, AllSent, AllBelow, Grows, SameReceipt;
    TransmitFrame(x, x');
    TransmitSender(x, x');
    StillGenuine(x, x', nx);
    NewGenuine(x, x', nx, sent);
    MaxBound(x, y, ny, x'.conn);
    StillReceiving(x, x', y);
    StillReceived(y, x, x');
    AckedSoFar(x, x', y, ny);
    AcksWhatItHas(y, x, x', sent);
    StillAcking(y, x, x', nx, sent);
  }

  lemma TransmitFrame(x: Side, x': Side)
    requires x' == x.(conn := x'.conn) && OutputFrame(x.conn, x'.conn) && SenderOk(x)
    ensures Grows(x, x') && SameReceipt(x, x') && x'.written == x.written && x'.synced == x.synced
    ensures x'.conn.snd.iss == x.conn.snd.iss && x'.conn.rcv.nxt == x.conn.rcv.nxt
    ensures Synchronized(x'.conn.state) ==> Synchronized(x.conn.state) && x'.conn.snd.una == x.conn.snd.una
    ensures x.conn.state.SynReceived? || Synchronized(x.conn.state) ==>
              x'.conn.state.SynReceived? || Synchronized(x'.conn.state)
    ensures x.synced ==> x'.synced
  {
    hide SenderOk;
  }

  // Transmission leaves the start of the stream and what is queued alone.
  lemma FrameFacts(c: Conn, d: Conn)
    requires OutputFrame(c, d)
    ensures d.snd.iss == c.snd.iss && d.snd.una == c.snd.una && d.snd.tx == c.snd.tx
    ensures d.state == c.state || (DataState(c.state) && DataState(d.state))
  {
  }

  lemma TransmitSender(x: Side, x': Side)
    requires x' == x.(conn := x'.conn) && OutputFrame(x.conn, x'.conn) && SenderOk(x)
    ensures SenderOk(x')
  {
    hide OutputFrame;
    FrameFacts(x.conn, x'.conn);
    DataStateIs(x.conn.state);
    DataStateIs(x'.conn.state);
    assert Base(x') == Base(x);
    hide Base, DataState, Synchronized, FinDone;
  }

  lemma DataStateIs(s: State)
    ensures DataState(s) ==> Synchronized(s) && !FinDone(s) && !Unconnected(s) && !s.Closed?
  {
  }

  lemma NewGenuine(x: Side, x': Side, nx: Net, sent: seq<Segment>)
    requires Core(x.conn) && SenderOk(x) && x.started && (x.conn.state.SynReceived? || Synchronized(x.conn.state))
    requires Grows(x, x') && x'.written == x.written && AllGenuine(x', nx)
    requires AllSent(x.conn, sent) && AllBelow(sent, x'.conn.snd.max)
    requires FinDone(x.conn.state) ==> forall seg <- sent :: !seg.fin
    ensures AllGenuine(x', nx + Elements(sent))
  {
    hide Sent, Genuine;
    forall seg <- nx + Elements(sent) | !seg.rst ensures Genuine(x', seg) {
      if seg in sent { SentIsGenuine(x, x', seg); }
    }
  }

  lemma MaxBound(x: Side, y: Side, ny: Net, d: Conn)
    requires Acking(x, y, ny) && Receiving(x, y) && Core(d) && d.snd.iss == x.conn.snd.iss
    requires d.state.SynReceived? || d.state.SynSent? || Synchronized(d.state)
    requires Synchronized(d.state) ==> Synchronized(x.conn.state) && d.snd.una == x.conn.snd.una
    ensures if y.synced then d.snd.max <= y.conn.rcv.nxt + 0x4000 else d.snd.max <= Base(x)
  {
  }

  lemma AckedSoFar(x: Side, x': Side, y: Side, ny: Net)
    requires Acking(x, y, ny) && x'.conn.snd.iss == x.conn.snd.iss
    requires Synchronized(x'.conn.state) ==> Synchronized(x.conn.state) && x'.conn.snd.una == x.conn.snd.una
    ensures Acking(x', y, ny)
  {
    StillAcked(x, x', y, ny);
  }

  lemma AcksWhatItHas(y: Side, x: Side, x': Side, sent: seq<Segment>)
    requires Receiving(y, x) && (x.conn.state.SynReceived? || Synchronized(x.conn.state))
    requires AllSent(x.conn, sent) && x'.synced == x.synced && x'.conn.rcv.nxt == x.conn.rcv.nxt
    ensures forall seg <- sent :: !seg.rst && seg.ack ==> x'.synced && Base(y) <= seg.ackNo <= x'.conn.rcv.nxt
  {
    forall seg <- sent ensures !seg.rst && seg.ack ==> x'.synced && Base(y) <= seg.ackNo <= x'.conn.rcv.nxt {
      assert Sent(x.conn.snd, x.conn.rcv, x.conn.finPending, seg);
    }
  }

  lemma OutputKeepsGood(x: Side, nx: Net, y: Side, ny: Net, now: nat)
    requires Good(x, nx, y, ny)
    ensures var o := Output(x.conn, now);
            Good(x.(conn := o.conn), nx + Elements(o.sent), y, ny) && Inv(o.conn)
  {
    hide Output, Receiving, Acking, AllGenuine, Core;
    OutputKeeps(x.conn, now);
    var o := Output(x.conn, now);
    InvIsCore(o.conn);
    if x.conn.state.SynReceived? || Synchronized(x.conn.state) {
      TransmitKeeps(x, nx, y, ny, x.(conn := o.conn), o.sent);
    } else {
      SilentOutput(x.conn, now);
      assert x.(conn := o.conn) == x;
      assert nx + Elements(o.sent) == nx;
    }
  }

  lemma InvIsCore(c: Conn)
    requires Inv(c)
    ensures Core(c)
  {
  }

  lemma SilentOutput(c: Conn, now: nat)
    requires !c.state.SynReceived? && !Synchronized(c.state)
    ensures Output(c, now) == Out(c, [])
  {
    hide SendData, SendFin, SendAck, SendSyn;
  }

  // ---------- changes of one block ----------

  // x changes and sends at most resets.
  lemma ChangeKeeps(x: Side, nx: Net, y: Side, ny: Net, x': Side, resets: seq<Segment>)
    requires Good(x, nx, y, ny) && Core(x'.conn) && SenderOk(x') && Grows(x, x') && Receiving(y, x')
    requires x.synced ==> x'.synced && x.conn.rcv.nxt <= x'.conn.rcv.nxt
    requires x'.conn.snd.max == x.conn.snd.max
    requires Synchronized(x'.conn.state) ==> y.synced && x'.conn.snd.una <= y.conn.rcv.nxt
    requires forall seg <- resets :: seg.rst
    ensures Good(x', nx + Elements(resets), y, ny)
  {
    hide Core, SenderOk, Genuine, Acking, Grows;
    StillGenuine(x, x', nx);
    assert AllGenuine(x', nx + Elements(resets));
    SameStart(x, x');
    StillReceivingSameMax(x, x', y);
    StillAcked(x, x', y, ny);
    StillAcking(y, x, x', nx, resets);
  }

  lemma SameStart(x: Side, x': Side)
    requires Grows(x, x')
    ensures x'.conn.snd.iss == x.conn.snd.iss
  {
  }

  lemma StillReceivingSameMax(x: Side, x': Side, y: Side)
    requires Receiving(x, y) && Grows(x, x') && x'.conn.snd.max == x.conn.snd.max
    ensures Receiving(x', y)
  {
    StillReceiving(x, x', y);
  }

  // d is c with bookkeeping changed that the stream does not depend on.
  ghost predicate SameStream(c: Conn, d: Conn) {
    && d.snd.iss == c.snd.iss && d.snd.una == c.snd.una && d.snd.max == c.snd.max && d.snd.tx == c.snd.tx
    && d.rcv.irs == c.rcv.irs && d.rcv.nxt == c.rcv.nxt && d.rcv.rx == c.rcv.rx
    && d.finPending == c.finPending && d.peerFin == c.peerFin && d.readShut == c.readShut && d.orphan == c.orphan
    && d.state == c.state
  }

  lemma BookkeepingKeeps(x: Side, nx: Net, y: Side, ny: Net, d: Conn)
    requires Good(x, nx, y, ny) && SameStream(x.conn, d) && Core(d)
    ensures Good(x.(conn := d), nx, y, ny)
  {
    var x' := x.(conn := d);
    StillReceived(y, x, x');
    assert Synchronized(d.state) ==> y.synced && d.snd.una <= y.conn.rcv.nxt;
    hide Core, Receiving, Acking, AllGenuine;
    ChangeKeeps(x, nx, y, ny, x', []);
    assert nx + Elements([]) == nx;
  }

  // d is what a connection that ended leaves behind.
  ghost predicate Ended(c: Conn, d: Conn) {
    && d.state.Closed? && Core(d) && d.snd.iss == c.snd.iss && d.snd.max == c.snd.max
    && d.rcv.irs == c.rcv.irs && d.rcv.nxt == c.rcv.nxt && (d.rcv.rx == c.rcv.rx || d.rcv.rx == [])
    && d.finPending == c.finPending && d.peerFin == c.peerFin && d.readShut == c.readShut
  }

  lemma EndKeeps(x: Side, nx: Net, y: Side, ny: Net, d: Conn, resets: seq<Segment>)
    requires Good(x, nx, y, ny) && Ended(x.conn, d) && forall seg <- resets :: seg.rst
    ensures Good(x.(conn := d), nx + Elements(resets), y, ny)
  {
    var x' := x.(conn := d);
    EndedSides(x, y, d);
    hide Core, Receiving, Acking, AllGenuine, SenderOk, Grows;
    ChangeKeeps(x, nx, y, ny, x', resets);
  }

  lemma EndedSides(x: Side, y: Side, d: Conn)
    requires Receiving(y, x) && SenderOk(x) && Ended(x.conn, d)
    ensures var x' := x.(conn := d); Receiving(y, x') && SenderOk(x') && Grows(x, x')
  {
    hide Core;
  }

  lemma FinishEnds(c: Conn, error: int)
    requires Core(c)
    ensures Ended(c, Finish(c)) && Ended(c, Fail(c, error))
    ensures Ended(c, Abort(c, error).conn) && forall seg <- Abort(c, error).sent :: seg.rst
  {
  }

  lemma WriteKeepsGood(x: Side, nx: Net, y: Side, ny: Net, data: seq<Byte>)
    requires Good(x, nx, y, ny) && (x.conn.state.Established? || x.conn.state.CloseWait?) && !x.conn.finPending
    requires |x.conn.snd.tx| + |data| <= BUFFER_SIZE
    ensures Good(x.(conn := x.conn.(snd := x.conn.snd.(tx := x.conn.snd.tx + data)), written := x.written + data), nx,
                 y, ny)
  {
    var d := x.conn.(snd := x.conn.snd.(tx := x.conn.snd.tx + data));
    var x' := x.(conn := d, written := x.written + data);
    assert x'.written[d.snd.una - Base(x)..] == x.written[d.snd.una - Base(x)..] + data;
    WriteFrame(x, x', data);
    StillReceived(y, x, x');
    assert Synchronized(d.state) ==> y.synced && d.snd.una <= y.conn.rcv.nxt;
    hide Core, Receiving, Acking, AllGenuine, SenderOk, Grows;
    ChangeKeeps(x, nx, y, ny, x', []);
    assert nx + Elements([]) == nx;
  }

  lemma WriteFrame(x: Side, x': Side, data: seq<Byte>)
    requires Core(x.conn) && SenderOk(x) && (x.conn.state.Established? || x.conn.state.CloseWait?) && !x.conn.finPending
    requires |x.conn.snd.tx| + |data| <= BUFFER_SIZE
    requires x' == x.(conn := x.conn.(snd := x.conn.snd.(tx := x.conn.snd.tx + data)), written := x.written + data)
    ensures Core(x'.conn) && SenderOk(x') && Grows(x, x')
  {
    var at := x.conn.snd.una - Base(x);
    assert x'.written[at..] == x.written[at..] + data;
  }

  lemma ReadKeepsGood(x: Side, nx: Net, y: Side, ny: Net, count: nat)
    requires Good(x, nx, y, ny) && count <= |x.conn.rcv.rx|
    ensures Good(x.(conn := x.conn.(rcv := x.conn.rcv.(rx := x.conn.rcv.rx[count..])),
                    read := x.read + x.conn.rcv.rx[..count]),
                 nx, y, ny)
  {
    var rx := x.conn.rcv.rx;
    var d := x.conn.(rcv := x.conn.rcv.(rx := rx[count..]));
    var x' := x.(conn := d, read := x.read + rx[..count]);
    assert x'.read + d.rcv.rx == x.read + rx;
    assert Core(d) && SenderOk(x') && Grows(x, x') && Receiving(y, x');
    hide Core, Receiving, Acking, AllGenuine, SenderOk, Grows;
    AckedStays(x, y, ny);
    ChangeKeeps(x, nx, y, ny, x', []);
    assert nx + Elements([]) == nx;
  }

  lemma AckedStays(x: Side, y: Side, ny: Net)
    requires Acking(x, y, ny)
    ensures Synchronized(x.conn.state) ==> y.synced && x.conn.snd.una <= y.conn.rcv.nxt
  {
  }

  // Shutting down and closing: incoming data may be discarded, the stream may be ended.
  lemma ShutKeepsGood(x: Side, nx: Net, y: Side, ny: Net, d: Conn)
    requires Good(x, nx, y, ny) && Synchronized(x.conn.state) && Core(d)
    requires d
             == x.conn.(rcv := d.rcv, readShut := d.readShut, orphan := d.orphan, finPending := d.finPending,
                        life := d.life)
    requires d.rcv == x.conn.rcv.(rx := d.rcv.rx) && (x.conn.finPending ==> d.finPending)
    requires if d.readShut || d.orphan then d.rcv.rx == [] else d.rcv.rx == x.conn.rcv.rx && !x.conn.readShut
                                                                && !x.conn.orphan
    ensures Good(x.(conn := d), nx, y, ny)
  {
    var x' := x.(conn := d);
    assert SenderOk(x') && Grows(x, x') && Receiving(y, x');
    hide Core, Receiving, Acking, AllGenuine, SenderOk, Grows;
    AckedStays(x, y, ny);
    ChangeKeeps(x, nx, y, ny, x', []);
    assert nx + Elements([]) == nx;
  }

  // ---------- incoming text ----------

  // Unless it is a reset, the segment is not older than half the sequence space.
  ghost predicate Fresh(c: Conn, seg: Segment) {
    seg.rst || (c.rcv.nxt - seg.seqNo <= HALF && (seg.ack ==> c.snd.una - seg.ackNo < HALF))
  }

  // d took k bytes of the segment's text.
  ghost predicate Took(c: Conn, d: Conn, seg: Segment, k: nat) {
    var at := c.rcv.nxt - seg.seqNo;
    && d.snd == c.snd && d.finPending == c.finPending && d.readShut == c.readShut && d.orphan == c.orphan
    && d.peerFin == c.peerFin && d.state == c.state && d.rcv.irs == c.rcv.irs && d.rcv.nxt == c.rcv.nxt + k
    && (k > 0 ==> TakesData(c.state) && 0 <= at && at + k <= |seg.data| && !c.orphan)
    && d.rcv.rx == c.rcv.rx + (if k > 0 && !c.readShut then seg.data[at..at + k] else [])
  }

  // Bytes of the segment that lie left of rcv_nxt.
  function Skipped(c: Conn, seg: Segment): nat {
    if seg.seqNo < c.rcv.nxt then Min(c.rcv.nxt - seg.seqNo, |seg.data|) else 0
  }

  lemma OverlapExact(c: Conn, seg: Segment)
    requires -HALF <= seg.seqNo - c.rcv.nxt < HALF - 0x1_0000 && |seg.data| < 0x1_0000
    ensures Overlap(c, seg) == Skipped(c, seg)
    ensures SeqEq(seg.seqNo + Overlap(c, seg), c.rcv.nxt) <==> seg.seqNo + Overlap(c, seg) == c.rcv.nxt
  {
    hide SeqLt, SeqEq, Diff;
    SeqExact(seg.seqNo, c.rcv.nxt);
    if seg.seqNo < c.rcv.nxt { DiffExact(c.rcv.nxt, seg.seqNo); }
    SeqExact(seg.seqNo + Overlap(c, seg), c.rcv.nxt);
  }

  lemma TextTaken(c: Conn, seg: Segment) returns (k: nat)
    requires -HALF <= seg.seqNo - c.rcv.nxt < HALF - 0x1_0000 && |seg.data| < 0x1_0000 && Core(c) && !c.state.Closed?
    ensures var o := AcceptText(c, seg);
            if o.conn.state.Closed? then Ended(c, o.conn) && (forall r <- o.sent :: r.rst)
            else o.sent == [] && Took(c, o.conn, seg, k)
  {
    hide SeqEq, Overlap, Abort, Core;
    OverlapExact(c, seg);
    var skip := Overlap(c, seg);
    var data := seg.data[skip..];
    k := 0;
    if |data| > 0 && TakesData(c.state) && seg.seqNo + skip == c.rcv.nxt {
      if c.orphan {
        FinishEnds(c, ECONNRESET);
      } else if c.readShut {
        k := |data|;
      } else {
        var room := if |c.rcv.rx| < BUFFER_SIZE then BUFFER_SIZE - |c.rcv.rx| else 0;
        k := Min(|data|, room);
        assert data[..k] == seg.data[skip..skip + k];
      }
    }
  }

  // Text x takes from a genuine segment is the next part of y's stream.
  lemma TextKeepsGood(x: Side, nx: Net, y: Side, ny: Net, seg: Segment, d: Conn, k: nat)
    requires Good(x, nx, y, ny) && Synchronized(x.conn.state) && seg in ny && !seg.rst
    requires Core(d) && Took(x.conn, d, seg, k)
    ensures Good(x.(conn := d), nx, y, ny)
  {
    var x' := x.(conn := d);
    assert Genuine(y, seg);
    TextTakenFits(x, y, seg, d, k);
    hide Genuine;
    TextFrame(x, y, seg, x', k);
    hide Core, Receiving, Acking, AllGenuine, SenderOk, Grows;
    AckedStays(x, y, ny);
    ChangeKeeps(x, nx, y, ny, x', []);
    assert nx + Elements([]) == nx;
  }

  // What x has after taking k bytes of the segment still begins y's stream.
  lemma TextTakenFits(x: Side, y: Side, seg: Segment, d: Conn, k: nat)
    requires Receiving(y, x) && Synchronized(x.conn.state) && Genuine(y, seg) && Took(x.conn, d, seg, k)
    ensures x.read + d.rcv.rx <= y.written
  {
    hide Receiving, Genuine, Took, Synchronized, Base;
    TextPlace(x, y, seg, d, k);
    if k > 0 && !x.conn.readShut {
      var from, start := x.conn.rcv.nxt - Base(y), seg.seqNo - Base(y);
      Extends(y.written, x.read, x.conn.rcv.rx, start, |seg.data|, from, k);
    }
  }

  // Where that text lies in the stream.
  lemma TextPlace(x: Side, y: Side, seg: Segment, d: Conn, k: nat)
    requires Receiving(y, x) && Synchronized(x.conn.state) && Genuine(y, seg) && Took(x.conn, d, seg, k)
    ensures x.read + x.conn.rcv.rx <= y.written
    ensures if k > 0 && !x.conn.readShut then
              var from, start := x.conn.rcv.nxt - Base(y), seg.seqNo - Base(y);
              && 0 <= start <= from && |x.read| + |x.conn.rcv.rx| == from
              && from + k <= start + |seg.data| <= |y.written| && seg.data == y.written[start..][..|seg.data|]
              && d.rcv.rx == x.conn.rcv.rx + seg.data[from - start..from - start + k]
            else d.rcv.rx == x.conn.rcv.rx
  {
  }

  // A prefix of a stream and the k bytes that follow it, taken from a slice of the stream.
  lemma Extends(written: seq<Byte>, read: seq<Byte>, rx: seq<Byte>, start: nat, n: nat, from: nat, k: nat)
    requires read + rx <= written && |read| + |rx| == from && start <= from && from + k <= start + n <= |written|
    ensures read + (rx + written[start..][..n][from - start..from - start + k]) <= written
  {
    assert written[start..][..n][from - start..from - start + k] == written[from..from + k];
    assert read + (rx + written[from..from + k]) == (read + rx) + written[from..from + k];
    assert written[..from] + written[from..from + k] == written[..from + k];
  }

  lemma TextFrame(x: Side, y: Side, seg: Segment, x': Side, k: nat)
    requires SenderOk(x) && Receiving(y, x) && Core(x.conn) && Synchronized(x.conn.state) && Genuine(y, seg)
    requires x' == x.(conn := x'.conn) && Took(x.conn, x'.conn, seg, k) && x'.read + x'.conn.rcv.rx <= y.written
    ensures SenderOk(x') && Grows(x, x') && Receiving(y, x')
  {
    hide SenderOk, Grows, Receiving, Took, Genuine, Core;
    TookFrame(x.conn, x'.conn, seg, k);
    SameSenderOk(x, x');
    TextReceived(x, y, seg, x', k);
  }

  lemma TookFrame(c: Conn, d: Conn, seg: Segment, k: nat)
    requires Took(c, d, seg, k)
    ensures d.snd == c.snd && d.state == c.state && d.finPending == c.finPending
  {
  }

  lemma SameSenderOk(x: Side, x': Side)
    requires SenderOk(x) && x'.started == x.started && x'.synced == x.synced && x'.written == x.written
    requires x'.conn.snd == x.conn.snd && x'.conn.state == x.conn.state && x'.conn.finPending == x.conn.finPending
    ensures SenderOk(x') && Grows(x, x')
  {
    hide Grows;
    SameGrows(x, x');
    assert Base(x') == Base(x);
    hide Synchronized, FinDone, Base;
  }

  lemma SameGrows(x: Side, x': Side)
    requires x'.started == x.started && x'.written == x.written && x'.conn.snd == x.conn.snd
    requires x'.conn.state == x.conn.state && x'.conn.finPending == x.conn.finPending
    ensures Grows(x, x')
  {
  }

  lemma TextReceived(x: Side, y: Side, seg: Segment, x': Side, k: nat)
    requires Receiving(y, x) && Core(x.conn) && Synchronized(x.conn.state) && Genuine(y, seg)
    requires x' == x.(conn := x'.conn) && Took(x.conn, x'.conn, seg, k) && x'.read + x'.conn.rcv.rx <= y.written
    ensures Receiving(y, x')
  {
  }

  // A FIN x consumes is the end of y's stream, and everything before it was received.
  lemma FinKeepsGood(x: Side, nx: Net, y: Side, ny: Net, seg: Segment, now: nat)
    requires Good(x, nx, y, ny) && seg in ny && !seg.rst && seg.fin && TakesData(x.conn.state)
    requires seg.seqNo + |seg.data| == x.conn.rcv.nxt && Core(AcceptFin(x.conn, now))
    ensures Good(x.(conn := AcceptFin(x.conn, now)), nx, y, ny)
  {
    var x' := x.(conn := AcceptFin(x.conn, now));
    assert Genuine(y, seg);
    FinFrame(x, y, seg, now);
    hide Core, Receiving, Acking, AllGenuine, SenderOk, Grows;
    AckedStays(x, y, ny);
    ChangeKeeps(x, nx, y, ny, x', []);
    assert nx + Elements([]) == nx;
  }

  lemma FinFrame(x: Side, y: Side, seg: Segment, now: nat)
    requires SenderOk(x) && Receiving(y, x) && Genuine(y, seg) && !seg.rst && seg.fin && TakesData(x.conn.state)
             && Core(x.conn)
    requires seg.seqNo + |seg.data| == x.conn.rcv.nxt
    ensures var x' := x.(conn := AcceptFin(x.conn, now));
            SenderOk(x') && Grows(x, x') && Receiving(y, x') && x'.conn.snd == x.conn.snd && Synchronized(x'.conn.state)
  {
  }

  // A segment of y lies within half the sequence space of x's rcv_nxt.
  lemma Nearby(x: Side, nx: Net, y: Side, ny: Net, seg: Segment)
    requires Good(x, nx, y, ny) && x.synced && seg in ny && !seg.rst && Fresh(x.conn, seg)
    ensures -HALF <= seg.seqNo - x.conn.rcv.nxt <= 0x4000 && |seg.data| <= BUFFER_SIZE
            && seg.seqNo + |seg.data| <= x.conn.rcv.nxt + 0x4000
    ensures seg.ack ==> Base(x) <= seg.ackNo <= x.conn.snd.max && seg.ackNo <= y.conn.rcv.nxt
  {
    assert Genuine(y, seg);
  }

  lemma SyncedSide(x: Side, y: Side)
    requires Receiving(y, x) && (x.conn.state.SynReceived? || Synchronized(x.conn.state))
    ensures x.synced && x.started
  {
  }

  lemma TextInputGood(x: Side, nx: Net, y: Side, ny: Net, seg: Segment, now: nat)
    requires Good(x, nx, y, ny) && EdgeOk(x.conn) && Synchronized(x.conn.state) && seg in ny && !seg.rst
             && Fresh(x.conn, seg)
    ensures var t := TextInput(x.conn, seg, now);
            Good(x.(conn := t.conn), nx + Elements(t.sent), y, ny)
  {
    hide Core, Receiving, Acking, AllGenuine, SenderOk, AcceptText, SeqEq, AcceptFin;
    SyncedSide(x, y);
    Nearby(x, nx, y, ny, seg);
    AcceptTextKeeps(x.conn, seg);
    TextInputKeeps(x.conn, seg, now);
    var k := TextTaken(x.conn, seg);
    var o := AcceptText(x.conn, seg);
    if o.conn.state.Closed? {
      EndKeeps(x, nx, y, ny, o.conn, o.sent);
      assert TextInput(x.conn, seg, now) == o;
    } else {
      TextKeepsGood(x, nx, y, ny, seg, o.conn, k);
      var x1 := x.(conn := o.conn);
      SeqExact(seg.seqNo + |seg.data|, o.conn.rcv.nxt);
      assert nx + Elements([]) == nx;
      if TakesFin(o.conn, seg) {
        assert TextInput(x.conn, seg, now) == Out(AcceptFin(o.conn, now), []);
        FinKeepsGood(x1, nx, y, ny, seg, now);
        assert x1.(conn := AcceptFin(o.conn, now)) == x.(conn := AcceptFin(o.conn, now));
      } else {
        assert TextInput(x.conn, seg, now) == o;
      }
    }
  }

  // ---------- acknowledgements ----------

  lemma AckFrame(x: Side, y: Side, ackNo: int, env: Env)
    requires Core(x.conn) && SenderOk(x) && Receiving(y, x) && Synchronized(x.conn.state)
    requires x.conn.snd.una < ackNo <= x.conn.snd.max && !AckAdvance(x.conn, ackNo, env).state.Closed?
    ensures var x' := x.(conn := AckAdvance(x.conn, ackNo, env));
            SenderOk(x') && Grows(x, x') && Receiving(y, x') && x'.conn.snd.una == ackNo
            && x'.conn.snd.max == x.conn.snd.max && x'.conn.rcv == x.conn.rcv && Synchronized(x'.conn.state)
  {
    hide AckAdvance, AckedBytes, FinAcked, Receiving;
    AckedBytesExact(x.conn, ackNo);
    AckAdvanceValue(x.conn, ackNo, env);
    if !FinAcked(x.conn, ackNo) {
      var from := x.conn.snd.una - Base(x);
      assert x.written[from..][ackNo - x.conn.snd.una..] == x.written[ackNo - Base(x)..];
    }
    AckReceived(x, y, ackNo, env);
  }

  lemma AckReceived(x: Side, y: Side, ackNo: int, env: Env)
    requires Core(x.conn) && Receiving(y, x) && Synchronized(x.conn.state)
    requires x.conn.snd.una < ackNo <= x.conn.snd.max && !AckAdvance(x.conn, ackNo, env).state.Closed?
    ensures Receiving(y, x.(conn := AckAdvance(x.conn, ackNo, env)))
  {
    hide AckAdvance, AckedBytes, FinAcked;
    AckAdvanceValue(x.conn, ackNo, env);
    StillReceived(y, x, x.(conn := AckAdvance(x.conn, ackNo, env)));
  }

  lemma AckGood(x: Side, nx: Net, y: Side, ny: Net, ackNo: int, env: Env)
    requires Good(x, nx, y, ny) && Synchronized(x.conn.state)
    requires x.conn.snd.una < ackNo <= x.conn.snd.max && ackNo <= y.conn.rcv.nxt
    ensures Good(x.(conn := AckAdvance(x.conn, ackNo, env)), nx, y, ny)
    ensures AckAdvance(x.conn, ackNo, env).rcv == x.conn.rcv
    ensures AckAdvance(x.conn, ackNo, env).snd.una == ackNo
    ensures Synchronized(AckAdvance(x.conn, ackNo, env).state) || AckAdvance(x.conn, ackNo, env).state.Closed?
  {
    AckedStays(x, y, ny);
    AckAdvanceKeeps(x.conn, ackNo, env);
    AckedBytesExact(x.conn, ackNo);
    AckAdvanceValue(x.conn, ackNo, env);
    hide AckAdvance, Receiving, Acking, AllGenuine, SenderOk, Core, AckedBytes, FinAcked, Grows;
    var d := AckAdvance(x.conn, ackNo, env);
    assert nx + Elements([]) == nx;
    if d.state.Closed? {
      EndKeeps(x, nx, y, ny, d, []);
    } else {
      AckFrame(x, y, ackNo, env);
      ChangeKeeps(x, nx, y, ny, x.(conn := d), []);
    }
  }

  lemma AcknowledgedGood(x: Side, nx: Net, y: Side, ny: Net, seg: Segment, env: Env)
    requires Good(x, nx, y, ny) && Inv(x.conn) && Synchronized(x.conn.state) && seg in ny && Fresh(x.conn, seg)
    requires Acceptable(x.conn, seg) && !seg.rst && !seg.syn && seg.ack
    ensures var o := SegmentInput(x.conn, seg, env);
            Good(x.(conn := o.conn), nx + Elements(o.sent), y, ny)
  {
    hide SeqLt, SeqEq, SeqLe, Acceptable, TextInput, AckAdvance, Receiving, Acking, AllGenuine, SenderOk, Core;
    var c := x.conn;
    assert nx + Elements([]) == nx;
    SyncedSide(x, y);
    Nearby(x, nx, y, ny, seg);
    AckExact(c, seg.ackNo);
    AckedStays(x, y, ny);
    if SeqLt(c.snd.max, seg.ackNo) {
      // older than half the sequence space seen from snd_max: only answered
      AckOwedKeeps(c);
      BookkeepingKeeps(x, nx, y, ny, c.(ackNow := true));
      assert SegmentInput(c, seg, env) == Out(c.(ackNow := true), []);
      return;
    }
    var acked := if c.snd.una < seg.ackNo then AckAdvance(c, seg.ackNo, env) else c;
    var x1 := x.(conn := acked);
    if c.snd.una < seg.ackNo {
      AckGood(x, nx, y, ny, seg.ackNo, env);
    }
    assert Good(x1, nx, y, ny);
    if !acked.used || acked.state.Closed? {
      assert SegmentInput(c, seg, env) == Out(acked, []);
    } else {
      WindowUpdateFrame(acked, seg);
      var w := WindowUpdate(acked, seg);
      BookkeepingKeeps(x1, nx, y, ny, w);
      TextInputGood(x.(conn := w), nx, y, ny, seg, env.now);
      assert SegmentInput(c, seg, env) == TextInput(w, seg, env.now);
    }
  }

  lemma AckOwedKeeps(c: Conn)
    requires Core(c)
    ensures Core(c.(ackNow := true)) && SameStream(c, c.(ackNow := true))
  {
  }

  lemma AckExact(c: Conn, ackNo: int)
    requires Core(c) && Synchronized(c.state) && ackNo <= c.snd.max && c.snd.una - ackNo < HALF
    ensures !SeqLt(c.snd.max, ackNo) || ackNo < c.snd.una
    ensures SeqLt(c.snd.una, ackNo) <==> c.snd.una < ackNo
  {
    SeqExact(c.snd.una, ackNo);
    if c.snd.una <= ackNo { SeqExact(c.snd.max, ackNo); }
  }

  lemma WindowUpdateFrame(c: Conn, seg: Segment)
    requires Core(c) && Synchronized(c.state) && c.rcv.nxt <= c.rcv.adv
    ensures var w := WindowUpdate(c, seg);
            SameStream(c, w) && Core(w) && EdgeOk(w)
  {
    hide SeqLt, SeqLe, SeqEq;
  }

  // ---------- the handshake ----------

  // x has heard the peer's SYN; d is established or waits for the acknowledgement of its own SYN.
  lemma SynHeardGood(x: Side, nx: Net, y: Side, ny: Net, seg: Segment, d: Conn)
    requires Good(x, nx, y, ny) && x.conn.state.SynSent? && seg in ny && !seg.rst && seg.syn && Core(d)
    requires d.state.SynReceived?
             || (d.state.Established? && y.synced && d.snd.una == Base(x) && d.snd.una <= y.conn.rcv.nxt)
    requires d.snd.iss == x.conn.snd.iss && d.snd.max == x.conn.snd.max && d.snd.tx == []
             && d.finPending == x.conn.finPending
    requires d.rcv == Receiver(seg.seqNo, seg.seqNo + 1, seg.seqNo + 1, []) && !d.peerFin
    ensures Good(x.(conn := d, synced := true), nx, y, ny)
  {
    var x' := x.(conn := d, synced := true);
    assert Genuine(y, seg);
    SynFrame(x, y, seg, x');
    assert Grows(x, x') && SenderOk(x');
    assert Synchronized(d.state) ==> y.synced && d.snd.una <= y.conn.rcv.nxt;
    hide Core, Receiving, Acking, AllGenuine, SenderOk, Grows;
    ChangeKeeps(x, nx, y, ny, x', []);
    assert nx + Elements([]) == nx;
  }

  lemma SynFrame(x: Side, y: Side, seg: Segment, x': Side)
    requires Receiving(y, x) && !x.synced && x.started && Genuine(y, seg) && seg.syn && SenderOk(y)
    requires !Synchronized(y.conn.state)
    requires x'.synced && x'.started && x'.read == x.read && !x'.conn.peerFin
    requires x'.conn.rcv == Receiver(seg.seqNo, seg.seqNo + 1, seg.seqNo + 1, [])
    ensures Receiving(y, x')
  {
  }

  // x after a segment: the block d, and whether the peer's SYN is known.
  function After(x: Side, d: Conn): Side { x.(conn := d, synced := x.synced || Heard(d.state)) }

  lemma SameAfter(x: Side, y: Side, d: Conn)
    requires Receiving(y, x) && (Heard(d.state) ==> Heard(x.conn.state))
    ensures After(x, d) == x.(conn := d)
  {
  }

  lemma SynSentGood(x: Side, nx: Net, y: Side, ny: Net, seg: Segment, env: Env)
    requires Good(x, nx, y, ny) && x.conn.state.SynSent? && seg in ny
    ensures var o := SynSentInput(x.conn, seg, env);
            Good(After(x, o.conn), nx + Elements(o.sent), y, ny)
  {
    hide SeqLt, SeqLe, Core, Receiving, Acking, AllGenuine, SenderOk, Fail, ReplyReset, Establish, SynHeard;
    var c := x.conn;
    var o := SynSentInput(c, seg, env);
    var ackOk := SeqLt(c.snd.iss, seg.ackNo) && SeqLe(seg.ackNo, c.snd.nxt);
    assert nx + Elements([]) == nx;
    if seg.ack && !ackOk {
      ResetsOnly(seg);
      RepliedGood(x, nx, y, ny, o.sent);
    } else if seg.rst {
      if seg.ack {
        FinishEnds(c, ECONNREFUSED);
        EndKeeps(x, nx, y, ny, o.conn, []);
      }
    } else if seg.syn {
      SynSentHears(x, nx, y, ny, seg, env);
    }
  }

  lemma ResetsOnly(seg: Segment)
    ensures forall r <- ReplyReset(seg) :: r.rst
  {
  }

  // A reset in reply to a stray segment changes nothing.
  lemma RepliedGood(x: Side, nx: Net, y: Side, ny: Net, resets: seq<Segment>)
    requires Good(x, nx, y, ny) && forall r <- resets :: r.rst
    ensures Good(x, nx + Elements(resets), y, ny)
  {
    AckedStays(x, y, ny);
    hide Core, Receiving, Acking, AllGenuine, SenderOk;
    ChangeKeeps(x, nx, y, ny, x, resets);
  }

  lemma SynSentHears(x: Side, nx: Net, y: Side, ny: Net, seg: Segment, env: Env)
    requires Good(x, nx, y, ny) && x.conn.state.SynSent? && seg in ny && !seg.rst && seg.syn
    requires seg.ack ==> SeqLt(x.conn.snd.iss, seg.ackNo) && SeqLe(seg.ackNo, x.conn.snd.nxt)
    ensures var o := SynSentInput(x.conn, seg, env);
            Good(After(x, o.conn), nx + Elements(o.sent), y, ny)
  {
    var c := x.conn;
    var o := SynSentInput(c, seg, env);
    SynAckExact(x, nx, y, ny, seg);
    SynSentInputKeeps(c, seg, env);
    HeardValue(c, seg, env);
    hide SeqLt, SeqLe, Core, Receiving, Acking, AllGenuine, SenderOk, Establish, SynHeard;
    assert nx + Elements([]) == nx;
    assert o.sent == [];
    SynHeardGood(x, nx, y, ny, seg, o.conn);
  }

  lemma SynAckExact(x: Side, nx: Net, y: Side, ny: Net, seg: Segment)
    requires Good(x, nx, y, ny) && (x.conn.state.SynSent? || x.conn.state.SynReceived?) && seg in ny && !seg.rst
             && |seg.data| < 0x1_0000
    ensures seg.ack ==> seg.ackNo == Base(x) && y.synced && seg.ackNo <= y.conn.rcv.nxt
    ensures Near(x.conn, seg)
  {
  }

  lemma HeardValue(c: Conn, seg: Segment, env: Env)
    requires Handshake(c)
    ensures var e := Establish(SynHeard(c, seg), seg, env);
            e.state.Established? && e.snd.iss == c.snd.iss && e.snd.max == c.snd.max && e.snd.tx == []
                && e.snd.una == seg.ackNo
            && e.finPending == c.finPending && !e.peerFin
               && e.rcv == Receiver(seg.seqNo, seg.seqNo + 1, seg.seqNo + 1, [])
    ensures var h := SynHeard(c, seg);
            h.snd.iss == c.snd.iss && h.snd.max == c.snd.max && h.snd.tx == []
            && h.finPending == c.finPending && !h.peerFin
               && h.rcv == Receiver(seg.seqNo, seg.seqNo + 1, seg.seqNo + 1, [])
  {
  }

  lemma SynReceivedGood(x: Side, nx: Net, y: Side, ny: Net, seg: Segment, env: Env)
    requires Good(x, nx, y, ny) && Inv(x.conn) && x.conn.state.SynReceived? && seg in ny && Fresh(x.conn, seg)
    requires Acceptable(x.conn, seg) && !seg.rst && !seg.syn && seg.ack
    ensures var o := SegmentInput(x.conn, seg, env);
            Good(x.(conn := o.conn), nx + Elements(o.sent), y, ny)
  {
    hide Core, Receiving, Acking, AllGenuine, SenderOk, SeqLt, SeqLe, Acceptable, TextInput, AckAdvance, Establish,
        ResetInput,
      WindowUpdate, SetWindow, ReplyReset, SynSentInput;
    var c := x.conn;
    SyncedSide(x, y);
    Nearby(x, nx, y, ny, seg);
    SynAckExact(x, nx, y, ny, seg);
    if SeqLt(c.snd.una, seg.ackNo) && SeqLe(seg.ackNo, c.snd.nxt) {
      var e := Establish(SetWindow(c, seg), seg, env);
      EstablishFrame(x, nx, y, ny, seg, env);
      TextInputGood(x.(conn := e), nx, y, ny, seg, env.now);
      assert SegmentInput(c, seg, env) == TextInput(e, seg, env.now);
    } else {
      ResetsOnly(seg);
      RepliedGood(x, nx, y, ny, ReplyReset(seg));
      assert SegmentInput(c, seg, env) == Out(c, ReplyReset(seg));
    }
  }

  lemma InvParts(c: Conn)
    requires Inv(c)
    ensures Core(c) && EdgeOk(c)
  {
  }

  lemma EstablishFrame(x: Side, nx: Net, y: Side, ny: Net, seg: Segment, env: Env)
    requires Good(x, nx, y, ny) && Inv(x.conn) && x.conn.state.SynReceived? && x.synced && Fresh(x.conn, seg)
    requires seg.ackNo == Base(x) && y.synced && seg.ackNo <= y.conn.rcv.nxt
    ensures var e := Establish(SetWindow(x.conn, seg), seg, env);
            Good(x.(conn := e), nx, y, ny) && EdgeOk(e) && e.state.Established? && Fresh(e, seg)
  {
    hide Core, Receiving, Acking, AllGenuine, SenderOk, Grows, Establish, SetWindow, EdgeOk, Inv, Synchronized;
    var e := Establish(SetWindow(x.conn, seg), seg, env);
    var x' := x.(conn := e);
    InvParts(x.conn);
    InvHandshake(x.conn);
    EstablishKeeps(x.conn, seg, env);
    EstablishValue(x.conn, seg, env);
    EstablishReceived(y, x, x');
    EstablishSender(x, x');
    ChangeKeeps(x, nx, y, ny, x', []);
    assert nx + Elements([]) == nx;
  }

  lemma EstablishValue(c: Conn, seg: Segment, env: Env)
    ensures var e := Establish(SetWindow(c, seg), seg, env);
            e.state.Established? && e.snd.iss == c.snd.iss && e.snd.max == c.snd.max && e.snd.tx == c.snd.tx
            && e.snd.una == seg.ackNo && e.finPending == c.finPending && e.peerFin == c.peerFin && e.rcv == c.rcv
            && e.readShut == c.readShut && e.orphan == c.orphan
  {
  }

  lemma EstablishSender(x: Side, x': Side)
    requires SenderOk(x) && x.conn.state.SynReceived? && x.conn.snd.tx == [] && x' == x.(conn := x'.conn)
    requires x'.conn.state.Established? && x'.conn.snd.iss == x.conn.snd.iss && x'.conn.snd.max == x.conn.snd.max
    requires x'.conn.snd.tx == x.conn.snd.tx && x'.conn.snd.una == Base(x) && x'.conn.finPending == x.conn.finPending
    ensures SenderOk(x') && Grows(x, x')
  {
  }

  lemma EstablishReceived(y: Side, x: Side, x': Side)
    requires Receiving(y, x) && x.conn.state.SynReceived? && !x.conn.readShut && x'.conn.orphan == x.conn.orphan
    requires x'.conn.rcv == x.conn.rcv && x'.read == x.read && x'.synced == x.synced && x'.started == x.started
    requires x'.conn.peerFin == x.conn.peerFin && x'.conn.state.Established?
    ensures Receiving(y, x')
  {
  }

  // ---------- a segment arrives ----------

  lemma UnacceptedGood(x: Side, nx: Net, y: Side, ny: Net, seg: Segment, env: Env)
    requires Good(x, nx, y, ny) && Inv(x.conn) && !x.conn.state.SynSent?
    requires !(Acceptable(x.conn, seg) && !seg.rst && !seg.syn && seg.ack)
    ensures var o := SegmentInput(x.conn, seg, env);
            Good(x.(conn := o.conn), nx + Elements(o.sent), y, ny)
  {
    hide Core, Receiving, Acking, AllGenuine, SenderOk, Acceptable, TextInput, AckAdvance, Establish, SynSentInput,
        ResetInput,
      WindowUpdate;
    var c := x.conn;
    var o := SegmentInput(c, seg, env);
    UnacceptedKeeps(c, seg, env);
    assert nx + Elements([]) == nx;
    if Acceptable(c, seg) && seg.rst {
      ResetGood(x, nx, y, ny, seg);
      assert o == Out(ResetInput(c, seg), []);
    } else {
      assert o.sent == [] && SameStream(c, o.conn);
      BookkeepingKeeps(x, nx, y, ny, o.conn);
    }
  }

  lemma ResetGood(x: Side, nx: Net, y: Side, ny: Net, seg: Segment)
    requires Good(x, nx, y, ny)
    ensures Good(x.(conn := ResetInput(x.conn, seg)), nx, y, ny)
  {
    var c := x.conn;
    ResetInputKeeps(c, seg);
    FinishEnds(c, ECONNREFUSED);
    FinishEnds(c, ECONNRESET);
    hide Core, Receiving, Acking, AllGenuine, SenderOk, SeqEq, Fail, Finish;
    assert nx + Elements([]) == nx;
    var d := ResetInput(c, seg);
    if c.state.TimeWait? || !SeqEq(seg.seqNo, c.rcv.nxt) {
      assert SameStream(c, d);
      BookkeepingKeeps(x, nx, y, ny, d);
    } else {
      EndKeeps(x, nx, y, ny, d, []);
    }
  }

  lemma SegmentGood(x: Side, nx: Net, y: Side, ny: Net, seg: Segment, env: Env)
    requires Good(x, nx, y, ny) && Inv(x.conn) && seg in ny && Fresh(x.conn, seg)
    requires !x.conn.state.Closed? && !x.conn.state.Listen?
    ensures var o := SegmentInput(x.conn, seg, env);
            Good(After(x, o.conn), nx + Elements(o.sent), y, ny)
  {
    hide Core, Receiving, Acking, AllGenuine, SenderOk, SegmentInput, Acceptable, SynSentInput, Inv;
    if x.conn.state.SynSent? {
      SynSentDispatch(x.conn, seg, env);
      SynSentGood(x, nx, y, ny, seg, env);
    } else {
      OpenAfter(x, y, SegmentInput(x.conn, seg, env).conn);
      if !(Acceptable(x.conn, seg) && !seg.rst && !seg.syn && seg.ack) {
        UnacceptedGood(x, nx, y, ny, seg, env);
      } else if x.conn.state.SynReceived? {
        SynReceivedGood(x, nx, y, ny, seg, env);
      } else {
        AcknowledgedGood(x, nx, y, ny, seg, env);
      }
    }
  }

  lemma OpenAfter(x: Side, y: Side, d: Conn)
    requires Receiving(y, x) && !x.conn.state.SynSent? && !x.conn.state.Closed? && !x.conn.state.Listen?
    ensures After(x, d) == x.(conn := d)
  {
  }

  // A listener hears a SYN.
  lemma ListenGood(x: Side, nx: Net, y: Side, ny: Net, seg: Segment, env: Env)
    requires Good(x, nx, y, ny) && x.conn.state.Listen? && seg in ny && !seg.rst && !seg.ack && seg.syn
    ensures var o := SendSyn(Child(seg, env), env.now);
            Good(After(x, o.conn), nx + Elements(o.sent), y, ny)
  {
    var child := Child(seg, env);
    SendSynKeeps(child, env.now);
    var o := SendSyn(child, env.now);
    var x' := After(x, o.conn);
    ChildValue(seg, env, o.conn);
    assert Genuine(y, seg);
    assert Receiving(y, x') by { SynFrame(x, y, seg, x'.(conn := o.conn.(rcv := child.rcv))); }
    hide SendSyn, Child;
    assert SenderOk(x') && Receiving(x', y);
    ListenerOnlyResets(x, nx);
    assert forall s <- nx + Elements(o.sent) | !s.rst :: Genuine(x', s) && s.ackNo == x'.conn.rcv.nxt;
  }

  lemma ListenerOnlyResets(x: Side, nx: Net)
    requires AllGenuine(x, nx) && (x.conn.state.Listen? || !x.started)
    ensures forall s <- nx :: s.rst
  {
  }

  lemma ChildValue(seg: Segment, env: Env, d: Conn)
    requires SameButSent(Child(seg, env), d)
    ensures d.rcv.irs == seg.seqNo && d.rcv.nxt == seg.seqNo + 1 && d.rcv.rx == [] && !d.peerFin && !d.finPending
    ensures d.snd.iss == env.entropy && d.snd.tx == [] && !d.readShut && !d.orphan
  {
  }

  lemma InputGood(x: Side, nx: Net, y: Side, ny: Net, seg: Segment, env: Env)
    requires Good(x, nx, y, ny) && Inv(x.conn) && seg in ny && Fresh(x.conn, seg)
    ensures var o := Input(x.conn, seg, env);
            Good(After(x, o.conn), nx + Elements(o.sent), y, ny)
  {
    hide Core, Receiving, Acking, AllGenuine, SenderOk, Inv, SeqLt, SegmentInput, ListenInput, Output, Finish,
        ReplyReset;
    var c := x.conn;
    var o := Input(c, seg, env);
    assert nx + Elements([]) == nx;
    if !c.used || c.state.Closed? {
      ResetsOnly(seg);
      RepliedGood(x, nx, y, ny, o.sent);
      SameAfter(x, y, c);
    } else if c.state.Listen? {
      ListenInputGood(x, nx, y, ny, seg, env);
    } else if c.state.TimeWait? && seg.syn && !seg.ack && SeqLt(c.rcv.nxt, seg.seqNo) {
      ResetsOnly(seg);
      FinishEnds(c, 0);
      EndKeeps(x, nx, y, ny, Finish(c), o.sent);
      OpenAfter(x, y, Finish(c));
    } else {
      AnswerGood(x, nx, y, ny, seg, env);
    }
  }

  lemma ListenInputGood(x: Side, nx: Net, y: Side, ny: Net, seg: Segment, env: Env)
    requires Good(x, nx, y, ny) && x.conn.state.Listen? && seg in ny
    ensures var o := ListenInput(x.conn, seg, env);
            Good(After(x, o.conn), nx + Elements(o.sent), y, ny)
  {
    hide Core, Receiving, Acking, AllGenuine, SenderOk, SendSyn, ReplyReset;
    assert nx + Elements([]) == nx;
    if !seg.rst && !seg.ack && seg.syn {
      ListenGood(x, nx, y, ny, seg, env);
    } else {
      ResetsOnly(seg);
      RepliedGood(x, nx, y, ny, ListenInput(x.conn, seg, env).sent);
      SameAfter(x, y, x.conn);
    }
  }

  lemma AnswerGood(x: Side, nx: Net, y: Side, ny: Net, seg: Segment, env: Env)
    requires Good(x, nx, y, ny) && Inv(x.conn) && seg in ny && Fresh(x.conn, seg)
    requires x.conn.used && !x.conn.state.Closed? && !x.conn.state.Listen?
    requires !(x.conn.state.TimeWait? && seg.syn && !seg.ack && SeqLt(x.conn.rcv.nxt, seg.seqNo))
    ensures var o := Input(x.conn, seg, env);
            Good(After(x, o.conn), nx + Elements(o.sent), y, ny)
  {
    hide Core, Receiving, Acking, AllGenuine, SenderOk, Inv, SeqLt, SegmentInput, ListenInput, Output, Finish,
        ReplyReset;
    var got := SegmentInput(x.conn, seg, env);
    SegmentGood(x, nx, y, ny, seg, env);
    var x1, nx1 := After(x, got.conn), nx + Elements(got.sent);
    if got.conn.used {
      OutputKeepsGood(x1, nx1, y, ny, env.now);
      var o := Output(got.conn, env.now);
      OutputKeeps(got.conn, env.now);
      OutputState(got.conn, o.conn);
      assert Input(x.conn, seg, env) == Out(o.conn, got.sent + o.sent);
      assert nx1 + Elements(o.sent) == nx + Elements(got.sent + o.sent);
      assert x1.(conn := o.conn) == After(x, o.conn);
    } else {
      assert Input(x.conn, seg, env) == got;
    }
  }

  lemma OutputState(c: Conn, d: Conn)
    requires OutputFrame(c, d)
    ensures Heard(d.state) <==> Heard(c.state)
  {
  }

  // ---------- timers ----------

  // The opening SYN goes out again.
  lemma SynAgainGood(x: Side, nx: Net, y: Side, ny: Net, now: nat)
    requires Good(x, nx, y, ny) && (x.conn.state.SynSent? || x.conn.state.SynReceived?)
    ensures var o := SendSyn(x.conn, now);
            Good(x.(conn := o.conn), nx + Elements(o.sent), y, ny)
  {
    var o := SendSyn(x.conn, now);
    SendSynKeeps(x.conn, now);
    hide SendSyn;
    var x' := x.(conn := o.conn);
    if x.conn.state.SynReceived? {
      SyncedSide(x, y);
      TransmitKeeps(x, nx, y, ny, x', o.sent);
    } else {
      assert SenderOk(x') && Grows(x, x');
      SynSentNet(x, x', nx, o.sent);
      StillReceived(y, x, x');
      StillReceivingSameMax(x, x', y);
      hide Receiving, AllGenuine, Genuine;
      assert Acking(x', y, ny) && Acking(y, x', nx + Elements(o.sent));
    }
  }

  lemma SynSentNet(x: Side, x': Side, nx: Net, sent: seq<Segment>)
    requires AllGenuine(x, nx) && Grows(x, x') && x'.started && !x'.conn.state.Listen?
    requires forall seg <- sent :: seg.syn && !seg.fin && !seg.rst && seg.seqNo == x'.conn.snd.iss && seg.data == []
    requires AllBelow(sent, x'.conn.snd.max)
    ensures AllGenuine(x', nx + Elements(sent))
  {
    StillGenuine(x, x', nx);
  }

  lemma SynTimeoutGood(x: Side, nx: Net, y: Side, ny: Net, now: nat)
    requires Good(x, nx, y, ny) && (x.conn.state.SynSent? || x.conn.state.SynReceived?)
    ensures var o := SynTimeout(x.conn, now);
            Good(x.(conn := o.conn), nx + Elements(o.sent), y, ny)
  {
    hide *;
    var r := x.conn.(retries := x.conn.retries + 1);
    var o := SynTimeout(x.conn, now);
    SynTimeoutCases(x.conn, now);
    CountedGood(x, nx, y, ny);
    if r.retries > SYN_RETRIES {
      var xr := x.(conn := r);
      FailGood(xr, nx, y, ny, ETIMEDOUT);
      assert xr.(conn := o.conn) == x.(conn := o.conn);
    } else {
      var xb := x.(conn := Backoff(r));
      SynAgainGood(xb, nx, y, ny, now);
      assert xb.(conn := o.conn) == x.(conn := o.conn);
    }
  }

  lemma CountedGood(x: Side, nx: Net, y: Side, ny: Net)
    requires Good(x, nx, y, ny)
    ensures var r := x.conn.(retries := x.conn.retries + 1);
            Good(x.(conn := r), nx, y, ny) && Good(x.(conn := Backoff(r)), nx, y, ny)
  {
    hide Core, Receiving, Acking, AllGenuine, SenderOk, Backoff, SameStream;
    CountKeeps(x.conn);
    var r := x.conn.(retries := x.conn.retries + 1);
    BookkeepingKeeps(x, nx, y, ny, r);
    BookkeepingKeeps(x, nx, y, ny, Backoff(r));
  }

  lemma FailGood(x: Side, nx: Net, y: Side, ny: Net, error: int)
    requires Good(x, nx, y, ny)
    ensures Good(x.(conn := Fail(x.conn, error)), nx + Elements([]), y, ny)
  {
    hide Core, Receiving, Acking, AllGenuine, SenderOk, Fail;
    FinishEnds(x.conn, error);
    EndKeeps(x, nx, y, ny, Fail(x.conn, error), []);
  }

  lemma SynTimeoutCases(c: Conn, now: nat)
    ensures var r := c.(retries := c.retries + 1);
            SynTimeout(c, now)
                == (if r.retries > SYN_RETRIES then Out(Fail(r, ETIMEDOUT), []) else SendSyn(Backoff(r), now))
            && Backoff(r).state == c.state
  {
    hide SendSyn, Fail;
  }

  lemma ResendCases(c: Conn, now: nat)
    ensures var r := c.(retries := c.retries + 1);
            Resend(c, now) == (if r.retries > DATA_RETRIES then Abort(r, ETIMEDOUT)
                               else Output(SetNxt(Backoff(r), r.snd.una).(timer := now + Backoff(r).rto), now))
  {
    hide Output, Abort, Backoff, SetNxt;
  }

  lemma CountKeeps(c: Conn)
    requires Core(c)
    ensures var r := c.(retries := c.retries + 1);
            Core(r) && SameStream(c, r) && Core(Backoff(r)) && SameStream(c, Backoff(r))
    ensures Core(Backoff(c)) && SameStream(c, Backoff(c))
  {
    hide Core, SameStream, Backoff;
    RetryKeeps(c);
    BackoffKeeps(c);
    BackoffKeeps(c.(retries := c.retries + 1));
    StreamChain(c, c.(retries := c.retries + 1), Backoff(c.(retries := c.retries + 1)));
  }

  lemma RetryKeeps(c: Conn)
    requires Core(c)
    ensures Core(c.(retries := c.retries + 1)) && SameStream(c, c.(retries := c.retries + 1))
  {
  }

  lemma BackoffKeeps(c: Conn)
    requires Core(c)
    ensures Core(Backoff(c)) && SameStream(c, Backoff(c))
  {
  }

  lemma StreamChain(c: Conn, d: Conn, e: Conn)
    requires SameStream(c, d) && SameStream(d, e)
    ensures SameStream(c, e)
  {
  }

  lemma ProbeGood(x: Side, nx: Net, y: Side, ny: Net, now: nat)
    requires Good(x, nx, y, ny) && Inv(x.conn) && DataState(x.conn.state)
    ensures var o := Probe(x.conn, now);
            Good(x.(conn := o.conn), nx + Elements(o.sent), y, ny)
  {
    hide Core, Receiving, Acking, AllGenuine, SenderOk, Emit, Probe, Sent, Backoff, Inv, OutputFrame, AllSent;
    var c := x.conn;
    var b := Backoff(c);
    InvCore(c);
    CountKeeps(c);
    ProbeKeeps(c, now);
    ProbeFrame(c, now);
    SyncedSide(x, y);
    var o := Probe(c, now);
    BookkeepingKeeps(x, nx, y, ny, b);
    TransmitKeeps(x.(conn := b), nx, y, ny, x.(conn := o.conn), o.sent);
  }

  lemma InvCore(c: Conn)
    requires Inv(c)
    ensures Core(c)
  {
  }

  lemma ProbeFrame(c: Conn, now: nat)
    requires Inv(c) && DataState(c.state)
    ensures var o := Probe(c, now);
            OutputFrame(Backoff(c), o.conn) && Core(o.conn) && AllSent(Backoff(c), o.sent)
  {
    hide WindowPeek;
    WindowEdge(Backoff(c));
  }

  lemma ResendGood(x: Side, nx: Net, y: Side, ny: Net, now: nat)
    requires Good(x, nx, y, ny) && DataState(x.conn.state)
    ensures var o := Resend(x.conn, now);
            Good(x.(conn := o.conn), nx + Elements(o.sent), y, ny)
  {
    var c := x.conn;
    var r := c.(retries := c.retries + 1);
    var back := SetNxt(Backoff(r), r.snd.una).(timer := now + Backoff(r).rto);
    CountKeeps(c);
    GoBackKeeps(c, back, now);
    ResendCases(c, now);
    hide Core, Receiving, Acking, AllGenuine, SenderOk, Output, Abort, Backoff, SetNxt, Resend, SameStream;
    if r.retries > DATA_RETRIES {
      BookkeepingKeeps(x, nx, y, ny, r);
      FinishEnds(r, ETIMEDOUT);
      EndKeeps(x.(conn := r), nx, y, ny, Abort(r, ETIMEDOUT).conn, Abort(r, ETIMEDOUT).sent);
    } else {
      BookkeepingKeeps(x, nx, y, ny, back);
      OutputKeepsGood(x.(conn := back), nx, y, ny, now);
    }
  }

  lemma GoBackKeeps(c: Conn, back: Conn, now: nat)
    requires Core(c) && DataState(c.state)
    requires var r := c.(retries := c.retries + 1);
             back == SetNxt(Backoff(r), r.snd.una).(timer := now + Backoff(r).rto)
    ensures Core(back) && SameStream(c, back)
  {
  }

  lemma TickGood(x: Side, nx: Net, y: Side, ny: Net, now: nat)
    requires Good(x, nx, y, ny) && Inv(x.conn)
    ensures var o := Tick(x.conn, now);
            Good(x.(conn := o.conn), nx + Elements(o.sent), y, ny)
  {
    var c := x.conn;
    assert nx + Elements([]) == nx;
    hide Core, Receiving, Acking, AllGenuine, SenderOk, Inv, Timeout, Finish;
    if !c.used {
    } else if c.life != 0 && now >= c.life {
      FinishEnds(c, 0);
      EndKeeps(x, nx, y, ny, Finish(c), []);
    } else if c.timer != 0 && now >= c.timer {
      TimeoutGood(x, nx, y, ny, now);
    }
  }

  lemma TimeoutGood(x: Side, nx: Net, y: Side, ny: Net, now: nat)
    requires Good(x, nx, y, ny) && Inv(x.conn)
    ensures var o := Timeout(x.conn, now);
            Good(x.(conn := o.conn), nx + Elements(o.sent), y, ny)
  {
    var c := x.conn;
    IdleTimeoutCore(c);
    hide Core, Receiving, Acking, AllGenuine, SenderOk, Inv, SynTimeout, Probe, Resend, SeqEq;
    assert nx + Elements([]) == nx;
    if c.state.SynSent? || c.state.SynReceived? {
      SynTimeoutGood(x, nx, y, ny, now);
    } else if DataState(c.state) && c.snd.wnd == 0 && |c.snd.tx| > 0 {
      ProbeGood(x, nx, y, ny, now);
    } else if DataState(c.state) && !SeqEq(c.snd.una, c.snd.nxt) {
      ResendGood(x, nx, y, ny, now);
    } else {
      BookkeepingKeeps(x, nx, y, ny, c.(timer := 0));
    }
  }

  lemma IdleTimeoutCore(c: Conn)
    requires Core(c)
    ensures !c.state.SynSent? && !c.state.SynReceived? ==> Core(c.(timer := 0)) && SameStream(c, c.(timer := 0))
  {
  }

  // ---------- calls ----------

  function AfterRead(x: Side, r: CallOut): Side {
    x.(conn := r.out.conn, read := x.read + (if r.reply.Done? then r.reply.bytes else []))
  }

  function AfterWrite(x: Side, data: seq<Byte>, r: CallOut): Side {
    x.(conn := r.out.conn, written := x.written
       + (if r.reply.Accepted? && r.reply.count <= |data| then data[..r.reply.count] else []))
  }

  lemma ReadGood(x: Side, nx: Net, y: Side, ny: Net, cap: nat, now: nat)
    requires Good(x, nx, y, ny)
    ensures var r := Read(x.conn, cap, now);
            Good(AfterRead(x, r), nx + Elements(r.out.sent), y, ny)
  {
    var c := x.conn;
    assert nx + Elements([]) == nx;
    assert x.read + [] == x.read;
    BookkeptCore(c);
    hide Core, Receiving, Acking, AllGenuine, SenderOk, SeqLt, Diff, WindowPeek, Output, SameStream, Elements;
    var r := Read(c, cap, now);
    if Unconnected(c.state) || (c.error == 0 && |c.rcv.rx| == 0) {
      assert AfterRead(x, r) == x && r.out.sent == [];
    } else if c.error != 0 {
      BookkeepingKeeps(x, nx, y, ny, c.(error := 0));
      assert AfterRead(x, r) == x.(conn := c.(error := 0)) && r.out.sent == [];
    } else {
      var count := Min(cap, |c.rcv.rx|);
      var taken := c.(rcv := c.rcv.(rx := c.rcv.rx[count..]));
      ReadKeepsGood(x, nx, y, ny, count);
      var x1 := x.(conn := taken, read := x.read + c.rcv.rx[..count]);
      hide Good;
      if r.out == Out(taken, []) {
        assert AfterRead(x, r) == x1;
      } else {
        AckOwedGood(x1, nx, y, ny);
        OutputKeepsGood(x1.(conn := taken.(ackNow := true)), nx, y, ny, now);
        assert r.out == Output(taken.(ackNow := true), now);
      }
    }
  }

  lemma AckOwedGood(x: Side, nx: Net, y: Side, ny: Net)
    requires Good(x, nx, y, ny)
    ensures Good(x.(conn := x.conn.(ackNow := true)), nx, y, ny)
  {
    hide Core, Receiving, Acking, AllGenuine, SenderOk, SameStream;
    AckOwedKeeps(x.conn);
    BookkeepingKeeps(x, nx, y, ny, x.conn.(ackNow := true));
  }

  lemma BookkeptCore(c: Conn)
    requires Core(c)
    ensures Core(c.(error := 0)) && SameStream(c, c.(error := 0))
    ensures Core(c.(embryo := false)) && SameStream(c, c.(embryo := false))
  {
  }

  lemma WriteGood(x: Side, nx: Net, y: Side, ny: Net, data: seq<Byte>, now: nat)
    requires Good(x, nx, y, ny)
    ensures var r := Write(x.conn, data, now);
            Good(AfterWrite(x, data, r), nx + Elements(r.out.sent), y, ny)
  {
    var c := x.conn;
    assert nx + Elements([]) == nx;
    assert x.written + [] == x.written;
    BookkeptCore(c);
    hide Core, Receiving, Acking, AllGenuine, SenderOk, Output, SameStream, Elements;
    var r := Write(c, data, now);
    if Unconnected(c.state) {
      assert AfterWrite(x, data, r) == x && r.out.sent == [];
    } else if c.error != 0 {
      BookkeepingKeeps(x, nx, y, ny, c.(error := 0));
      assert AfterWrite(x, data, r) == x.(conn := c.(error := 0)) && r.out.sent == [];
    } else if c.finPending || (!c.state.Established? && !c.state.CloseWait?) || |c.snd.tx| >= BUFFER_SIZE {
      assert AfterWrite(x, data, r) == x && r.out.sent == [];
    } else {
      var count := Min(|data|, BUFFER_SIZE - |c.snd.tx|);
      var queued := c.(snd := c.snd.(tx := c.snd.tx + data[..count]));
      WriteKeepsGood(x, nx, y, ny, data[..count]);
      var x1 := x.(conn := queued, written := x.written + data[..count]);
      hide Good;
      OutputKeepsGood(x1, nx, y, ny, now);
      assert r == CallOut(Output(queued, now), Accepted(count));
    }
  }

  lemma ShutCore(c: Conn, readSide: bool)
    requires Core(c) && Synchronized(c.state)
    ensures Core(c.(readShut := true, rcv := c.rcv.(rx := []))) && Core(c.(finPending := true))
    ensures Core(c.(readShut := true, rcv := c.rcv.(rx := []), finPending := true))
  {
  }

  lemma ShutdownGood(x: Side, nx: Net, y: Side, ny: Net, readSide: bool, writeSide: bool, now: nat)
    requires Good(x, nx, y, ny)
    ensures var r := Shutdown(x.conn, readSide, writeSide, now);
            Good(x.(conn := r.out.conn), nx + Elements(r.out.sent), y, ny)
  {
    var c := x.conn;
    assert nx + Elements([]) == nx;
    if Unconnected(c.state) || c.state.Closed? {
    } else {
      ShutCore(c, readSide);
      ShutFlagged(x, nx, y, ny, readSide, writeSide);
      hide Core, Receiving, Acking, AllGenuine, SenderOk, Output, Elements, Good;
      var d := Flagged(c, readSide, writeSide);
      if writeSide { OutputKeepsGood(x.(conn := d), nx, y, ny, now); }
      assert Shutdown(c, readSide, writeSide, now).out == if writeSide then Output(d, now) else Out(d, []);
    }
  }

  function Flagged(c: Conn, readSide: bool, writeSide: bool): Conn {
    var r := if readSide then c.(readShut := true, rcv := c.rcv.(rx := [])) else c;
    if writeSide then r.(finPending := true) else r
  }

  lemma ShutFlagged(x: Side, nx: Net, y: Side, ny: Net, readSide: bool, writeSide: bool)
    requires Good(x, nx, y, ny) && Synchronized(x.conn.state)
    ensures Good(x.(conn := Flagged(x.conn, readSide, writeSide)), nx, y, ny)
  {
    ShutCore(x.conn, readSide);
    var c := x.conn;
    if readSide {
      ShutKeepsGood(x, nx, y, ny,
                    c.(readShut := true, rcv := c.rcv.(rx := []), finPending := c.finPending || writeSide));
    } else if writeSide {
      FinPendingGood(x, nx, y, ny);
    }
  }

  lemma FinPendingGood(x: Side, nx: Net, y: Side, ny: Net)
    requires Good(x, nx, y, ny) && Synchronized(x.conn.state)
    ensures Good(x.(conn := x.conn.(finPending := true)), nx, y, ny)
  {
    var d := x.conn.(finPending := true);
    var x' := x.(conn := d);
    ShutCore(x.conn, false);
    assert SenderOk(x') && Grows(x, x') && Receiving(y, x');
    hide Core, Receiving, Acking, AllGenuine, SenderOk, Grows;
    AckedStays(x, y, ny);
    ChangeKeeps(x, nx, y, ny, x', []);
    assert nx + Elements([]) == nx;
  }

  lemma CloseGood(x: Side, nx: Net, y: Side, ny: Net, now: nat)
    requires Good(x, nx, y, ny)
    ensures var o := Close(x.conn, now);
            Good(x.(conn := o.conn), nx + Elements(o.sent), y, ny)
  {
    var c := x.conn;
    assert nx + Elements([]) == nx;
    var orphan := c.(orphan := true);
    if !Heard(c.state) {
      UnheardClose(x, nx, y, ny, now);
    } else if c.state.SynReceived? || ((c.state.Established? || c.state.CloseWait?) && |c.rcv.rx| > 0) {
      OrphanEnds(c);
      hide Core, Receiving, Acking, AllGenuine, SenderOk, Abort, Output;
      EndKeeps(x, nx, y, ny, Abort(orphan, 0).conn, Abort(orphan, 0).sent);
      assert Close(c, now) == Abort(orphan, 0);
    } else {
      var d := orphan.(rcv := c.rcv.(rx := []), finPending := true,
                       life := if c.state.TimeWait? then c.life else now + ORPHAN_LIFE_MS);
      OrphanCore(c, now);
      ShutKeepsGood(x, nx, y, ny, d);
      hide Core, Receiving, Acking, AllGenuine, SenderOk, Output, Good, Elements;
      OutputKeepsGood(x.(conn := d), nx, y, ny, now);
      assert Close(c, now) == Output(d, now);
    }
  }

  lemma OrphanEnds(c: Conn)
    requires Core(c) && Heard(c.state)
    ensures var a := Abort(c.(orphan := true), 0);
            Ended(c, a.conn) && forall seg <- a.sent :: seg.rst
  {
  }

  lemma OrphanCore(c: Conn, now: nat)
    requires Core(c) && Synchronized(c.state)
    ensures Core(c.(orphan := true).(rcv := c.rcv.(rx := []), finPending := true,
                                     life := if c.state.TimeWait? then c.life else now + ORPHAN_LIFE_MS))
  {
  }

  lemma UnheardClose(x: Side, nx: Net, y: Side, ny: Net, now: nat)
    requires Good(x, nx, y, ny) && !Heard(x.conn.state)
    ensures var o := Close(x.conn, now);
            Good(x.(conn := o.conn), nx + Elements(o.sent), y, ny)
  {
    var d := x.conn.(orphan := true).(used := false);
    assert Close(x.conn, now) == Out(d, []);
    assert nx + Elements([]) == nx;
    var x' := x.(conn := d);
    assert Core(d) && SenderOk(x') && Grows(x, x') && Receiving(y, x');
    hide Core, Receiving, Acking, AllGenuine, SenderOk, Grows, Close;
    ChangeKeeps(x, nx, y, ny, x', []);
  }
}
