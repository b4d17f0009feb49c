/**
 The TCP endpoint of kernel/net/tcp.c as functions on one connection block.

 Sequence numbers are unbounded integers here, but every comparison and every
 difference goes through `Wrap`, the reduction modulo 2^32.  A step therefore
 depends only on the 32-bit fields of the source (module TcpWrap proves it), and
 the unreduced values serve as stream offsets in the proofs.
 */
module TcpSpec {
  import opened Wrappers

  const MOD: int := 0x1_0000_0000
  const HALF: int := 0x8000_0000
  const BUFFER_SIZE: int := 8192
  const MSS_MAX: int := 1460
  const MSS_FLOOR: int := 64
  const MSS_DEFAULT: int := 536
  const RTO_INITIAL: int := 300
  const RTO_MIN: int := 200
  const RTO_MAX: int := 8000
  const SYN_RETRIES: int := 5
  const DATA_RETRIES: int := 6
  const TIME_WAIT_MS: int := 1000
  const ORPHAN_LIFE_MS: int := 30000

  const ETIMEDOUT: int := 110
  const ECONNREFUSED: int := 111
  const ECONNRESET: int := 104

  type Byte = x: int | 0 <= x < 256
  type Mss = x: int | 64 <= x <= 1460 witness 536

  datatype State =
    | Closed | Listen | SynSent | SynReceived | Established | FinWait1
    | FinWait2 | CloseWait | Closing | LastAck | TimeWait

  // Send sequence variables and the transmit ring: its read position and its contents.
  datatype Sender = Sender(
    iss: int, una: int, nxt: int, max: int, wnd: nat, wl1: int, wl2: int,
    txHead: nat, tx: seq<Byte>)

  // Receive sequence variables, the right edge last advertised and the receive ring.
  datatype Receiver = Receiver(irs: int, nxt: int, adv: int, rx: seq<Byte>)

  datatype Conn = Conn(
    used: bool, state: State,
    orphan: bool, embryo: bool, finPending: bool, peerFin: bool, readShut: bool, ackNow: bool,
    retries: nat, error: int, mss: Mss,
    snd: Sender, rcv: Receiver,
    rto: nat, timer: nat, life: nat)

  datatype Segment = Segment(
    seqNo: int, ackNo: int, syn: bool, ack: bool, fin: bool, rst: bool,
    window: nat, mss: nat, data: seq<Byte>)

  // A new block together with the segments handed to the wire, in order.
  datatype Out = Out(conn: Conn, sent: seq<Segment>)

  // What a call learns from outside: the clock, a fresh initial sequence number and
  // srtt + 4 * rttvar when an acknowledgement completes a round-trip measurement.
  datatype Env = Env(now: nat, entropy: nat, rtt: Option<nat>)

  function Min(a: int, b: int): int { if a < b then a else b }

  // ---------- 32-bit sequence arithmetic ----------

  function Wrap(a: int): nat { a % MOD }

  // The signed 32-bit difference of two values is negative.
  predicate Before32(a: nat, b: nat) { (a - b) % MOD >= HALF }

  predicate SeqLt(a: int, b: int) { Before32(Wrap(a), Wrap(b)) }

  predicate SeqEq(a: int, b: int) { Wrap(a) == Wrap(b) }

  predicate SeqLe(a: int, b: int) { SeqLt(a, b) || SeqEq(a, b) }

  function Diff(a: int, b: int): nat { (Wrap(a) - Wrap(b)) % MOD }

  // ---------- output side ----------

  // The window field of the next segment: what was promised before, or all free space once that is worth a step.
  function WindowPeek(c: Conn): nat {
    var free := BUFFER_SIZE - |c.rcv.rx|;
    var offered := if SeqLt(c.rcv.nxt, c.rcv.adv) then Diff(c.rcv.adv, c.rcv.nxt) else 0;
    var step := Min(c.mss, BUFFER_SIZE / 2);
    (if free > offered && free - offered >= step then free else offered) % 0x1_0000
  }

  function Emit(c: Conn, seqNo: int, syn: bool, ack: bool, fin: bool, data: seq<Byte>): Out {
    var w := WindowPeek(c);
    Out(c.(rcv := c.rcv.(adv := c.rcv.nxt + w), ackNow := c.ackNow && !ack),
        [Segment(seqNo, if ack then c.rcv.nxt else 0, syn, ack, fin, false, w,
                 if syn then MSS_MAX else 0, data)])
  }

  function SetNxt(c: Conn, n: int): Conn { c.(snd := c.snd.(nxt := n)) }

  function NoteSent(c: Conn): Conn {
    c.(snd := c.snd.(max := if SeqLt(c.snd.max, c.snd.nxt) then c.snd.nxt else c.snd.max))
  }

  // Puts the initial sequence number on the wire, with an ACK exactly in SYN_RECEIVED, and restarts the timer.
  function SendSyn(c: Conn, now: nat): Out {
    var e := Emit(c, c.snd.iss, true, c.state.SynReceived?, false, []);
    Out(NoteSent(SetNxt(e.conn, c.snd.iss + 1)).(timer := now + c.rto), e.sent)
  }

  function Backoff(c: Conn): Conn {
    c.(rto := if c.rto * 2 > RTO_MAX then RTO_MAX else c.rto * 2)
  }

  function ClampRto(raw: nat): nat {
    if raw < RTO_MIN then RTO_MIN else if raw > RTO_MAX then RTO_MAX else raw
  }

  function RttAck(c: Conn, rtt: Option<nat>): Conn {
    c.(rto := if rtt.Some? then ClampRto(rtt.value) else c.rto)
  }

  // Closed without error; an orphan or an embryo also gives its block back.
  function Finish(c: Conn): Conn {
    c.(state := Closed, timer := 0, life := 0, used := c.used && !c.orphan && !c.embryo)
  }

  function Fail(c: Conn, error: int): Conn {
    Finish(c.(error := error, rcv := c.rcv.(rx := []), snd := c.snd.(tx := [])))
  }

  function ResetSegment(seqNo: int, ackNo: int, ack: bool): Segment {
    Segment(seqNo, ackNo, false, ack, false, true, 0, 0, [])
  }

  // Failure with a reset segment, unless there is no peer to tell yet.
  function Abort(c: Conn, error: int): Out {
    Out(Fail(c, error),
        if c.state.SynSent? || c.state.Closed? then []
        else [ResetSegment(c.snd.nxt, c.rcv.nxt, true)])
  }

  function SegmentLength(seg: Segment): nat {
    |seg.data| + (if seg.syn then 1 else 0) + (if seg.fin then 1 else 0)
  }

  function ReplyReset(seg: Segment): seq<Segment> {
    [if seg.ack then ResetSegment(seg.ackNo, 0, false)
     else ResetSegment(0, seg.seqNo + SegmentLength(seg), true)]
  }

  function EnterTimeWait(c: Conn, now: nat): Conn {
    c.(state := TimeWait, timer := 0, life := now + TIME_WAIT_MS)
  }

  predicate DataState(s: State) {
    s.Established? || s.FinWait1? || s.CloseWait? || s.Closing? || s.LastAck?
  }

  // Length of the next data segment, 0 when the transmit loop stops.
  function ChunkLength(c: Conn): (n: nat)
    ensures n > 0 ==> Diff(c.snd.nxt, c.snd.una) + n <= |c.snd.tx|
  {
    var inFlight := Diff(c.snd.nxt, c.snd.una);
    if inFlight >= |c.snd.tx| || c.snd.wnd <= inFlight then 0
    else
      var unsent := |c.snd.tx| - inFlight;
      var len := Min(Min(unsent, c.snd.wnd - inFlight), c.mss);
      if len < unsent && len < c.mss && inFlight > 0 then 0
      else Min(len, BUFFER_SIZE - (c.snd.txHead + inFlight) % BUFFER_SIZE)
  }

  // One round of the transmit loop.
  function SendChunk(c: Conn): Out
    requires ChunkLength(c) > 0
  {
    var inFlight := Diff(c.snd.nxt, c.snd.una);
    var len := ChunkLength(c);
    var e := Emit(c, c.snd.nxt, false, true, false, c.snd.tx[inFlight..inFlight + len]);
    Out(NoteSent(SetNxt(e.conn, c.snd.nxt + len)), e.sent)
  }

  function Unsent(c: Conn): nat {
    if Diff(c.snd.nxt, c.snd.una) < |c.snd.tx| then |c.snd.tx| - Diff(c.snd.nxt, c.snd.una) else 0
  }

  // The transmit loop.  The size test only matters for blocks no run can reach; it
  // keeps the recursion well-founded for every value of the type.
  function SendData(c: Conn): Out
    decreases Unsent(c)
  {
    if ChunkLength(c) == 0 || |c.snd.tx| > BUFFER_SIZE then Out(c, [])
    else
      var first := SendChunk(c);
      ChunkShrinks(c);
      var rest := SendData(first.conn);
      Out(rest.conn, first.sent + rest.sent)
  }

  lemma DiffAdd(a: int, b: int, n: nat)
    requires Diff(a, b) + n < MOD
    ensures Diff(a + n, b) == Diff(a, b) + n
  {
  }

  lemma ChunkShrinks(c: Conn)
    requires ChunkLength(c) > 0 && |c.snd.tx| <= BUFFER_SIZE
    ensures Unsent(SendChunk(c).conn) < Unsent(c)
  {
    hide Diff, SeqLt, WindowPeek, ChunkLength;
    DiffAdd(c.snd.nxt, c.snd.una, ChunkLength(c));
  }

  function SendFin(c: Conn): Out {
    if c.finPending && SeqEq(c.snd.nxt, c.snd.una + |c.snd.tx|) then
      var e := Emit(c, c.snd.nxt, false, true, true, []);
      var sent := NoteSent(SetNxt(e.conn, c.snd.nxt + 1));
      Out(sent.(state := if sent.state.Established? then FinWait1
                         else if sent.state.CloseWait? then LastAck else sent.state), e.sent)
    else Out(c, [])
  }

  function SendAck(c: Conn): Out {
    if c.ackNow then Emit(c, c.snd.nxt, false, true, false, []) else Out(c, [])
  }

  function ArmTimer(c: Conn, now: nat): Conn {
    var running := !SeqEq(c.snd.una, c.snd.nxt) || (|c.snd.tx| > 0 && c.snd.wnd == 0);
    c.(timer := if !running then 0 else if c.timer == 0 then now + c.rto else c.timer)
  }

  // snd_nxt falls back to snd_una while the window is shut and bytes are queued.
  function Pulled(c: Conn): Conn { SetNxt(c, if c.snd.wnd == 0 && |c.snd.tx| > 0 then c.snd.una else c.snd.nxt) }

  // The three transmissions in turn: the data loop, the FIN, the acknowledgement; then the timer is set.
  function Output(c: Conn, now: nat): Out {
    if c.state.SynReceived? then
      if c.ackNow then SendSyn(c, now) else Out(c, [])
    else if c.state.FinWait2? || c.state.TimeWait? then SendAck(c)
    else if !DataState(c.state) then Out(c, [])
    else
      var data := SendData(Pulled(c));
      var fin := SendFin(data.conn);
      var ack := SendAck(fin.conn);
      Out(ArmTimer(ack.conn, now), data.sent + fin.sent + ack.sent)
  }

  function SynTimeout(c: Conn, now: nat): Out {
    var r := c.(retries := c.retries + 1);
    if r.retries > SYN_RETRIES then Out(Fail(r, ETIMEDOUT), []) else SendSyn(Backoff(r), now)
  }

  // One byte-less segment numbered snd_una - 1, with a doubled timeout.
  function Probe(c: Conn, now: nat): Out {
    var b := Backoff(c);
    var e := Emit(b, b.snd.una - 1, false, true, false, []);
    Out(e.conn.(timer := now + b.rto), e.sent)
  }

  // Transmission restarts from snd_una, or the block fails after too many tries.
  function Resend(c: Conn, now: nat): Out {
    var r := c.(retries := c.retries + 1);
    if r.retries > DATA_RETRIES then Abort(r, ETIMEDOUT)
    else Output(SetNxt(Backoff(r), r.snd.una).(timer := now + Backoff(r).rto), now)
  }

  function Timeout(c: Conn, now: nat): Out {
    if c.state.SynSent? || c.state.SynReceived? then SynTimeout(c, now)
    else if DataState(c.state) && c.snd.wnd == 0 && |c.snd.tx| > 0 then Probe(c, now)
    else if DataState(c.state) && !SeqEq(c.snd.una, c.snd.nxt) then Resend(c, now)
    else Out(c.(timer := 0), [])
  }

  // ---------- input side ----------

  predicate FinAcked(c: Conn, ackNo: int) { c.finPending && SeqLt(c.snd.una + |c.snd.tx|, ackNo) }

  // Bytes an acknowledgement removes from the transmit ring.
  function AckedBytes(c: Conn, ackNo: int): (n: nat)
    ensures n <= |c.snd.tx|
  {
    var acked := Diff(ackNo, c.snd.una);
    var bytes := if FinAcked(c, ackNo) then (acked - 1) % MOD else acked;
    if bytes > |c.snd.tx| then |c.snd.tx| else bytes
  }

  // The block once the acknowledged bytes are dropped and the timer is restarted.
  function AckArmed(c: Conn, ackNo: int, env: Env): Conn {
    var acked := AckedBytes(c, ackNo);
    var snd := c.snd.(txHead := (c.snd.txHead + acked) % BUFFER_SIZE, tx := c.snd.tx[acked..], una := ackNo,
                      nxt := if SeqLt(c.snd.nxt, ackNo) then ackNo else c.snd.nxt);
    var rto := RttAck(c, env.rtt).rto;
    c.(snd := snd, retries := 0, rto := rto, timer := if SeqEq(snd.una, snd.nxt) then 0 else env.now + rto)
  }

  function AckAdvance(c: Conn, ackNo: int, env: Env): Conn {
    var armed := AckArmed(c, ackNo, env);
    if FinAcked(c, ackNo) then FinAckedInput(armed, env.now) else armed
  }

  function FinAckedInput(c: Conn, now: nat): Conn {
    if c.state.LastAck? then Finish(c)
    else if c.state.Closing? then EnterTimeWait(c, now)
    else c.(state := if c.state.FinWait1? then FinWait2 else c.state)
  }

  predicate InWindow(c: Conn, window: int, seqNo: int) {
    SeqLe(c.rcv.nxt, seqNo) && SeqLt(seqNo, c.rcv.nxt + window)
  }

  function ClampMss(mss: nat): Mss {
    if mss < MSS_FLOOR then MSS_FLOOR else Min(mss, MSS_MAX)
  }

  function SetWindow(c: Conn, seg: Segment): Conn {
    c.(snd := c.snd.(wnd := seg.window, wl1 := seg.seqNo, wl2 := seg.ackNo))
  }

  // The handshake is complete: the acknowledgement covers the SYN.
  function Establish(c: Conn, seg: Segment, env: Env): Conn {
    RttAck(c.(snd := c.snd.(una := seg.ackNo), retries := 0, timer := 0), env.rtt).(state := Established)
  }

  // The peer's SYN fixes the receive side and the send window.
  function SynHeard(c: Conn, seg: Segment): Conn {
    SetWindow(c, seg).(
      rcv := c.rcv.(irs := seg.seqNo, nxt := seg.seqNo + 1, adv := seg.seqNo + 1),
      mss := if seg.mss != 0 then ClampMss(seg.mss) else c.mss, ackNow := true)
  }

  function SynSentInput(c: Conn, seg: Segment, env: Env): Out {
    var ackOk := SeqLt(c.snd.iss, seg.ackNo) && SeqLe(seg.ackNo, c.snd.nxt);
    if seg.ack && !ackOk then Out(c, if seg.rst then [] else ReplyReset(seg))
    else if seg.rst then Out(if seg.ack then Fail(c, ECONNREFUSED) else c, [])
    else if !seg.syn then Out(c, [])
    else if seg.ack then Out(Establish(SynHeard(c, seg), seg, env), [])
    else Out(SynHeard(c, seg).(state := SynReceived), [])   // simultaneous open
  }

  function ResetInput(c: Conn, seg: Segment): Conn {
    if c.state.TimeWait? then c
    else if !SeqEq(seg.seqNo, c.rcv.nxt) then c.(ackNow := true)
    else if c.state.Closing? || c.state.LastAck? then Finish(c)
    else Fail(c, if c.state.SynReceived? then ECONNREFUSED else ECONNRESET)
  }

  predicate TakesData(s: State) { s.Established? || s.FinWait1? || s.FinWait2? }

  // Bytes at the front of the segment that were already received.
  function Overlap(c: Conn, seg: Segment): (n: nat)
    ensures n <= |seg.data|
  {
    if SeqLt(seg.seqNo, c.rcv.nxt) then Min(Diff(c.rcv.nxt, seg.seqNo), |seg.data|) else 0
  }

  function AcceptText(c: Conn, seg: Segment): Out {
    var skip := Overlap(c, seg);
    var data := seg.data[skip..];
    if |data| == 0 then Out(c, [])
    else if !TakesData(c.state) || !SeqEq(seg.seqNo + skip, c.rcv.nxt) then Out(c.(ackNow := true), [])
    else if c.orphan then Abort(c, ECONNRESET)
    else if c.readShut then Out(c.(rcv := c.rcv.(nxt := c.rcv.nxt + |data|), ackNow := true), [])
    else
      var room := if |c.rcv.rx| < BUFFER_SIZE then BUFFER_SIZE - |c.rcv.rx| else 0;
      var take := Min(|data|, room);
      Out(c.(rcv := c.rcv.(rx := c.rcv.rx + data[..take], nxt := c.rcv.nxt + take), ackNow := true), [])
  }

  predicate TakesFin(c: Conn, seg: Segment) {
    seg.fin && TakesData(c.state) && SeqEq(seg.seqNo + |seg.data|, c.rcv.nxt)
  }

  function AcceptFin(c: Conn, now: nat): Conn {
    c.(rcv := c.rcv.(nxt := c.rcv.nxt + 1), peerFin := true, ackNow := true,
       state := if c.state.Established? then CloseWait else if c.state.FinWait1? then Closing else TimeWait,
       timer := if c.state.Established? || c.state.FinWait1? then c.timer else 0,
       life := if c.state.Established? || c.state.FinWait1? then c.life else now + TIME_WAIT_MS)
  }

  function TextInput(c: Conn, seg: Segment, now: nat): Out {
    var text := AcceptText(c, seg);
    if TakesFin(text.conn, seg) then Out(AcceptFin(text.conn, now), text.sent) else text
  }

  predicate Acceptable(c: Conn, seg: Segment) {
    var window := BUFFER_SIZE - |c.rcv.rx|;
    var len := SegmentLength(seg);
    if len == 0 then
      if window == 0 then SeqEq(seg.seqNo, c.rcv.nxt) else InWindow(c, window, seg.seqNo)
    else if window == 0 then |seg.data| == 0 && SeqEq(seg.seqNo, c.rcv.nxt)
    else InWindow(c, window, seg.seqNo) || InWindow(c, window, seg.seqNo + len - 1)
  }

  function WindowUpdate(c: Conn, seg: Segment): Conn {
    var newer := SeqLe(c.snd.una, seg.ackNo)
                 && (SeqLt(c.snd.wl1, seg.seqNo) || (SeqEq(c.snd.wl1, seg.seqNo) && SeqLe(c.snd.wl2, seg.ackNo)));
    c.(snd := c.snd.(wnd := if newer then seg.window else c.snd.wnd,
                     wl1 := if newer then seg.seqNo else c.snd.wl1,
                     wl2 := if newer then seg.ackNo else c.snd.wl2),
       retries := if seg.window == 0 then 0 else c.retries)
  }

  // Input to a block that is neither closed nor listening.
  function SegmentInput(c: Conn, seg: Segment, env: Env): Out {
    if c.state.SynSent? then SynSentInput(c, seg, env)
    else if !Acceptable(c, seg) then
      Out(c.(ackNow := c.ackNow || !seg.rst,
             life := if c.state.TimeWait? && seg.fin then env.now + TIME_WAIT_MS else c.life), [])
    else if seg.rst then Out(ResetInput(c, seg), [])
    else if seg.syn then Out(c.(ackNow := true), [])
    else if !seg.ack then Out(c, [])
    else if c.state.SynReceived? then
      if !(SeqLt(c.snd.una, seg.ackNo) && SeqLe(seg.ackNo, c.snd.nxt)) then Out(c, ReplyReset(seg))
      else
        TextInput(Establish(SetWindow(c, seg), seg, env), seg, env.now)
    else if SeqLt(c.snd.max, seg.ackNo) then Out(c.(ackNow := true), [])
    else
      var acked := if SeqLt(c.snd.una, seg.ackNo) then AckAdvance(c, seg.ackNo, env) else c;
      if !acked.used || acked.state.Closed? then Out(acked, [])
      else TextInput(WindowUpdate(acked, seg), seg, env.now)
  }

  function FreshBlock(iss: int): Conn {
    Conn(true, Closed, false, false, false, false, false, false, 0, 0, MSS_DEFAULT,
         Sender(iss, iss, iss, iss, 0, 0, 0, 0, []), Receiver(0, 0, 0, []), RTO_INITIAL, 0, 0)
  }

  // The block a listener spawns for a SYN.
  function Child(seg: Segment, env: Env): Conn {
    FreshBlock(env.entropy).(
      state := SynReceived, embryo := true,
      rcv := Receiver(seg.seqNo, seg.seqNo + 1, seg.seqNo + 1, []),
      snd := FreshBlock(env.entropy).snd.(wnd := seg.window, wl1 := seg.seqNo),
      mss := if seg.mss == 0 then MSS_DEFAULT else ClampMss(seg.mss))
  }

  // The child block takes the place of the listener in this one-connection view.
  function ListenInput(c: Conn, seg: Segment, env: Env): Out {
    if seg.rst then Out(c, [])
    else if seg.ack then Out(c, ReplyReset(seg))
    else if !seg.syn then Out(c, [])
    else SendSyn(Child(seg, env), env.now)
  }

  function Input(c: Conn, seg: Segment, env: Env): Out {
    if !c.used || c.state.Closed? then Out(c, if seg.rst then [] else ReplyReset(seg))
    else if c.state.Listen? then ListenInput(c, seg, env)
    else if c.state.TimeWait? && seg.syn && !seg.ack && SeqLt(c.rcv.nxt, seg.seqNo) then
      Out(Finish(c), if seg.rst then [] else ReplyReset(seg))
    else
      var got := SegmentInput(c, seg, env);
      if got.conn.used then
        var o := Output(got.conn, env.now);
        Out(o.conn, got.sent + o.sent)
      else got
  }

  // ---------- calls ----------

  datatype Reply = Done(bytes: seq<Byte>) | Accepted(count: nat) | Error(errno: int) | Again | NotConnected | BrokenPipe
  datatype CallOut = CallOut(out: Out, reply: Reply)

  function Connect(entropy: nat, now: nat, reachable: bool): Out {
    var s := SendSyn(FreshBlock(entropy).(state := SynSent), now);
    if reachable then s else Out(s.conn.(state := Closed, timer := 0), [])
  }

  function Tick(c: Conn, now: nat): Out {
    if !c.used then Out(c, [])
    else if c.life != 0 && now >= c.life then Out(Finish(c), [])
    else if c.timer != 0 && now >= c.timer then Timeout(c, now)
    else Out(c, [])
  }

  predicate Unconnected(s: State) { s.Listen? || s.SynSent? || s.SynReceived? }

  function Read(c: Conn, cap: nat, now: nat): CallOut {
    if Unconnected(c.state) then CallOut(Out(c, []), NotConnected)
    else if c.error != 0 then CallOut(Out(c.(error := 0), []), Error(c.error))
    else if |c.rcv.rx| == 0 then
      CallOut(Out(c, []), if c.peerFin || c.readShut || c.state.Closed? then Done([]) else Again)
    else
      var count := Min(cap, |c.rcv.rx|);
      var offered := if SeqLt(c.rcv.nxt, c.rcv.adv) then Diff(c.rcv.adv, c.rcv.nxt) else 0;
      var taken := c.(rcv := c.rcv.(rx := c.rcv.rx[count..]));
      CallOut(if WindowPeek(taken) > offered then Output(taken.(ackNow := true), now) else Out(taken, []),
              Done(c.rcv.rx[..count]))
  }

  function Write(c: Conn, data: seq<Byte>, now: nat): CallOut {
    if Unconnected(c.state) then CallOut(Out(c, []), NotConnected)
    else if c.error != 0 then CallOut(Out(c.(error := 0), []), Error(c.error))
    else if c.finPending || (!c.state.Established? && !c.state.CloseWait?) then CallOut(Out(c, []), BrokenPipe)
    else if |c.snd.tx| >= BUFFER_SIZE then CallOut(Out(c, []), Again)
    else
      var count := Min(|data|, BUFFER_SIZE - |c.snd.tx|);
      CallOut(Output(c.(snd := c.snd.(tx := c.snd.tx + data[..count])), now), Accepted(count))
  }

  function Shutdown(c: Conn, readSide: bool, writeSide: bool, now: nat): CallOut {
    if Unconnected(c.state) || c.state.Closed? then CallOut(Out(c, []), NotConnected)
    else
      var r := if readSide then c.(readShut := true, rcv := c.rcv.(rx := [])) else c;
      CallOut(if writeSide then Output(r.(finPending := true), now) else Out(r, []), Accepted(0))
  }

  function Close(c: Conn, now: nat): Out {
    var o := c.(orphan := true);
    match c.state
    case Listen => Out(o.(used := false), [])
    case Closed => Out(o.(used := false), [])
    case SynSent => Out(o.(used := false), [])
    case SynReceived => Abort(o, 0)
    case _ =>
      if (c.state.Established? || c.state.CloseWait?) && |c.rcv.rx| > 0 then Abort(o, 0)
      else Output(o.(rcv := c.rcv.(rx := []), finPending := true,
                     life := if c.state.TimeWait? then c.life else now + ORPHAN_LIFE_MS), now)
  }

  function Accept(c: Conn): Conn { c.(embryo := false) }
}
