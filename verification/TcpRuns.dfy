/**
 Theorems about every run of two endpoints over a network that loses, duplicates and
 reorders.  The one assumption on the network is the one TCP itself makes: a segment is
 not delivered once it is half the sequence space old (`Fresh`).
 */
module TcpRuns {
  import opened TcpSpec
  import opened TcpInvariant
  import opened TcpWrap
  import opened TcpSystem

  datatype Action =
    | Open(entropy: nat, at: nat, reachable: bool)
    | OpenListen(entropy: nat)
    | Deliver(seg: Segment, env: Env)
    | Timer(at: nat)
    | DoRead(cap: nat, at: nat)
    | DoWrite(data: seq<Byte>, at: nat)
    | DoShutdown(readSide: bool, writeSide: bool, at: nat)
    | DoClose(at: nat)
    | DoAccept

  datatype Effect = Effect(side: Side, sent: seq<Segment>)

  function Act(x: Side, a: Action): Effect {
    match a
    case Open(entropy, at, reachable) =>
      if x.started then Effect(x, [])
      else var o := Connect(entropy, at, reachable); Effect(Side(o.conn, true, false, [], []), o.sent)
    case OpenListen(entropy) =>
      if x.started then Effect(x, [])
      else Effect(Side(FreshBlock(entropy).(state := Listen), true, false, [], []), [])
    case Deliver(seg, env) => var o := Input(x.conn, seg, env); Effect(After(x, o.conn), o.sent)
    case Timer(at) => var o := Tick(x.conn, at); Effect(x.(conn := o.conn), o.sent)
    case DoRead(cap, at) => var r := Read(x.conn, cap, at); Effect(AfterRead(x, r), r.out.sent)
    case DoWrite(data, at) => var r := Write(x.conn, data, at); Effect(AfterWrite(x, data, r), r.out.sent)
    case DoShutdown(rd, wr, at) => var r := Shutdown(x.conn, rd, wr, at); Effect(x.(conn := r.out.conn), r.out.sent)
    case DoClose(at) => var o := Close(x.conn, at); Effect(x.(conn := o.conn), o.sent)
    case DoAccept => Effect(x.(conn := Accept(x.conn)), [])
  }

  // Two endpoints and what each has ever put on the wire.
  datatype Pair = Pair(a: Side, na: Net, b: Side, nb: Net)

  datatype Move = Move(left: bool, action: Action)

  function Idle(): Side { Side(FreshBlock(0).(used := false), false, false, [], []) }

  function Start(): Pair { Pair(Idle(), {}, Idle(), {}) }

  ghost predicate Allowed(x: Side, ny: Net, act: Action) {
    act.Deliver? ==> act.seg in ny && Fresh(x.conn, act.seg)
  }

  ghost predicate Enabled(p: Pair, m: Move) {
    if m.left then Allowed(p.a, p.nb, m.action) else Allowed(p.b, p.na, m.action)
  }

  ghost function Next(p: Pair, m: Move): Pair {
    if m.left then var e := Act(p.a, m.action); Pair(e.side, p.na + Elements(e.sent), p.b, p.nb)
    else var e := Act(p.b, m.action); Pair(p.a, p.na, e.side, p.nb + Elements(e.sent))
  }

  ghost function Reached(moves: seq<Move>): Pair {
    if moves == [] then Start() else Next(Reached(moves[..|moves| - 1]), moves[|moves| - 1])
  }

  ghost predicate Legal(moves: seq<Move>) {
    forall i :: 0 <= i < |moves| ==> Enabled(Reached(moves[..i]), moves[i])
  }

  // ---------- the invariant of every run ----------

  ghost predicate PairInv(p: Pair) {
    Good(p.a, p.na, p.b, p.nb) && Inv(p.a.conn) && Inv(p.b.conn)
  }

  lemma Symmetric(x: Side, nx: Net, y: Side, ny: Net)
    requires Good(x, nx, y, ny)
    ensures Good(y, ny, x, nx)
  {
  }

  // Opening an endpoint for the first time.
  lemma OpenGood(x: Side, nx: Net, y: Side, ny: Net, x': Side, sent: seq<Segment>)
    requires Good(x, nx, y, ny) && !x.started && x'.started && !x'.synced && x'.written == [] && x'.read == []
    requires Core(x'.conn) && (x'.conn.state.SynSent? || x'.conn.state.Listen? || x'.conn.state.Closed?)
    requires x'.conn.rcv.rx == [] && !x'.conn.peerFin && x'.conn.snd.max <= Base(x')
    requires forall seg <- sent :: x'.conn.state.SynSent? && seg.syn && !seg.ack && !seg.fin && seg.data == []
                                   && seg.seqNo == x'.conn.snd.iss && seg.seqNo + 1 <= x'.conn.snd.max
    ensures Good(x', nx + Elements(sent), y, ny)
  {
    ListenerOnlyResets(x, nx);
    assert SenderOk(x') && Receiving(x', y) && Receiving(y, x');
    assert forall s <- nx + Elements(sent) | !s.rst :: Genuine(x', s);
  }

  lemma ConnectGood(x: Side, nx: Net, y: Side, ny: Net, entropy: nat, at: nat, reachable: bool)
    requires Good(x, nx, y, ny) && !x.started
    ensures var o := Connect(entropy, at, reachable);
            Good(Side(o.conn, true, false, [], []), nx + Elements(o.sent), y, ny)
  {
    var block := FreshBlock(entropy).(state := SynSent);
    SendSynKeeps(block, at);
    ConnectKeeps(entropy, at, reachable);
    hide SendSyn, Good;
    var o := Connect(entropy, at, reachable);
    OpenGood(x, nx, y, ny, Side(o.conn, true, false, [], []), o.sent);
  }

  lemma ListenStartGood(x: Side, nx: Net, y: Side, ny: Net, entropy: nat)
    requires Good(x, nx, y, ny) && !x.started
    ensures Good(Side(FreshBlock(entropy).(state := Listen), true, false, [], []), nx, y, ny)
  {
    OpenGood(x, nx, y, ny, Side(FreshBlock(entropy).(state := Listen), true, false, [], []), []);
    assert nx + Elements([]) == nx;
  }

  lemma AcceptGood(x: Side, nx: Net, y: Side, ny: Net)
    requires Good(x, nx, y, ny)
    ensures Good(x.(conn := Accept(x.conn)), nx, y, ny)
  {
    BookkeptCore(x.conn);
    BookkeepingKeeps(x, nx, y, ny, Accept(x.conn));
  }

  lemma ActGood(x: Side, nx: Net, y: Side, ny: Net, a: Action)
    requires Good(x, nx, y, ny) && Inv(x.conn) && Allowed(x, ny, a)
    ensures var e := Act(x, a);
            Good(e.side, nx + Elements(e.sent), y, ny)
  {
    assert nx + Elements([]) == nx;
    hide Good, Elements, Connect, Input, Tick, Read, Write, Shutdown, Close, After, AfterRead, AfterWrite, FreshBlock,
      Accept, Inv, Fresh;
    match a
    case Open(entropy, at, reachable) => if !x.started { ConnectGood(x, nx, y, ny, entropy, at, reachable); }
    case OpenListen(entropy) => if !x.started { ListenStartGood(x, nx, y, ny, entropy); }
    case Deliver(seg, env) => InputGood(x, nx, y, ny, seg, env);
    case Timer(at) => TickGood(x, nx, y, ny, at);
    case DoRead(cap, at) => ReadGood(x, nx, y, ny, cap, at);
    case DoWrite(data, at) => WriteGood(x, nx, y, ny, data, at);
    case DoShutdown(rd, wr, at) => ShutdownGood(x, nx, y, ny, rd, wr, at);
    case DoClose(at) => CloseGood(x, nx, y, ny, at);
    case DoAccept => AcceptGood(x, nx, y, ny);
  }

  // In a good pair, a genuine segment is near the block it is delivered to.
  lemma DeliveredNear(x: Side, nx: Net, y: Side, ny: Net, seg: Segment)
    requires Good(x, nx, y, ny) && seg in ny && Fresh(x.conn, seg) && !x.conn.state.Closed? && !x.conn.state.Listen?
    ensures !seg.rst ==> Near(x.conn, seg)
  {
    if !seg.rst {
      assert Genuine(y, seg);
      assert seg.ack ==> seg.ackNo <= y.conn.rcv.nxt;
    }
  }

  lemma ActInv(x: Side, nx: Net, y: Side, ny: Net, a: Action)
    requires Good(x, nx, y, ny) && Inv(x.conn) && Allowed(x, ny, a)
    ensures Inv(Act(x, a).side.conn)
  {
    hide Good, Connect, Input, Tick, Read, Write, Shutdown, Close, Inv, Fresh;
    match a
    case Open(entropy, at, reachable) => ConnectKeeps(entropy, at, reachable);
    case OpenListen(entropy) => ListenStarts(entropy);
    case Deliver(seg, env) => DeliverInv(x, nx, y, ny, seg, env);
    case Timer(at) => TickKeeps(x.conn, at);
    case DoRead(cap, at) => ReadKeeps(x.conn, cap, at);
    case DoWrite(data, at) => WriteKeeps(x.conn, data, at);
    case DoShutdown(rd, wr, at) => ShutdownKeeps(x.conn, rd, wr, at);
    case DoClose(at) => CloseKeeps(x.conn, at);
    case DoAccept => AcceptInv(x.conn);
  }

  lemma AcceptInv(c: Conn)
    requires Inv(c)
    ensures Inv(Accept(c))
  {
  }

  lemma DeliverInv(x: Side, nx: Net, y: Side, ny: Net, seg: Segment, env: Env)
    requires Good(x, nx, y, ny) && Inv(x.conn) && seg in ny && Fresh(x.conn, seg)
    ensures Inv(Input(x.conn, seg, env).conn)
  {
    if x.conn.state.Closed? || x.conn.state.Listen? || !x.conn.used {
      UnansweredKeeps(x.conn, seg, env);
    } else {
      DeliveredNear(x, nx, y, ny, seg);
      hide Good, Input, Inv, Near;
      InputKeeps(x.conn, seg, env);
    }
  }

  lemma MoveKeeps(p: Pair, m: Move)
    requires PairInv(p) && Enabled(p, m)
    ensures PairInv(Next(p, m))
  {
    hide Good, Inv, Act, Allowed;
    if m.left {
      ActGood(p.a, p.na, p.b, p.nb, m.action);
      ActInv(p.a, p.na, p.b, p.nb, m.action);
    } else {
      Symmetric(p.a, p.na, p.b, p.nb);
      ActGood(p.b, p.nb, p.a, p.na, m.action);
      ActInv(p.b, p.nb, p.a, p.na, m.action);
      var e := Act(p.b, m.action);
      Symmetric(e.side, p.nb + Elements(e.sent), p.a, p.na);
    }
  }

  lemma LegalUpTo(moves: seq<Move>, n: nat)
    requires Legal(moves) && n <= |moves|
    ensures Legal(moves[..n])
  {
    forall i | 0 <= i < n ensures Enabled(Reached(moves[..n][..i]), moves[..n][i]) {
      assert moves[..n][..i] == moves[..i];
    }
  }

  lemma {:induction false} EveryRunKeeps(moves: seq<Move>)
    requires Legal(moves)
    ensures PairInv(Reached(moves))
  {
    if moves == [] {
      assert Good(Idle(), {}, Idle(), {});
    } else {
      var last := |moves| - 1;
      LegalUpTo(moves, last);
      EveryRunKeeps(moves[..last]);
      MoveKeeps(Reached(moves[..last]), moves[last]);
    }
  }

  // ---------- what it means ----------

  /** In every run, what each side has read is a prefix of what the other side has written. */
  lemma ReadsArePrefixes(moves: seq<Move>)
    requires Legal(moves)
    ensures Reached(moves).b.read <= Reached(moves).a.written
    ensures Reached(moves).a.read <= Reached(moves).b.written
  {
    EveryRunKeeps(moves);
    var p := Reached(moves);
    assert p.b.read <= p.b.read + p.b.conn.rcv.rx;
    assert p.a.read <= p.a.read + p.a.conn.rcv.rx;
  }

  function One(p: Pair, left: bool): Side { if left then p.a else p.b }

  function SentBy(p: Pair, left: bool): Net { if left then p.na else p.nb }

  // The invariant seen from either end.
  lemma EitherEnd(p: Pair, left: bool)
    requires PairInv(p)
    ensures Good(One(p, left), SentBy(p, left), One(p, !left), SentBy(p, !left)) && Inv(One(p, left).conn)
  {
    hide Good, Inv;
    if !left { Symmetric(p.a, p.na, p.b, p.nb); }
  }

  /**
   In every run and for either direction, a side that has consumed the peer's FIN has accepted or
   discarded every byte the peer will ever write: the peer's stream is closed, and unless the
   reader shut down or dropped its end, read and unread bytes together are the whole stream.
   */
  lemma FinAfterEveryByte(moves: seq<Move>, left: bool)
    requires Legal(moves)
    ensures var x, y := One(Reached(moves), left), One(Reached(moves), !left);
            y.conn.peerFin ==>
              && x.conn.finPending && y.conn.rcv.nxt == Base(x) + |x.written| + 1
              && (Heard(y.conn.state) && !y.conn.readShut && !y.conn.orphan ==> y.read + y.conn.rcv.rx == x.written)
    ensures forall m: Move :: m.left == left && m.action.DoWrite? && One(Reached(moves), !left).conn.peerFin ==>
              One(Next(Reached(moves), m), left).written == One(Reached(moves), left).written
  {
    EveryRunKeeps(moves);
    var p := Reached(moves);
    EitherEnd(p, left);
    var x := One(p, left);
    assert Receiving(x, One(p, !left));
    forall m: Move | m.left == left && m.action.DoWrite? && One(p, !left).conn.peerFin
        ensures One(Next(p, m), left).written == x.written {
      hide Output, Good, Inv;
      assert Write(x.conn, m.action.data, m.action.at).reply.Accepted? ==> !x.conn.finPending;
    }
  }

  /**
   In every run and for either direction, no accepted byte is lost: it is still in the writer's
   transmit ring, or the other side has taken it.
   */
  lemma NoByteLost(moves: seq<Move>, left: bool)
    requires Legal(moves)
    ensures var x, y := One(Reached(moves), left), One(Reached(moves), !left);
            Synchronized(x.conn.state) ==>
              && |x.conn.snd.tx| <= |x.written|
              && x.written == x.written[..|x.written| - |x.conn.snd.tx|] + x.conn.snd.tx
              && y.synced && |x.written| - |x.conn.snd.tx| <= y.conn.rcv.nxt - Base(x)
  {
    EveryRunKeeps(moves);
    var p := Reached(moves);
    EitherEnd(p, left);
    hide Good, Inv, Reached, Legal;
    if Synchronized(One(p, left).conn.state) {
      TailIsQueued(One(p, left), SentBy(p, left), One(p, !left), SentBy(p, !left));
    }
  }

  lemma TailIsQueued(x: Side, nx: Net, y: Side, ny: Net)
    requires Good(x, nx, y, ny) && Synchronized(x.conn.state)
    ensures |x.conn.snd.tx| <= |x.written| && x.written == x.written[..|x.written| - |x.conn.snd.tx|] + x.conn.snd.tx
    ensures y.synced && |x.written| - |x.conn.snd.tx| <= y.conn.rcv.nxt - Base(x)
  {
    StreamSizes(x);
    assert SenderOk(x) && Acking(x, y, ny);
    hide Core, Good;
    if FinDone(x.conn.state) {
      assert x.written == x.written[..|x.written|] + [];
    } else {
      SplitAt(x.written, x.conn.snd.una - Base(x), x.conn.snd.tx);
    }
  }

  lemma SplitAt(s: seq<Byte>, k: nat, tail: seq<Byte>)
    requires k <= |s| && tail == s[k..]
    ensures |s| - |tail| == k && s == s[..k] + tail
  {
  }

  /** In every run, an end-of-file from an open, unshut side means the whole stream was read. */
  lemma EndOfFileIsComplete(moves: seq<Move>, left: bool, cap: nat, at: nat)
    requires Legal(moves) && cap > 0
    ensures var x, y := One(Reached(moves), left), One(Reached(moves), !left);
            Read(y.conn, cap, at).reply == Done([]) && Heard(y.conn.state) && !y.conn.readShut && !y.conn.orphan ==>
              y.read == x.written
  {
    FinAfterEveryByte(moves, left);
    var y := One(Reached(moves), !left);
    assert y.read + [] == y.read;
  }

  // A segment at the left edge of the window is acceptable, unless text meets a closed window.
  lemma InPlace(c: Conn, seg: Segment)
    requires Core(c) && Heard(c.state) && seg.seqNo == c.rcv.nxt && (|c.rcv.rx| < BUFFER_SIZE || |seg.data| == 0)
    ensures Acceptable(c, seg)
  {
    hide SeqLt, SeqLe, SeqEq;
    SeqExact(c.rcv.nxt, seg.seqNo);
    SeqExact(seg.seqNo, c.rcv.nxt + BUFFER_SIZE - |c.rcv.rx|);
  }
}
