/**
 The imperative parts of kernel/net/tcp.c: the byte rings that hold queued and received data,
 and the loop that cuts the transmit ring into segments.
 */
module TcpBuffers {
  import opened TcpSpec

  // Array index of the i-th byte of a ring.
  function Cell(head: nat, i: nat): (k: nat)
    ensures k < BUFFER_SIZE
  {
    (head + i) % BUFFER_SIZE
  }

  // The bytes a ring holds, oldest first.
  ghost function Ring(cells: seq<Byte>, head: nat, len: nat): (s: seq<Byte>)
    requires |cells| == BUFFER_SIZE
    ensures |s| == len && forall i :: 0 <= i < len ==> s[i] == cells[Cell(head, i)]
  {
    seq(len, i requires 0 <= i < len => cells[Cell(head, i)])
  }

  lemma CellShift(head: nat, n: nat, i: nat)
    ensures Cell(Cell(head, n), i) == Cell(head, n + i)
  {
  }

  lemma CellRun(head: nat, at: nat, i: nat)
    requires Cell(head, at) + i < BUFFER_SIZE
    ensures Cell(head, at + i) == Cell(head, at) + i
  {
  }

  // Advancing the head drops the oldest bytes.
  lemma RingDrop(cells: seq<Byte>, head: nat, len: nat, n: nat)
    requires |cells| == BUFFER_SIZE && n <= len
    ensures Ring(cells, Cell(head, n), len - n) == Ring(cells, head, len)[n..]
  {
    hide Cell;
    forall i | 0 <= i < len - n
      ensures Ring(cells, Cell(head, n), len - n)[i] == Ring(cells, head, len)[n..][i]
    {
      CellShift(head, n, i);
    }
  }

  // A stretch that does not cross the end of the array is contiguous.
  lemma RingSlice(cells: seq<Byte>, head: nat, len: nat, at: nat, n: nat)
    requires |cells| == BUFFER_SIZE && at + n <= len && Cell(head, at) + n <= BUFFER_SIZE
    ensures cells[Cell(head, at)..Cell(head, at) + n] == Ring(cells, head, len)[at..at + n]
  {
    hide Cell;
    var left, right := cells[Cell(head, at)..Cell(head, at) + n], Ring(cells, head, len)[at..at + n];
    forall i | 0 <= i < n ensures left[i] == right[i] {
      CellRun(head, at, i);
    }
  }

  // Cells written behind the tail hold the new bytes; the others still hold the old ones.
  function Pasted(s: seq<Byte>, at: nat, data: seq<Byte>): (r: seq<Byte>)
    requires at + |data| <= |s|
    ensures |r| == |s| && forall k :: 0 <= k < |s| ==> r[k] == if at <= k < at + |data| then data[k - at] else s[k]
  {
    s[..at] + data + s[at + |data|..]
  }

  // The two copies put the data behind what the ring held.
  lemma TwoCopies(was: seq<Byte>, now: seq<Byte>, head: nat, len: nat, first: nat, data: seq<Byte>)
    requires |was| == BUFFER_SIZE && head < BUFFER_SIZE && len + |data| <= BUFFER_SIZE
             && first == Min(|data|, BUFFER_SIZE - Cell(head, len))
    requires now == Pasted(Pasted(was, Cell(head, len), data[..first]), 0, data[first..])
    ensures Ring(now, head, len + |data|) == Ring(was, head, len) + data
  {
    hide Cell, Ring;
    forall i | 0 <= i < |data| ensures now[Cell(head, len + i)] == data[i] {
      CellSplit(head, len, first, i);
      if i < first { Clear(head, len, first, |data|, i); }
    }
    forall i | 0 <= i < len ensures now[Cell(head, i)] == was[Cell(head, i)] { Untouched(head, len, first, |data|, i); }
    RingAppend(was, now, head, len, data);
  }

  // The wrapped part ends before the first copy begins.
  lemma Clear(head: nat, len: nat, first: nat, n: nat, i: nat)
    requires head < BUFFER_SIZE && len + n <= BUFFER_SIZE && first == Min(n, BUFFER_SIZE - Cell(head, len)) && i < first
    ensures Cell(head, len) + i >= n - first
  {
  }

  lemma RingAppend(before: seq<Byte>, after: seq<Byte>, head: nat, len: nat, data: seq<Byte>)
    requires |before| == |after| == BUFFER_SIZE && len + |data| <= BUFFER_SIZE
    requires forall i :: 0 <= i < len ==> after[Cell(head, i)] == before[Cell(head, i)]
    requires forall i :: 0 <= i < |data| ==> after[Cell(head, len + i)] == data[i]
    ensures Ring(after, head, len + |data|) == Ring(before, head, len) + data
  {
    hide Cell;
    var left, right := Ring(after, head, len + |data|), Ring(before, head, len) + data;
    forall i | 0 <= i < len + |data| ensures left[i] == right[i] {
      if i >= len { assert after[Cell(head, len + (i - len))] == data[i - len]; }
    }
  }

  // Where the two copies of a wrapped store or fetch land.
  lemma CellSplit(head: nat, at: nat, first: nat, i: nat)
    requires first <= BUFFER_SIZE - Cell(head, at) && i < BUFFER_SIZE
    ensures i < first ==> Cell(head, at + i) == Cell(head, at) + i
    ensures first == BUFFER_SIZE - Cell(head, at) && i >= first ==> Cell(head, at + i) == i - first
  {
  }

  class ByteRing {
    const cells: array<Byte>
    var head: nat
    var len: nat

    ghost predicate Valid()
      reads this, cells
    {
      cells.Length == BUFFER_SIZE && head < BUFFER_SIZE && len <= BUFFER_SIZE
    }

    ghost function Contents(): seq<Byte>
      reads this, cells
      requires Valid()
    {
      Ring(cells[..], head, len)
    }

    constructor ()
      ensures Valid() && Contents() == [] && head == 0 && fresh(cells)
    {
      cells := new Byte[BUFFER_SIZE];
      head := 0;
      len := 0;
    }

    // Appends behind the tail, in two copies when the ring wraps.
    method Put(data: seq<Byte>)
      requires Valid() && len + |data| <= BUFFER_SIZE
      modifies this`len, cells
      ensures Valid() && Contents() == old(Contents()) + data && len == old(len) + |data|
    {
      hide Cell, Ring, Pasted;
      var tail := Cell(head, len);
      var first := Min(|data|, BUFFER_SIZE - tail);
      ghost var was := cells[..];
      CopyIn(tail, data[..first]);
      CopyIn(0, data[first..]);
      TwoCopies(was, cells[..], head, len, first, data);
      len := len + |data|;
    }

    // One memcpy into the ring.
    method CopyIn(at: nat, data: seq<Byte>)
      requires Valid() && at + |data| <= BUFFER_SIZE
      modifies cells
      ensures Valid() && cells[..] == Pasted(old(cells[..]), at, data)
    {
      ghost var was := cells[..];
      for i := 0 to |data|
        invariant cells.Length == |was| && cells[..] == Pasted(was, at, data[..i])
      {
        cells[at + i] := data[i];
        assert cells[..] == Pasted(was, at, data[..i])[at + i := data[i]];
        assert data[..i + 1] == data[..i] + [data[i]];
      }
      assert data[..|data|] == data;
    }

    // Copies out and removes the oldest bytes, in two copies when the ring wraps.
    method Take(count: nat) returns (out: seq<Byte>)
      requires Valid() && count <= len
      modifies this`head, this`len
      ensures Valid() && out == old(Contents())[..count] && Contents() == old(Contents())[count..]
    {
      hide Cell;
      var first := Min(count, BUFFER_SIZE - head);
      HeadCell(head);
      out := cells[head..head + first] + cells[..count - first];
      ghost var want := Contents()[..count];
      forall i | 0 <= i < count ensures out[i] == want[i] {
        CellSplit(head, 0, first, i);
      }
      Drop(count);
    }

    // Removes the oldest bytes, as an acknowledgement does.
    method Drop(count: nat)
      requires Valid() && count <= len
      modifies this`head, this`len
      ensures Valid() && Contents() == old(Contents())[count..] && head == Cell(old(head), count)
    {
      RingDrop(cells[..], head, len, count);
      head := (head + count) % BUFFER_SIZE;
      len := len - count;
    }

    // The contiguous stretch at an offset into the queued bytes, as tcp_output sends it.
    method Slice(at: nat, count: nat) returns (out: seq<Byte>)
      requires Valid() && at + count <= len && count <= BUFFER_SIZE - Cell(head, at)
      ensures out == Contents()[at..at + count]
    {
      var offset := (head + at) % BUFFER_SIZE;
      out := cells[offset..offset + count];
      RingSlice(cells[..], head, len, at, count);
      assert cells[..][offset..offset + count] == cells[offset..offset + count];
    }
  }

  lemma HeadCell(head: nat)
    requires head < BUFFER_SIZE
    ensures Cell(head, 0) == head
  {
  }

  // A queued byte is not in the stretch that Put overwrites.
  lemma Untouched(head: nat, len: nat, first: nat, n: nat, i: nat)
    requires head < BUFFER_SIZE && i < len && len + n <= BUFFER_SIZE
    requires first == Min(n, BUFFER_SIZE - Cell(head, len))
    ensures Cell(head, i) >= n - first && !(Cell(head, len) <= Cell(head, i) < Cell(head, len) + first)
  {
  }

  // ---------- the transmit loop ----------

  /** The loop of tcp_output computes SendData, reading the text from the transmit ring. */
  method TransmitLoop(c: Conn, ring: ByteRing) returns (conn: Conn, sent: seq<Segment>)
    requires ring.Valid() && c.snd.tx == ring.Contents() && c.snd.txHead == ring.head
    ensures Out(conn, sent) == SendData(c)
  {
    conn, sent := c, [];
    hide SendData, ChunkLength, Unsent, ByteRing.Contents, ByteRing.Valid;
    while ChunkLength(conn) > 0
      invariant conn.snd.tx == c.snd.tx && conn.snd.txHead == c.snd.txHead
      invariant SendData(c) == Out(SendData(conn).conn, sent + SendData(conn).sent)
      decreases Unsent(conn)
    {
      var next, more := TransmitOne(conn, ring);
      assert sent + (more + SendData(next).sent) == (sent + more) + SendData(next).sent;
      conn, sent := next, sent + more;
    }
    LoopEnds(conn);
    assert sent + [] == sent;
  }

  // One round of it.
  method TransmitOne(c: Conn, ring: ByteRing) returns (next: Conn, sent: seq<Segment>)
    requires ring.Valid() && c.snd.tx == ring.Contents() && c.snd.txHead == ring.head && ChunkLength(c) > 0
    ensures SendData(c) == Out(SendData(next).conn, sent + SendData(next).sent) && Unsent(next) < Unsent(c)
    ensures next.snd.tx == c.snd.tx && next.snd.txHead == c.snd.txHead
  {
    hide Diff, SeqLt, WindowPeek, ChunkLength, SendChunk, Cell, Ring, SendData, Emit, NoteSent, SetNxt, Unsent;
    var inFlight, len := Diff(c.snd.nxt, c.snd.una), ChunkLength(c);
    RingSize(ring);
    ChunkFits(c);
    var text := ring.Slice(inFlight, len);
    var e := Emit(c, c.snd.nxt, false, true, false, text);
    ChunkShrinks(c);
    ChunkUnfolds(c, text);
    next, sent := NoteSent(SetNxt(e.conn, c.snd.nxt + len)), e.sent;
  }

  lemma RingSize(ring: ByteRing)
    requires ring.Valid()
    ensures |ring.Contents()| == ring.len <= BUFFER_SIZE
  {
  }

  lemma LoopEnds(c: Conn)
    requires ChunkLength(c) == 0
    ensures SendData(c) == Out(c, [])
  {
    hide ChunkLength;
  }

  lemma ChunkFits(c: Conn)
    requires ChunkLength(c) > 0
    ensures ChunkLength(c) <= BUFFER_SIZE - Cell(c.snd.txHead, Diff(c.snd.nxt, c.snd.una))
    ensures Diff(c.snd.nxt, c.snd.una) + ChunkLength(c) <= |c.snd.tx|
  {
    hide Diff;
  }

  lemma ChunkUnfolds(c: Conn, text: seq<Byte>)
    requires ChunkLength(c) > 0 && |c.snd.tx| <= BUFFER_SIZE
    requires text == c.snd.tx[Diff(c.snd.nxt, c.snd.una)..Diff(c.snd.nxt, c.snd.una) + ChunkLength(c)]
    ensures var e := Emit(c, c.snd.nxt, false, true, false, text);
            var next := NoteSent(SetNxt(e.conn, c.snd.nxt + ChunkLength(c)));
            && SendChunk(c) == Out(next, e.sent)
            && SendData(c) == Out(SendData(next).conn, e.sent + SendData(next).sent)
            && next.snd.tx == c.snd.tx && next.snd.txHead == c.snd.txHead && next.snd.una == c.snd.una
  {
    hide Diff, SeqLt, WindowPeek, ChunkLength;
  }
}
