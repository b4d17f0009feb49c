/**
 Reading, writing and truncating regular files: each operation of kernel/fs/ext2.c acts on the
 file's contents as a plain sequence of bytes.
 */
module Ext2Content {
  import opened Ext2Tree
  import opened Ext2Alloc
  import opened Ext2Volume
  import opened Ext2Inode
  import opened Ext2File

  // ---------- files as byte sequences ----------

  // Cut to n bytes, or extended with zeros.
  function Resized(c: seq<Byte>, n: nat): (r: seq<Byte>)
    ensures |r| == n
  {
    if n <= |c| then c[..n] else c + Zeros(n - |c|)
  }

  // data written over c at an offset; a gap before it fills with zeros.
  function Splice(c: seq<Byte>, offset: nat, data: seq<Byte>): seq<Byte> {
    if data == [] then c
    else Resized(c, offset) + data + (if offset + |data| < |c| then c[offset + |data|..] else [])
  }

  lemma SpliceAt(c: seq<Byte>, offset: nat, data: seq<Byte>, i: nat)
    requires data != []
    ensures |Splice(c, offset, data)| == if offset + |data| > |c| then offset + |data| else |c|
    ensures i < |Splice(c, offset, data)| ==>
              Splice(c, offset, data)[i] ==
                  if offset <= i < offset + |data| then data[i - offset] else if i < |c| then c[i] else 0
  {
  }

  // ---------- writing ----------

  // Every position holds its old byte, or the byte of data written over it.
  ghost predicate Spliced(d0: Disk, ts0: seq<Tree>, d1: Disk, ts1: seq<Tree>, p: nat, offset: nat, data: seq<Byte>)
    requires p > 0 && |ts0| == |ts1| == SLOTS
  {
    forall i: nat {:trigger ByteIn(d1, ts1, p, i)} ::
      ByteIn(d1, ts1, p, i) == if offset <= i < offset + |data| then data[i - offset] else ByteIn(d0, ts0, p, i)
  }

  lemma SplicedStart(d: Disk, ts: seq<Tree>, p: nat, offset: nat)
    requires p > 0 && |ts| == SLOTS
    ensures Spliced(d, ts, d, ts, p, offset, [])
  {
  }

  lemma SplicedMore(d0: Disk, ts0: seq<Tree>, d1: Disk, ts1: seq<Tree>, d2: Disk, ts2: seq<Tree>, p: nat,
                    offset: nat, data: seq<Byte>, from: nat, upto: nat)
    requires p > 0 && |ts0| == |ts1| == |ts2| == SLOTS && from <= upto <= |data|
    requires Off(p, offset + from) + (upto - from) <= BlockSize(p)
    requires Spliced(d0, ts0, d1, ts1, p, offset, data[..from])
    requires Patched(d1, ts1, d2, ts2, p, Lb(p, offset + from), Off(p, offset + from), data[from..upto])
    ensures Spliced(d0, ts0, d2, ts2, p, offset, data[..upto])
  {
    hide Lb, Off, ByteIn;
    forall i: nat
      ensures ByteIn(d2, ts2, p, i) ==
              if offset <= i < offset + upto then data[..upto][i - offset] else ByteIn(d0, ts0, p, i)
    {
      SameBlock(p, offset + from, upto - from, i);
      assert ByteIn(d1, ts1, p, i) == if offset <= i < offset + from then data[i - offset] else ByteIn(d0, ts0, p, i);
    }
  }

  // Bytes past a size are zero.
  ghost predicate ZeroPast(d: Disk, ts: seq<Tree>, p: nat, size: nat)
    requires p > 0 && |ts| == SLOTS
  {
    forall i: nat :: i >= size ==> ByteIn(d, ts, p, i) == 0
  }

  lemma SplicedContent(d0: Disk, ts0: seq<Tree>, d1: Disk, ts1: seq<Tree>, p: nat, offset: nat, data: seq<Byte>,
      size: nat, size1: nat)
    requires p > 0 && |ts0| == |ts1| == SLOTS && Spliced(d0, ts0, d1, ts1, p, offset, data)
             && ZeroPast(d0, ts0, p, size)
    requires size1 == if data != [] && offset + |data| > size then offset + |data| else size
    ensures ZeroPast(d1, ts1, p, size1)
    ensures BytesIn(d1, ts1, p, size1) == Splice(BytesIn(d0, ts0, p, size), offset, data)
  {
    hide ByteIn, Splice;
    var c, now := BytesIn(d0, ts0, p, size), BytesIn(d1, ts1, p, size1);
    if data == [] {
      EmptySplice(c, offset);
      assert now == c;
    } else {
      SpliceAt(c, offset, data, 0);
      forall i | 0 <= i < size1 ensures now[i] == Splice(c, offset, data)[i] {
        SpliceAt(c, offset, data, i);
      }
      assert now == Splice(c, offset, data);
    }
  }

  lemma EmptySplice(c: seq<Byte>, offset: nat)
    ensures Splice(c, offset, []) == c
  {
  }

  lemma FileFacts(v: Volume, ino: Inode)
    requires FileOk(v, ino)
    ensures v.Valid() && v.alloc.Shape() && Ok(v, ino) && |ino.slots| == SLOTS && v.p >= 256 && ino.size < 0x1_0000_0000
    ensures |Trees(v, ino)| == SLOTS && ZeroPast(v.disk, Trees(v, ino), v.p, ino.size)
    ensures Content(v, ino) == BytesIn(v.disk, Trees(v, ino), v.p, ino.size)
  {
    hide ByteIn;
    assert forall i: nat :: ByteAt(v, ino, i) == ByteIn(v.disk, Trees(v, ino), v.p, i);
  }

  lemma FileFrom(v: Volume, ino: Inode)
    requires v.Valid() && Ok(v, ino) && v.p >= 256 && |ino.slots| == SLOTS && ino.size < 0x1_0000_0000
    requires |Trees(v, ino)| == SLOTS && ZeroPast(v.disk, Trees(v, ino), v.p, ino.size)
    ensures FileOk(v, ino)
    ensures Content(v, ino) == BytesIn(v.disk, Trees(v, ino), v.p, ino.size)
  {
    hide ByteIn;
    assert forall i: nat :: ByteAt(v, ino, i) == ByteIn(v.disk, Trees(v, ino), v.p, i);
  }

  // Changing i_size leaves the block map alone.
  lemma SizeOnly(v: Volume, ino: Inode, out: Inode)
    requires v.alloc.Shape() && Ok(v, ino) && out.slots == ino.slots && out.sectors == ino.sectors
    ensures Ok(v, out) && |out.slots| == SLOTS && Trees(v, out) == Trees(v, ino)
  {
  }

  lemma LargestFile()
    ensures FILE_SIZE_MAX < 0x1_0000_0000
  {
  }

  datatype Status = Done | Full | TooBig

  /**
   ext2_write_at: the bytes reported as written, and only those, are spliced into the file.  A
   short write happens only when the volume cannot supply the blocks for the next byte.
   */
  method WriteAt(v: Volume, ino: Inode, goal: nat, offset: nat, data: seq<Byte>)
      returns (status: Status, out: Inode, written: nat)
    requires FileOk(v, ino)
    modifies v, v.alloc
    ensures FileOk(v, out) && written <= |data|
    ensures Content(v, out) == Splice(old(Content(v, ino)), offset, data[..written])
    ensures status.TooBig? <==> data != [] && offset + |data| > FILE_SIZE_MAX
    ensures status.Done? <==> written == |data|
    ensures status.TooBig? ==> out == ino && v.disk == old(v.disk) && v.alloc.Used() == old(v.alloc.Used())
    ensures status.Full? ==> MapIn(Trees(v, out), v.p, Lb(v.p, offset + written)) == 0
                                && v.alloc.free < PathMissing(Trees(v, out), v.p, Lb(v.p, offset + written))
    ensures Kept(old(v.disk), old(v.alloc.Used()), AllBlocks(old(Trees(v, ino))), v.disk, v.alloc.Used(),
                 AllBlocks(Trees(v, out)))
  {
    hide *;
    FileFacts(v, ino);
    ghost var d0, ts0, used0, mine0 := v.disk, Trees(v, ino), v.alloc.Used(), AllBlocks(Trees(v, ino));
    out, written := ino, 0;
    KeptStart(d0, used0, mine0);
    EmptySplice(Content(v, ino), offset);
    if data == [] { return Done, ino, 0; }
    if offset > FILE_SIZE_MAX || |data| > FILE_SIZE_MAX - offset { return TooBig, ino, 0; }
    SplicedStart(d0, ts0, v.p, offset);
    var bs := BlockSize(v.p);
    BlockSizeIs(v.p);
    var remaining: nat := |data|;
    LargestFile();
    status := Done;
    while remaining > 0
      invariant v.Valid() && v.alloc.Shape() && v.p >= 256 && Ok(v, out) && |out.slots| == SLOTS && out.size == ino.size
      invariant remaining + written == |data| && status.Done? && |Trees(v, out)| == SLOTS
      invariant Spliced(d0, ts0, v.disk, Trees(v, out), v.p, offset, data[..written])
      invariant Kept(d0, used0, mine0, v.disk, v.alloc.Used(), AllBlocks(Trees(v, out)))
    {
      var lb, blockOff := Lb(v.p, offset + written), Off(v.p, offset + written);
      var take := bs - blockOff;
      if take > remaining { take := remaining; }
      InReach(v.p, offset + written);
      ghost var d1, ts1, used1, out1 := v.disk, Trees(v, out), v.alloc.Used(), out;
      TreesAre(v, out);
      var ok, next := StoreChunk(v, out, goal, lb, blockOff, data[written..written + take]);
      v.Shaped();
      TreesAre(v, next);
      TreesAre(v, out1);
      KeptChain(d0, used0, mine0, d1, used1, AllBlocks(ts1), v.disk, v.alloc.Used(), AllBlocks(Trees(v, next)));
      if !ok {
        status := Full;
        break;
      }
      SplicedMore(d0, ts0, d1, ts1, v.disk, Trees(v, next), v.p, offset, data, written, written + take);
      out := next;
      written := written + take;
      remaining := remaining - take;
    }
    assert |data[..written]| == written;
    ghost var mapped := out;
    if written > 0 && offset + written > out.size { out := out.(size := offset + written); }
    SizeOnly(v, mapped, out);
    SplicedContent(d0, ts0, v.disk, Trees(v, out), v.p, offset, data[..written], ino.size, out.size);
    FileFrom(v, out);
  }

  // ---------- reading ----------

  lemma NextBlock(p: nat, pos: nat)
    requires p > 0
    ensures Off(p, pos + (BlockSize(p) - Off(p, pos))) == 0
    ensures Lb(p, pos + (BlockSize(p) - Off(p, pos))) == Lb(p, pos) + 1
  {
    var s := BlockSize(p);
    Euclid(pos, s);
    QuotientIs(Lb(p, pos) + 1, 0, s);
    assert pos + (s - Off(p, pos)) == (Lb(p, pos) + 1) * s + 0;
  }

  // The bytes of one block stretch, zero in a hole.
  function Stretch(disk: Disk, blk: nat, p: nat, off: nat, n: nat): (r: seq<Byte>)
    requires off + n <= BlockSize(p) && (blk != 0 ==> blk in disk && |disk[blk]| == BlockSize(p))
    ensures |r| == n && forall k :: 0 <= k < n ==> r[k] == BlockByte(disk, blk, p, off + k)
  {
    if blk == 0 then Zeros(n) else disk[blk][off..off + n]
  }

  lemma StretchBytes(disk: Disk, ts: seq<Tree>, p: nat, pos: nat, n: nat, size: nat, offset: nat)
    requires p > 0 && |ts| == SLOTS && Off(p, pos) + n <= BlockSize(p) && offset <= pos && pos + n <= size
    requires var blk := MapIn(ts, p, Lb(p, pos)); blk != 0 ==> blk in disk && |disk[blk]| == BlockSize(p)
    ensures BytesIn(disk, ts, p, size)[offset..pos] + Stretch(disk, MapIn(ts, p, Lb(p, pos)), p, Off(p, pos), n)
            == BytesIn(disk, ts, p, size)[offset..pos + n]
  {
    hide Lb, Off, MapIn, BlockByte, Stretch, BytesIn;
    var r, c := Stretch(disk, MapIn(ts, p, Lb(p, pos)), p, Off(p, pos), n), BytesIn(disk, ts, p, size);
    forall k | 0 <= k < n ensures r[k] == c[pos + k] {
      SameBlock(p, pos, n, pos + k);
      assert c[pos + k] == ByteIn(disk, ts, p, pos + k);
    }
    assert c[offset..pos + n] == c[offset..pos] + c[pos..pos + n];
    assert r == c[pos..pos + n];
  }

  lemma MappedBlock(v: Volume, ino: Inode, lb: nat)
    requires v.Valid() && v.alloc.Shape() && Ok(v, ino) && |Trees(v, ino)| == SLOTS
    ensures v.p > 0
    ensures var blk := MapIn(Trees(v, ino), v.p, lb); blk != 0 ==> blk in v.disk && |v.disk[blk]| == BlockSize(v.p)
  {
    hide *;
    v.Shaped();
    OkFacts(v, ino);
    var blk := MapIn(Trees(v, ino), v.p, lb);
    if blk != 0 {
      MapIsData(Trees(v, ino), v.p, lb);
      v.UsedRange(blk);
      v.TableAt(blk);
    }
    BlockSizeIs(v.p);
  }

  function Min(a: nat, b: nat): nat { if a < b then a else b }

  /** ext2_read_file_at: the part of the contents from `offset`, at most `limit` bytes. */
  method ReadAt(v: Volume, ino: Inode, offset: nat, limit: nat) returns (out: seq<Byte>)
    requires FileOk(v, ino)
    ensures out == if offset >= ino.size then [] else Content(v, ino)[offset..Min(ino.size, offset + limit)]
  {
    hide *;
    FileFacts(v, ino);
    if offset >= ino.size { return []; }
    ghost var ts, c := Trees(v, ino), Content(v, ino);
    var bs := BlockSize(v.p);
    BlockSizeIs(v.p);
    MinIs(ino.size, offset + limit);
    var size: nat := ino.size - offset;
    if size > limit { size := limit; }
    var remaining: nat := size;
    var i, blockOff := Lb(v.p, offset), Off(v.p, offset);
    out := [];
    while remaining > 0
      invariant remaining + |out| == size && out == c[offset..offset + |out|] && blockOff < bs
      invariant remaining > 0 ==> i == Lb(v.p, offset + |out|) && blockOff == Off(v.p, offset + |out|)
    {
      var pos := offset + |out|;
      InReach(v.p, pos);
      var found := GetBlock(v, ino, i);
      var blk := found.value;
      var take: nat := bs - blockOff;
      if take > remaining { take := remaining; }
      MappedBlock(v, ino, i);
      NextBlock(v.p, pos);
      StretchBytes(v.disk, ts, v.p, pos, take, ino.size, offset);
      out := out + Stretch(v.disk, blk, v.p, blockOff, take);
      remaining := remaining - take;
      i := i + 1;
      blockOff := 0;
    }
  }

  lemma MinIs(a: nat, b: nat)
    ensures Min(a, b) == if a < b then a else b
  {
  }

  // ---------- truncating ----------

  function BlocksFor(p: nat, size: nat): nat
    requires p > 0
  {
    Lb(p, size + BlockSize(p) - 1)
  }

  lemma BlocksForIs(p: nat, size: nat)
    requires p > 0
    ensures BlocksFor(p, size) == if Off(p, size) == 0 then Lb(p, size) else Lb(p, size) + 1
  {
    var s := BlockSize(p);
    Euclid(size, s);
    var q, r := Lb(p, size), Off(p, size);
    if r == 0 {
      assert size + s - 1 == q * s + (s - 1);
      QuotientIs(q, s - 1, s);
    } else {
      assert size + s - 1 == (q + 1) * s + (r - 1);
      QuotientIs(q + 1, r - 1, s);
    }
  }

  lemma Ordered(p: nat, a: nat, b: nat)
    requires p > 0
    ensures a <= b <==> Lb(p, a) < Lb(p, b) || (Lb(p, a) == Lb(p, b) && Off(p, a) <= Off(p, b))
  {
    var s := BlockSize(p);
    Euclid(a, s);
    Euclid(b, s);
    if Lb(p, a) < Lb(p, b) { ProductMonotone(Lb(p, a) + 1, Lb(p, b), s); }
    if Lb(p, b) < Lb(p, a) { ProductMonotone(Lb(p, b) + 1, Lb(p, a), s); }
  }

  // What releasing blocks does to every byte position.
  lemma TrimmedBytes(d0: Disk, d1: Disk, ts: seq<Tree>, p: nat, keep: nat, i: nat)
    requires p > 0 && Separate(ts, p) && |ts| == SLOTS && SameOutside(d0, d1, AllTables(ts))
    ensures ByteIn(d1, TrimSlots(ts, p, keep), p, i) == if Lb(p, i) < keep then ByteIn(d0, ts, p, i) else 0
  {
    hide MapIn, Separate, Lb, Off, AllTables, AllBlocks, Trim;
    TrimSlotsMap(ts, p, keep, Lb(p, i));
    if MapIn(ts, p, Lb(p, i)) != 0 { MapIsData(ts, p, Lb(p, i)); }
  }

  lemma Shrunk(d0: Disk, d1: Disk, d2: Disk, ts: seq<Tree>, p: nat, old_size: nat, size: nat)
    requires p > 0 && Separate(ts, p) && |ts| == SLOTS && SameOutside(d0, d1, AllTables(ts)) && size <= old_size
    requires Off(p, size) == 0 ==> d2 == d1
    requires Off(p, size) != 0 ==>
               Patched(d1, TrimSlots(ts, p, BlocksFor(p, size)), d2, TrimSlots(ts, p, BlocksFor(p, size)), p,
                       Lb(p, size), Off(p, size), Zeros(BlockSize(p) - Off(p, size)))
    ensures ZeroPast(d2, TrimSlots(ts, p, BlocksFor(p, size)), p, size)
    ensures BytesIn(d2, TrimSlots(ts, p, BlocksFor(p, size)), p, size) == Resized(BytesIn(d0, ts, p, old_size), size)
  {
    hide ByteIn, Lb, Off, AllTables, Separate, BlocksFor;
    var rs := TrimSlots(ts, p, BlocksFor(p, size));
    BlocksForIs(p, size);
    forall i: nat ensures ByteIn(d2, rs, p, i) == if i < size then ByteIn(d0, ts, p, i) else 0 {
      TrimmedBytes(d0, d1, ts, p, BlocksFor(p, size), i);
      Ordered(p, size, i);
    }
    var now, want := BytesIn(d2, rs, p, size), Resized(BytesIn(d0, ts, p, old_size), size);
    assert forall i :: 0 <= i < size ==> now[i] == want[i];
  }

  lemma HolePatched(d: Disk, ts: seq<Tree>, p: nat, lb: nat, off: nat, n: nat)
    requires p > 0 && |ts| == SLOTS && MapIn(ts, p, lb) == 0 && off + n <= BlockSize(p)
    ensures Patched(d, ts, d, ts, p, lb, off, Zeros(n))
  {
    hide MapIn, Lb, Off;
  }

  /** zero_block_tail: bytes of the last block past `size` become zero. */
  method ZeroTail(v: Volume, ino: Inode, size: nat)
    requires v.Valid() && Ok(v, ino) && v.p >= 256 && size < 0x1_0000_0000
    modifies v
    ensures v.Valid() && Ok(v, ino) && |ino.slots| == SLOTS
    ensures Trees(v, ino) == old(Trees(v, ino))
    ensures Off(v.p, size) == 0 ==> v.disk == old(v.disk)
    ensures Off(v.p, size) != 0 ==>
              Patched(old(v.disk), Trees(v, ino), v.disk, Trees(v, ino), v.p, Lb(v.p, size), Off(v.p, size),
                                            Zeros(BlockSize(v.p) - Off(v.p, size)))
    ensures SameOutside(old(v.disk), v.disk, AllBlocks(Trees(v, ino)))
  {
    hide *;
    v.Shaped();
    OkFacts(v, ino);
    ghost var d0, ts, used0 := v.disk, Trees(v, ino), v.alloc.Used();
    SameOutsideStart(d0, AllBlocks(ts));
    var tail := Off(v.p, size);
    if tail == 0 { return; }
    InReach(v.p, size);
    var lb := Lb(v.p, size);
    var found := GetBlock(v, ino, lb);
    var blk := found.value;
    if blk == 0 {
      HolePatched(d0, ts, v.p, lb, tail, BlockSize(v.p) - tail);
      return;
    }
    MapIsData(ts, v.p, lb);
    v.UsedRange(blk);
    v.TableAt(blk);
    BlockSizeIs(v.p);
    v.StoreBlock(blk, Overlay(v.disk[blk], tail, Zeros(BlockSize(v.p) - tail)));
    v.Shaped();
    DataWriteKeepsTrees(d0, v.disk, v.p, ino.slots, lb, blk);
    TreesAre(v, ino);
    OkFrom(v, ino);
    SameOutsideWiden(d0, v.disk, {blk}, AllBlocks(ts));
    WriteMapped(d0, v.disk, ts, v.p, lb, blk, tail, Zeros(BlockSize(v.p) - tail));
  }

  lemma Regrown(d: Disk, ts: seq<Tree>, p: nat, old_size: nat, size: nat)
    requires p > 0 && |ts| == SLOTS && ZeroPast(d, ts, p, old_size) && old_size <= size
    ensures ZeroPast(d, ts, p, size) && BytesIn(d, ts, p, size) == Resized(BytesIn(d, ts, p, old_size), size)
  {
    hide ByteIn;
    var now, want := BytesIn(d, ts, p, size), Resized(BytesIn(d, ts, p, old_size), size);
    assert forall i :: 0 <= i < size ==> now[i] == want[i];
  }

  lemma KeptTrimmed(d0: Disk, d1: Disk, d2: Disk, ts: seq<Tree>, rs: seq<Tree>, p: nat, used0: set<nat>, used: set<nat>)
    requires Separate(ts, p) && AllBlocks(rs) <= AllBlocks(ts) && used == used0 - (AllBlocks(ts) - AllBlocks(rs))
    requires SameOutside(d0, d1, AllTables(ts)) && SameOutside(d1, d2, AllBlocks(rs))
    ensures Kept(d0, used0, AllBlocks(ts), d2, used, AllBlocks(rs))
  {
    hide AllBlocks, AllTables, Separate;
    SlotTablesAreBlocks(ts, p);
  }

  /**
   ext2_truncate: the contents are cut, or extended with zeros; nothing that was cut off can come
   back when the file grows again.
   */
  method Truncate(v: Volume, ino: Inode, size: nat) returns (status: Status, out: Inode)
    requires FileOk(v, ino)
    modifies v, v.alloc
    ensures FileOk(v, out) && !status.Full?
    ensures status.TooBig? <==> size > FILE_SIZE_MAX
    ensures status.TooBig? ==> out == ino && v.disk == old(v.disk) && v.alloc.Used() == old(v.alloc.Used())
    ensures status.Done? ==> Content(v, out) == Resized(old(Content(v, ino)), size)
    ensures status.Done? && size < ino.size ==>
              Trees(v, out) == TrimSlots(old(Trees(v, ino)), v.p, BlocksFor(v.p, size))
    ensures Kept(old(v.disk), old(v.alloc.Used()), AllBlocks(old(Trees(v, ino))), v.disk, v.alloc.Used(),
                 AllBlocks(Trees(v, out)))
  {
    hide *;
    FileFacts(v, ino);
    OkFacts(v, ino);
    ghost var d0, ts, used0 := v.disk, Trees(v, ino), v.alloc.Used();
    KeptStart(d0, used0, AllBlocks(ts));
    if size > FILE_SIZE_MAX { return TooBig, ino; }
    LargestFile();
    Regrown(d0, ts, v.p, ino.size, if size < ino.size then ino.size else size);
    if size == ino.size { return Done, ino; }
    if size < ino.size {
      out := TrimBlocks(v, ino, BlocksFor(v.p, size));
      v.Shaped();
      OkFacts(v, out);
      ghost var d1, rs, used, trimmed := v.disk, Trees(v, out), v.alloc.Used(), out;
      out := out.(size := size);
      SizeOnly(v, trimmed, out);
      ZeroTail(v, out, size);
      v.Shaped();
      Shrunk(d0, d1, v.disk, ts, v.p, ino.size, size);
      KeptTrimmed(d0, d1, v.disk, ts, rs, v.p, used0, used);
    } else {
      out := ino.(size := size);
      SizeOnly(v, ino, out);
    }
    FileFrom(v, out);
    status := Done;
  }

  // ---------- whole histories ----------

  datatype Request = Write(offset: nat, data: seq<Byte>) | Resize(size: nat)

  // What a request does to a byte sequence, given the count it reported: the bytes a write stored,
  // or 1 for a size that was accepted.
  function Effect(c: seq<Byte>, request: Request, reply: nat): seq<Byte> {
    match request
    case Write(offset, data) => Splice(c, offset, data[..Min(reply, |data|)])
    case Resize(size) => if reply == 0 then c else Resized(c, size)
  }

  function History(c: seq<Byte>, requests: seq<Request>, replies: seq<nat>): seq<Byte>
    requires |requests| == |replies|
  {
    if requests == [] then c
    else var last := |requests|
         - 1; Effect(History(c, requests[..last], replies[..last]), requests[last], replies[last])
  }

  lemma HistoryNext(c: seq<Byte>, requests: seq<Request>, i: nat, replies: seq<nat>, reply: nat)
    requires i < |requests| && |replies| == i
    ensures History(c, requests[..i + 1], replies + [reply])
            == Effect(History(c, requests[..i], replies), requests[i], reply)
  {
    assert requests[..i + 1][..i] == requests[..i] && (replies + [reply])[..i] == replies;
  }

  lemma EffectIs(c: seq<Byte>, request: Request, reply: nat)
    ensures request.Write? && reply <= |request.data| ==>
              Effect(c, request, reply) == Splice(c, request.offset, request.data[..reply])
    ensures request.Resize? ==> Effect(c, request, reply) == if reply == 0 then c else Resized(c, request.size)
  {
  }

  // An unchanged map and unchanged blocks give unchanged contents.
  lemma SameContent(v: Volume, ino: Inode, d0: Disk, c: seq<Byte>)
    requires v.p > 0 && |ino.slots| == SLOTS && v.disk == d0
             && c == BytesIn(d0, SlotTrees(d0, v.p, ino.slots), v.p, ino.size)
    ensures Content(v, ino) == c
  {
  }

  /** Any sequence of writes and truncations leaves the file as the same requests leave a plain byte sequence. */
  method Replay(v: Volume, ino: Inode, goal: nat, requests: seq<Request>) returns (out: Inode, replies: seq<nat>)
    requires FileOk(v, ino)
    modifies v, v.alloc
    ensures FileOk(v, out) && |replies| == |requests|
    ensures Content(v, out) == History(old(Content(v, ino)), requests, replies)
    ensures Kept(old(v.disk), old(v.alloc.Used()), AllBlocks(old(Trees(v, ino))), v.disk, v.alloc.Used(),
                 AllBlocks(Trees(v, out)))
  {
    hide *;
    FileFacts(v, ino);
    ghost var c, d0, used0, mine0 := Content(v, ino), v.disk, v.alloc.Used(), AllBlocks(Trees(v, ino));
    KeptStart(d0, used0, mine0);
    out, replies := ino, [];
    HistoryStart(c, requests);
    for i := 0 to |requests|
      invariant FileOk(v, out) && |replies| == i && v.p > 0 && |out.slots| == SLOTS && v.alloc.Shape()
      invariant Content(v, out) == History(c, requests[..i], replies)
      invariant Kept(d0, used0, mine0, v.disk, v.alloc.Used(), AllBlocks(Trees(v, out)))
    {
      ghost var c1, d1, used1, mine1, was := Content(v, out), v.disk, v.alloc.Used(), AllBlocks(Trees(v, out)), out;
      FileFacts(v, out);
      TreesAre(v, out);
      var status, reply: nat;
      match requests[i] {
        case Write(offset, data) =>
          status, out, reply := WriteAt(v, out, goal, offset, data);
        case Resize(size) =>
          status, out := Truncate(v, out, size);
          reply := if status.Done? then 1 else 0;
          FileFacts(v, out);
          TreesAre(v, out);
          if status.TooBig? { SameContent(v, out, d1, c1); }
      }
      FileFacts(v, out);
      EffectIs(c1, requests[i], reply);
      HistoryNext(c, requests, i, replies, reply);
      KeptChain(d0, used0, mine0, d1, used1, mine1, v.disk, v.alloc.Used(), AllBlocks(Trees(v, out)));
      replies := replies + [reply];
    }
    assert requests[..|requests|] == requests;
  }

  lemma HistoryStart(c: seq<Byte>, requests: seq<Request>)
    ensures History(c, requests[..0], []) == c
  {
  }
}
