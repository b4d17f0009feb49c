/**
 Regular files: positioned reads and writes and truncation behave like operations on a plain
 sequence of bytes.
 */
module Ext2File {
  import opened Ext2Tree
  import opened Ext2Alloc
  import opened Ext2Volume
  import opened Ext2Inode

  const FILE_SIZE_MAX: nat := 0x7FFF_FFFF

  function BlockSize(p: nat): nat { 4 * p }

  // The logical block of a file position and the position inside it.
  function Lb(p: nat, i: nat): nat
    requires p > 0
  {
    Quotient(i, BlockSize(p)); i / BlockSize(p)
  }

  lemma Quotient(i: nat, s: nat)
    requires s > 0
    ensures i / s >= 0
  {
  }

  function Off(p: nat, i: nat): (o: nat)
    requires p > 0
    ensures o < BlockSize(p)
  {
    i % BlockSize(p)
  }

  // The byte at any position, mapped or not, inside the file or not.
  function ByteIn(disk: Disk, ts: seq<Tree>, p: nat, i: nat): Byte
    requires p > 0 && |ts| == SLOTS
  {
    BlockByte(disk, MapIn(ts, p, Lb(p, i)), p, Off(p, i))
  }

  function BlockByte(disk: Disk, b: nat, p: nat, o: nat): Byte
    requires o < BlockSize(p)
  {
    if b == 0 || b !in disk || |disk[b]| != BlockSize(p) then 0 else disk[b][o]
  }

  function ByteAt(v: Volume, ino: Inode, i: nat): Byte
    reads v
    requires v.p > 0 && |ino.slots| == SLOTS
  {
    ByteIn(v.disk, Trees(v, ino), v.p, i)
  }

  function Content(v: Volume, ino: Inode): (c: seq<Byte>)
    reads v
    requires v.p > 0 && |ino.slots| == SLOTS
    ensures |c| == ino.size && forall i :: 0 <= i < ino.size ==> c[i] == ByteAt(v, ino, i)
  {
    BytesIn(v.disk, Trees(v, ino), v.p, ino.size)
  }

  function BytesIn(disk: Disk, ts: seq<Tree>, p: nat, n: nat): (c: seq<Byte>)
    requires p > 0 && |ts| == SLOTS
    ensures |c| == n && forall i :: 0 <= i < n ==> c[i] == ByteIn(disk, ts, p, i)
  {
    seq(n, i requires 0 <= i < n => ByteIn(disk, ts, p, i))
  }

  // Every position from the size on reads as zero, mapped or not.
  ghost predicate FileOk(v: Volume, ino: Inode)
    reads v, v.alloc
  {
    && v.Valid() && v.p >= 256 && Ok(v, ino) && ino.size < 0x1_0000_0000
    && (forall i: nat :: i >= ino.size ==> ByteAt(v, ino, i) == 0)
  }

  // ---------- positions ----------

  // A stretch inside one block, by position and by offset.
  lemma SameBlock(p: nat, pos: nat, n: nat, i: nat)
    requires p > 0 && Off(p, pos) + n <= BlockSize(p)
    ensures pos <= i < pos + n <==> Lb(p, i) == Lb(p, pos) && Off(p, pos) <= Off(p, i) < Off(p, pos) + n
    ensures Lb(p, i) == Lb(p, pos) ==> i - pos == Off(p, i) - Off(p, pos)
  {
    var s := BlockSize(p);
    Euclid(i, s);
    Euclid(pos, s);
    if pos <= i < pos + n { QuotientIs(Lb(p, pos), Off(p, pos) + (i - pos), s); }
  }

  // Every position a file may have is within the reach of its block map.
  lemma InReach(p: nat, pos: nat)
    requires p >= 256 && pos < 0x1_0000_0000
    ensures Lb(p, pos) < MaxBlocks(p)
  {
    SpanPowers(p);
    ProductMonotone(256, p, p);
    ProductMonotone(256 * 256, p * p, p);
    Euclid(pos, BlockSize(p));
    assert Lb(p, pos) * BlockSize(p) <= pos;
    if Lb(p, pos) >= 0x100_0000 { ProductMonotone(0x100_0000, Lb(p, pos), BlockSize(p)); }
  }

  // ---------- one block ----------

  // The bytes of one block stretch replaced.
  ghost predicate Patched(d0: Disk, ts0: seq<Tree>, d1: Disk, ts1: seq<Tree>, p: nat, lb: nat, off: nat,
      chunk: seq<Byte>)
    requires p > 0 && |ts0| == |ts1| == SLOTS
  {
    forall i: nat {:trigger ByteIn(d1, ts1, p, i)} ::
      ByteIn(d1, ts1, p, i) == if Lb(p, i) == lb
          && off <= Off(p, i) < off + |chunk| then chunk[Off(p, i) - off] else ByteIn(d0, ts0, p, i)
  }

  // Writing a mapped data block changes that logical block only.
  lemma WriteMapped(d0: Disk, d1: Disk, ts: seq<Tree>, p: nat, lb: nat, blk: nat, off: nat, chunk: seq<Byte>)
    requires p > 0 && |ts| == SLOTS && Separate(ts, p) && MapIn(ts, p, lb) == blk != 0 && blk in d0
             && |d0[blk]| == BlockSize(p)
    requires off + |chunk| <= BlockSize(p) && d1 == d0[blk := Overlay(d0[blk], off, chunk)]
    ensures Patched(d0, ts, d1, ts, p, lb, off, chunk)
  {
    hide MapIn, Separate, Lb, Off;
    forall i: nat
        ensures ByteIn(d1, ts, p, i) == if Lb(p, i) == lb
                && off <= Off(p, i) < off + |chunk| then chunk[Off(p, i) - off] else ByteIn(d0, ts, p, i) {
      if MapIn(ts, p, Lb(p, i)) == blk { MapInjective(ts, p, Lb(p, i), lb); }
    }
  }

  function Overlay(bytes: seq<Byte>, off: nat, chunk: seq<Byte>): (r: seq<Byte>)
    requires off + |chunk| <= |bytes|
    ensures |r| == |bytes|
    ensures forall k :: 0 <= k < |bytes| ==> r[k] == if off <= k < off + |chunk| then chunk[k - off] else bytes[k]
  {
    bytes[..off] + chunk + bytes[off + |chunk|..]
  }

  // Filling a block that was just mapped changes that logical block only.
  lemma WriteFresh(d0: Disk, d1: Disk, d2: Disk, ts0: seq<Tree>, ts1: seq<Tree>, p: nat, lb: nat, blk: nat,
                   used0: set<nat>, used: set<nat>, off: nat, chunk: seq<Byte>)
    requires p > 0 && |ts0| == SLOTS && Separate(ts0, p) && |ts1| == SLOTS && MapIn(ts0, p, lb) == 0
             && AllBlocks(ts0) <= used0
    requires MapGrown(ts0, ts1, p, lb, blk, used0, used) && blk != 0 && blk in d1 && |d1[blk]| == BlockSize(p)
    requires SameOutside(d0, d1, AllTables(ts0) + (AllBlocks(ts1) - AllBlocks(ts0)))
    requires off + |chunk| <= BlockSize(p) && d2 == d1[blk := Overlay(Zeros(BlockSize(p)), off, chunk)]
    ensures Patched(d0, ts0, d2, ts1, p, lb, off, chunk)
  {
    hide MapIn, Separate, Lb, Off, AllBlocks, AllTables;
    forall i: nat
        ensures ByteIn(d2, ts1, p, i) == if Lb(p, i) == lb
                && off <= Off(p, i) < off + |chunk| then chunk[Off(p, i) - off] else ByteIn(d0, ts0, p, i) {
      var k := Lb(p, i);
      if k != lb && MapIn(ts0, p, k) != 0 {
        MapIsData(ts0, p, k);
        if MapIn(ts1, p, k) == blk { MapInjective(ts1, p, k, lb); }
      }
    }
  }

  function Zeros(n: nat): (z: seq<Byte>)
    ensures |z| == n && forall k :: 0 <= k < n ==> z[k] == 0
  {
    seq(n, _ => 0)
  }

  // A data block of the inode is not one of its tables, so writing it leaves the map alone.
  lemma DataWriteKeepsTrees(d0: Disk, d1: Disk, p: nat, slots: seq<nat>, lb: nat, blk: nat)
    requires p > 0 && |slots| == SLOTS && Separate(SlotTrees(d0, p, slots), p)
    requires MapIn(SlotTrees(d0, p, slots), p, lb) == blk != 0 && SameOutside(d0, d1, {blk})
    ensures SlotTrees(d1, p, slots) == SlotTrees(d0, p, slots)
  {
    hide MapIn, TreeOf, SameOutside, Tables, AllTables, Proper;
    var ts := SlotTrees(d0, p, slots);
    MapIsData(ts, p, lb);
    var now := SlotTrees(d1, p, slots);
    forall j | 0 <= j < SLOTS ensures now[j] == ts[j] {
      MemberTables(ts, j);
      SameTree(d0, d1, p, slots[j], Level(j), {blk});
    }
  }

  /**
   One round of ext2_write_at: stores a chunk that lies inside one block, mapping the block first
   if it is a hole.  ENOSPC leaves the file as it was.
   */
  method StoreChunk(v: Volume, ino: Inode, goal: nat, lb: nat, off: nat, chunk: seq<Byte>)
      returns (ok: bool, out: Inode)
    requires v.Valid() && Ok(v, ino) && lb < MaxBlocks(v.p) && off + |chunk| <= BlockSize(v.p)
    modifies v, v.alloc
    ensures v.Valid() && v.p > 0 && Ok(v, out) && out.size == ino.size && |out.slots| == SLOTS
    ensures !ok ==> out == ino && v.disk == old(v.disk) && v.alloc.Used() == old(v.alloc.Used())
                    && v.alloc.free == old(v.alloc.free)
                    && old(v.alloc.free) < PathMissing(old(Trees(v, ino)), v.p, lb)
                       && MapIn(old(Trees(v, ino)), v.p, lb) == 0
    ensures ok ==> Patched(old(v.disk), old(Trees(v, ino)), v.disk, Trees(v, out), v.p, lb, off, chunk)
    ensures Kept(old(v.disk), old(v.alloc.Used()), AllBlocks(old(Trees(v, ino))), v.disk, v.alloc.Used(),
                 AllBlocks(Trees(v, out)))
  {
    hide *;
    v.Shaped();
    OkFacts(v, ino);
    ghost var d0, ts, used0 := v.disk, Trees(v, ino), v.alloc.Used();
    PathFacts(ts, v.p, lb);
    out := ino;
    var found := GetBlock(v, ino, lb);
    var blk := found.value;
    var fill;
    if blk == 0 {
      var mapped := MapNewBlock(v, ino, goal, lb);
      v.Shaped();
      if mapped.NoSpace? {
        StillOk(v, ino, d0, used0);
        TreesAre(v, ino);
        KeptStart(d0, used0, AllBlocks(ts));
        return false, ino;
      }
      out, blk := mapped.ino, mapped.blk;
      fill := Zeros(BlockSize(v.p));
      OkFacts(v, out);
      MapGrownFacts(ts, Trees(v, out), v.p, lb, blk, used0, v.alloc.Used());
      v.TableAt(blk);
    } else {
      MapIsData(ts, v.p, lb);
      v.UsedRange(blk);
      v.TableAt(blk);
      fill := v.disk[blk];
    }
    BlockSizeIs(v.p);
    if found.value == 0 {
      KeptGrown(d0, v.disk, ts, Trees(v, out), v.p, lb, blk, used0, v.alloc.Used());
      MapIsData(Trees(v, out), v.p, lb);
    } else {
      KeptStart(d0, used0, AllBlocks(ts));
    }
    ghost var d1, ts1, used1 := v.disk, Trees(v, out), v.alloc.Used();
    v.StoreBlock(blk, Overlay(fill, off, chunk));
    v.Shaped();
    DataWriteKeepsTrees(d1, v.disk, v.p, out.slots, lb, blk);
    TreesAre(v, out);
    OkFrom(v, out);
    KeptChange(d0, used0, AllBlocks(ts), d1, used1, AllBlocks(ts1), v.disk, {blk});
    if found.value == 0 {
      WriteFresh(d0, d1, v.disk, ts, ts1, v.p, lb, blk, used0, used1, off, chunk);
    } else {
      WriteMapped(d0, v.disk, ts, v.p, lb, blk, off, chunk);
    }
    ok := true;
  }

  lemma BlockSizeIs(p: nat)
    ensures BlockSize(p) == 4 * p
  {
  }

  lemma MapGrownFacts(ts: seq<Tree>, ts': seq<Tree>, p: nat, lb: nat, blk: nat, used0: set<nat>, used: set<nat>)
    requires p > 0 && |ts| == |ts'| == SLOTS && MapGrown(ts, ts', p, lb, blk, used0, used)
    ensures Separate(ts', p) && MapIn(ts', p, lb) == blk
  {
  }

  lemma StillOk(v: Volume, ino: Inode, d0: Disk, used0: set<nat>)
    requires v.alloc.Shape() && |ino.slots| == SLOTS && v.disk == d0 && v.alloc.Used() == used0
    requires Separate(SlotTrees(d0, v.p, ino.slots), v.p) && AllBlocks(SlotTrees(d0, v.p, ino.slots)) <= used0
    requires SectorsPerBlock(v.p) * AllCount(SlotTrees(d0, v.p, ino.slots)) <= ino.sectors
    ensures Ok(v, ino)
  {
  }

  // ---------- the rest of the volume ----------

  // Allocated blocks outside a file are the same as before and unchanged: what the file gained was
  // free, and what it lost is free.
  ghost predicate Kept(d0: Disk, used0: set<nat>, mine0: set<nat>, d1: Disk, used1: set<nat>, mine1: set<nat>) {
    && d0.Keys == d1.Keys && used1 - mine1 == used0 - mine0
    && forall b <- used0 :: b !in mine0 ==> b in used1 && b !in mine1 && (b in d0 ==> d1[b] == d0[b])
  }

  lemma KeptStart(d: Disk, used: set<nat>, mine: set<nat>)
    ensures Kept(d, used, mine, d, used, mine)
  {
  }

  lemma KeptChain(d0: Disk, used0: set<nat>, mine0: set<nat>, d1: Disk, used1: set<nat>, mine1: set<nat>,
                  d2: Disk, used2: set<nat>, mine2: set<nat>)
    requires Kept(d0, used0, mine0, d1, used1, mine1) && Kept(d1, used1, mine1, d2, used2, mine2)
    ensures Kept(d0, used0, mine0, d2, used2, mine2)
  {
  }

  lemma KeptChange(d0: Disk, used0: set<nat>, mine0: set<nat>, d1: Disk, used: set<nat>, mine: set<nat>, d2: Disk,
      changed: set<nat>)
    requires Kept(d0, used0, mine0, d1, used, mine) && SameOutside(d1, d2, changed) && changed <= mine
    ensures Kept(d0, used0, mine0, d2, used, mine)
  {
  }

  lemma KeptGrown(d0: Disk, d1: Disk, ts: seq<Tree>, ts': seq<Tree>, p: nat, lb: nat, blk: nat, used0: set<nat>,
      used: set<nat>)
    requires p > 0 && |ts| == |ts'| == SLOTS && Separate(ts, p) && AllBlocks(ts) <= used0
    requires MapGrown(ts, ts', p, lb, blk, used0, used)
    requires SameOutside(d0, d1, AllTables(ts) + (AllBlocks(ts') - AllBlocks(ts)))
    ensures Kept(d0, used0, AllBlocks(ts), d1, used, AllBlocks(ts'))
  {
    hide AllBlocks, AllTables, Separate, MapIn;
    SlotTablesAreBlocks(ts, p);
  }

  lemma SlotTablesAreBlocks(ts: seq<Tree>, p: nat)
    requires Separate(ts, p)
    ensures AllTables(ts) <= AllBlocks(ts)
  {
    hide AllBlocks, AllTables, Blocks, Tables, Proper;
    forall b <- AllTables(ts) ensures b in AllBlocks(ts) {
      var j := TablesFrom(ts, b);
      TablesAreBlocks(ts[j], p, Level(j));
      MemberBlocks(ts, j);
    }
  }

  /** A file that shares no block with the one written keeps its map and every byte. */
  lemma OtherFileKept(d0: Disk, used0: set<nat>, mine0: set<nat>, d1: Disk, used1: set<nat>, mine1: set<nat>,
                      p: nat, slots: seq<nat>, i: nat)
    requires p > 0 && |slots| == SLOTS && Kept(d0, used0, mine0, d1, used1, mine1)
    requires Separate(SlotTrees(d0, p, slots), p) && AllBlocks(SlotTrees(d0, p, slots)) <= used0 - mine0
    ensures SlotTrees(d1, p, slots) == SlotTrees(d0, p, slots)
    ensures AllBlocks(SlotTrees(d1, p, slots)) <= used1 - mine1
    ensures ByteIn(d1, SlotTrees(d1, p, slots), p, i) == ByteIn(d0, SlotTrees(d0, p, slots), p, i)
  {
    hide MapIn, TreeOf, Tables, Blocks, AllTables, AllBlocks, Separate, Lb, Off;
    var ts := SlotTrees(d0, p, slots);
    var changed := d0.Keys - AllBlocks(ts);
    assert SameOutside(d0, d1, changed);
    var now := SlotTrees(d1, p, slots);
    forall j | 0 <= j < SLOTS ensures now[j] == ts[j] {
      SeparateFacts(ts, p, j);
      SameTree(d0, d1, p, slots[j], Level(j), changed);
    }
    assert now == ts;
    if MapIn(ts, p, Lb(p, i)) != 0 { MapIsData(ts, p, Lb(p, i)); }
  }
}
