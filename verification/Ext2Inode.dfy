/**
 The block map of an inode: twelve direct pointers and one tree each of one, two and three
 indirect levels.
 */
module Ext2Inode {
  import opened Wrappers
  import opened Ext2Tree
  import opened Ext2Alloc
  import opened Ext2Volume

  const DIRECT: nat := 12
  const SLOTS: nat := 15

  // i_block, i_blocks (in 512-byte sectors) and i_size.
  datatype Inode = Inode(slots: seq<nat>, sectors: nat, size: nat)

  datatype Path = Path(slot: nat, rem: nat)

  function Level(slot: nat): nat { if slot < DIRECT then 0 else slot - 11 }

  // First logical block of a slot.
  function SlotStart(p: nat, slot: nat): nat {
    if slot <= DIRECT then slot
    else if slot == 13 then DIRECT + Span(p, 1)
    else DIRECT + Span(p, 1) + Span(p, 2)
  }

  function MaxBlocks(p: nat): nat { DIRECT + Span(p, 1) + Span(p, 2) + Span(p, 3) }

  // block_path: the slot of a logical block and its index below that slot.
  function BlockPath(p: nat, lb: nat): (r: Option<Path>)
    ensures r.Some? <==> lb < MaxBlocks(p)
    ensures r.Some? ==> r.value.slot < SLOTS && r.value.rem < Span(p, Level(r.value.slot))
                        && SlotStart(p, r.value.slot) + r.value.rem == lb
  {
    if lb < DIRECT then Some(Path(lb, 0))
    else if lb - DIRECT < Span(p, 1) then Some(Path(12, lb - DIRECT))
    else if lb - DIRECT - Span(p, 1) < Span(p, 2) then Some(Path(13, lb - DIRECT - Span(p, 1)))
    else if lb - DIRECT - Span(p, 1) - Span(p, 2) >= Span(p, 3) then None
    else Some(Path(14, lb - DIRECT - Span(p, 1) - Span(p, 2)))
  }

  lemma SpanPowers(p: nat)
    ensures Span(p, 1) == p && Span(p, 2) == p * p && Span(p, 3) == p * p * p
  {
    assert Span(p, 1) == p * Span(p, 0) && Span(p, 2) == p * Span(p, 1) && Span(p, 3) == p * Span(p, 2);
    assert p * (p * p) == p * p * p;
  }

  // The source's table indices are the digits that a walk down the tree takes.
  lemma PathDigits(p: nat, rem: nat)
    requires p > 0 && p * p > 0
    ensures rem % (p * p) / p == rem / p % p && rem % (p * p) % p == rem % p
  {
    var hi, lo := rem / (p * p), rem % (p * p);
    Euclid(rem, p * p);
    Euclid(lo, p);
    QuotientBound(lo, p, p);
    Regroup(hi, lo / p, lo % p, p);
    QuotientIs(hi * p + lo / p, lo % p, p);
    QuotientIs(hi, lo / p, p);
  }

  lemma Regroup(hi: nat, mid: nat, low: nat, p: nat)
    ensures hi * (p * p) + (mid * p + low) == (hi * p + mid) * p + low
  {
  }

  // ---------- the trees of an inode ----------

  function SlotTrees(disk: Disk, p: nat, slots: seq<nat>): (ts: seq<Tree>)
    requires |slots| == SLOTS
    ensures |ts| == SLOTS && forall i :: 0 <= i < SLOTS ==> ts[i] == TreeOf(disk, p, slots[i], Level(i))
  {
    seq(SLOTS, i requires 0 <= i < SLOTS => TreeOf(disk, p, slots[i], Level(i)))
  }

  // Trees that share no block, each fitting its slot.
  ghost predicate Separate(ts: seq<Tree>, p: nat) {
    && |ts| == SLOTS
    && (forall i :: 0 <= i < SLOTS ==> Proper(ts[i], p, Level(i)))
    && (forall i, j :: 0 <= i < j < SLOTS ==> Blocks(ts[i]) !! Blocks(ts[j]))
  }

  // The physical block at a logical index, 0 for a hole.
  function MapIn(ts: seq<Tree>, p: nat, lb: nat): nat
    requires |ts| == SLOTS && p > 0
  {
    match BlockPath(p, lb)
    case None => 0
    case Some(path) => Lookup(ts[path.slot], p, Level(path.slot), path.rem)
  }

  function TrimSlots(ts: seq<Tree>, p: nat, keep: nat): (rs: seq<Tree>)
    requires |ts| == SLOTS
    ensures |rs| == SLOTS && forall i :: 0 <= i < SLOTS ==> rs[i] == Trim(ts[i], p, Level(i), SlotStart(p, i), keep)
  {
    seq(SLOTS, i requires 0 <= i < SLOTS => Trim(ts[i], p, Level(i), SlotStart(p, i), keep))
  }

  /** Trimming the map keeps blocks below `keep` and makes holes of the rest. */
  lemma TrimSlotsMap(ts: seq<Tree>, p: nat, keep: nat, lb: nat)
    requires p > 0 && Separate(ts, p)
    ensures MapIn(TrimSlots(ts, p, keep), p, lb) == if lb < keep then MapIn(ts, p, lb) else 0
  {
    hide Span, Trim, Lookup, Proper;
    match BlockPath(p, lb)
    case None =>
    case Some(path) => TrimLookup(ts[path.slot], p, Level(path.slot), SlotStart(p, path.slot), keep, path.rem);
  }

  lemma TrimSlotsSeparate(ts: seq<Tree>, p: nat, keep: nat)
    requires Separate(ts, p)
    ensures Separate(TrimSlots(ts, p, keep), p)
    ensures forall i :: 0 <= i < SLOTS ==> Blocks(TrimSlots(ts, p, keep)[i]) <= Blocks(ts[i])
  {
    hide Trim, Proper, Blocks, SlotStart;
    forall i | 0 <= i < SLOTS
      ensures Proper(TrimSlots(ts, p, keep)[i], p, Level(i)) && Blocks(TrimSlots(ts, p, keep)[i]) <= Blocks(ts[i])
    {
      TrimProper(ts[i], p, Level(i), SlotStart(p, i), keep);
    }
  }

  lemma SeparatePrefix(ts: seq<Tree>, p: nat, i: nat)
    requires Separate(ts, p) && i < SLOTS
    ensures AllBlocks(ts[..i]) !! Blocks(ts[i])
  {
    hide Proper, Blocks, AllBlocks;
    forall b | b in AllBlocks(ts[..i]) ensures b !in Blocks(ts[i]) {
      var j := BlocksFrom(ts[..i], b);
    }
  }

  lemma {:induction false} SubsetAll(rs: seq<Tree>, ts: seq<Tree>)
    requires |rs| == |ts| && forall i :: 0 <= i < |ts| ==> Blocks(rs[i]) <= Blocks(ts[i])
    ensures AllBlocks(rs) <= AllBlocks(ts)
  {
    if ts != [] {
      var last := |ts| - 1;
      assert forall i :: 0 <= i < last ==> Blocks(rs[..last][i]) <= Blocks(ts[..last][i]);
      SubsetAll(rs[..last], ts[..last]);
    }
  }

  // Distinct logical blocks never share a physical one, and none is an indirect block.
  lemma MapInjective(ts: seq<Tree>, p: nat, a: nat, b: nat)
    requires p > 0 && Separate(ts, p) && MapIn(ts, p, a) == MapIn(ts, p, b) != 0
    ensures a == b
  {
    hide Span, Lookup, Proper, Blocks;
    var x, y := BlockPath(p, a).value, BlockPath(p, b).value;
    LookupIsData(ts[x.slot], p, Level(x.slot), x.rem);
    LookupIsData(ts[y.slot], p, Level(y.slot), y.rem);
    if x.slot == y.slot { LookupInjective(ts[x.slot], p, Level(x.slot), x.rem, y.rem); }
  }

  lemma MapIsData(ts: seq<Tree>, p: nat, lb: nat)
    requires p > 0 && Separate(ts, p) && MapIn(ts, p, lb) != 0
    ensures MapIn(ts, p, lb) in AllBlocks(ts) && MapIn(ts, p, lb) !in AllTables(ts)
  {
    hide Span, Lookup, Proper, Blocks, Tables, AllBlocks, AllTables;
    var x := BlockPath(p, lb).value;
    var b := MapIn(ts, p, lb);
    LookupIsData(ts[x.slot], p, Level(x.slot), x.rem);
    MemberBlocks(ts, x.slot);
    if b in AllTables(ts) {
      var j := TablesFrom(ts, b);
      TablesAreBlocks(ts[j], p, Level(j));
    }
  }

  // ---------- walking down ----------

  // ext2_block_path.index
  function Indices(p: nat, depth: nat, rem: nat): (ix: seq<nat>)
    requires p > 0 && depth <= 3
    ensures |ix| == depth
  {
    ProductPositive(p, p);
    if depth == 0 then []
    else if depth == 1 then [rem]
    else if depth == 2 then [rem / p, rem % p]
    else [rem / (p * p), rem / p % p, rem % p]
  }

  // The index that is left below the table reached after d steps.
  function Below(p: nat, depth: nat, rem: nat, d: nat): nat
    requires p > 0 && d <= depth
  {
    if d == 0 then rem else Rest(p, depth - d, Below(p, depth, rem, d - 1))
  }

  lemma IndexDigits(p: nat, depth: nat, rem: nat, d: nat)
    requires p > 0 && d < depth <= 3 && rem < Span(p, depth)
    ensures Indices(p, depth, rem)[d] == Quot(p, depth - d - 1, Below(p, depth, rem, d))
  {
    SpanPowers(p);
    SpanZero(p);
    ProductPositive(p, p);
    PathDigits(p, rem);
    assert Below(p, depth, rem, 0) == rem;
    if depth == 3 {
      assert Below(p, 3, rem, 1) == rem % (p * p);
      assert Below(p, 3, rem, 2) == rem % (p * p) % p;
    } else if depth == 2 {
      assert Below(p, 2, rem, 1) == rem % p;
    }
  }

  // One step of the walk: from a table to the child the index falls into.
  lemma WalkStep(disk: Disk, p: nat, blk: nat, level: nat, idx: nat, used: set<nat>)
    requires p > 0 && blk != 0 && level > 0 && idx < Span(p, level)
    requires Proper(TreeOf(disk, p, blk, level), p, level) && Blocks(TreeOf(disk, p, blk, level)) <= used
    ensures Quot(p, level - 1, idx) < p
    ensures var i, r := Quot(p, level - 1, idx), Rest(p, level - 1, idx);
            var child := TreeOf(disk, p, PtrsAt(disk, p, blk)[i], level - 1);
            && r < Span(p, level - 1) && Proper(child, p, level - 1) && Blocks(child) <= used && blk in used
            && Lookup(child, p, level - 1, r) == Lookup(TreeOf(disk, p, blk, level), p, level, idx)
            && Missing(child, p, level - 1, r) == Missing(TreeOf(disk, p, blk, level), p, level, idx)
  {
    hide Span, Quot, Rest, Lookup, Missing, Proper, TreeOf, PtrsAt, Blocks;
    GrowNode(disk, p, blk, level, idx);
  }

  /**
   inode_get_block: follows the pointers of a slot down to a data block.  `needed` is what
   inode_map_new_block would have to allocate, counted as the source counts it.
   */
  method Walk(v: Volume, ptr: nat, depth: nat, rem: nat) returns (blk: nat, needed: nat)
    requires v.Valid() && depth <= 3 && rem < Span(v.p, depth)
    requires Proper(TreeOf(v.disk, v.p, ptr, depth), v.p, depth)
             && Blocks(TreeOf(v.disk, v.p, ptr, depth)) <= v.alloc.Used()
    ensures blk == Lookup(TreeOf(v.disk, v.p, ptr, depth), v.p, depth, rem)
    ensures blk == 0 ==> needed == Missing(TreeOf(v.disk, v.p, ptr, depth), v.p, depth, rem)
  {
    hide *;
    v.Shaped();
    var p := v.p;
    ghost var t := TreeOf(v.disk, p, ptr, depth);
    var index := Indices(p, depth, rem);
    var d := 0;
    blk := ptr;
    BelowStart(p, depth, rem);
    while d < depth && blk != 0
      invariant d <= depth && Below(p, depth, rem, d) < Span(p, depth - d)
      invariant Proper(TreeOf(v.disk, p, blk, depth - d), p, depth - d)
                && Blocks(TreeOf(v.disk, p, blk, depth - d)) <= v.alloc.Used()
      invariant Lookup(TreeOf(v.disk, p, blk, depth - d), p, depth - d, Below(p, depth, rem, d))
                == Lookup(t, p, depth, rem)
      invariant Missing(TreeOf(v.disk, p, blk, depth - d), p, depth - d, Below(p, depth, rem, d))
                == Missing(t, p, depth, rem)
    {
      WalkStep(v.disk, p, blk, depth - d, Below(p, depth, rem, d), v.alloc.Used());
      IndexDigits(p, depth, rem, d);
      BelowNext(p, depth, rem, d);
      v.UsedRange(blk);
      v.TableAt(blk);
      var table := Words(v.disk[blk], p);
      blk := table[index[d]];
      d := d + 1;
    }
    WalkEnd(v.disk, p, blk, depth - d, Below(p, depth, rem, d));
    needed := 1 + depth - d;
  }

  lemma BelowStart(p: nat, depth: nat, rem: nat)
    requires p > 0
    ensures Below(p, depth, rem, 0) == rem
  {
  }

  lemma BelowNext(p: nat, depth: nat, rem: nat, d: nat)
    requires p > 0 && d < depth
    ensures Below(p, depth, rem, d + 1) == Rest(p, depth - d - 1, Below(p, depth, rem, d))
  {
  }

  lemma WalkEnd(disk: Disk, p: nat, blk: nat, level: nat, idx: nat)
    requires p > 0 && (blk == 0 || level == 0)
    ensures Lookup(TreeOf(disk, p, blk, level), p, level, idx) == blk
    ensures blk == 0 ==> Missing(TreeOf(disk, p, blk, level), p, level, idx) == 1 + level
  {
  }

  // ---------- inodes on a volume ----------

  function Trees(v: Volume, ino: Inode): seq<Tree>
    reads v
    requires |ino.slots| == SLOTS
  {
    SlotTrees(v.disk, v.p, ino.slots)
  }

  function SectorsPerBlock(p: nat): nat { p / 128 }

  // The inode's blocks form disjoint trees of allocated blocks, and i_blocks covers them.
  ghost predicate Ok(v: Volume, ino: Inode)
    reads v, v.alloc
    requires v.alloc.Shape()
  {
    && |ino.slots| == SLOTS && Separate(Trees(v, ino), v.p) && AllBlocks(Trees(v, ino)) <= v.alloc.Used()
    && SectorsPerBlock(v.p) * AllCount(Trees(v, ino)) <= ino.sectors
  }

  /** inode_get_block; None is EIO for an index beyond the largest map. */
  method GetBlock(v: Volume, ino: Inode, lb: nat) returns (r: Option<nat>)
    requires v.Valid() && Ok(v, ino)
    ensures r.Some? <==> lb < MaxBlocks(v.p)
    ensures r.Some? ==> r.value == MapIn(Trees(v, ino), v.p, lb)
  {
    var path := BlockPath(v.p, lb);
    if path.None? { return None; }
    MemberBlocks(Trees(v, ino), path.value.slot);
    hide Span, Lookup, Proper, Blocks, AllBlocks, Missing, TreeOf;
    var blk, needed := Walk(v, ino.slots[path.value.slot], Level(path.value.slot), path.value.rem);
    return Some(blk);
  }

  // ---------- releasing the tail of a map ----------

  // Slot i changed on disk; the other slots did not.
  lemma OtherSlots(d1: Disk, d2: Disk, p: nat, slots: seq<nat>, slots': seq<nat>, ts: seq<Tree>, i: nat, c: Tree,
      changed: set<nat>)
    requires |slots| == |slots'| == SLOTS && i < SLOTS && ts == SlotTrees(d1, p, slots) && Separate(ts, p)
    requires SameOutside(d1, d2, changed) && slots' == slots[i := slots'[i]] && c == TreeOf(d2, p, slots'[i], Level(i))
    requires forall j :: 0 <= j < SLOTS && j != i ==> Blocks(ts[j]) !! changed
    ensures SlotTrees(d2, p, slots') == ts[i := c]
  {
    hide TreeOf, Proper, SameOutside, Blocks;
    var now, want := SlotTrees(d2, p, slots'), ts[i := c];
    forall j | 0 <= j < SLOTS ensures now[j] == want[j] {
      if j != i {
        TablesAreBlocks(ts[j], p, Level(j));
        SameTree(d1, d2, p, slots[j], Level(j), changed);
      }
    }
  }

  lemma SeparateMixed(ts: seq<Tree>, p: nat, keep: nat, i: nat)
    requires Separate(ts, p) && i <= SLOTS
    ensures Separate(Mixed(TrimSlots(ts, p, keep), ts, i), p)
    ensures forall j :: 0 <= j < SLOTS ==> Blocks(Mixed(TrimSlots(ts, p, keep), ts, i)[j]) <= Blocks(ts[j])
    ensures i < SLOTS ==> AllBlocks(TrimSlots(ts, p, keep)[..i]) <= AllBlocks(ts[..i])
  {
    hide Trim, Proper, Blocks, AllBlocks, SlotStart;
    TrimSlotsSeparate(ts, p, keep);
    if i < SLOTS { SubsetAll(TrimSlots(ts, p, keep)[..i], ts[..i]); }
  }

  /**
   inode_trim_blocks: cuts the block map at logical block `keep`.  What is left of each slot is its
   trimmed tree; exactly the dropped blocks become free; i_blocks goes down by
   exactly their number; no data block is written.
   */
  method TrimBlocks(v: Volume, ino: Inode, keep: nat) returns (out: Inode)
    requires v.Valid() && Ok(v, ino)
    modifies v, v.alloc
    ensures v.Valid() && Ok(v, out) && out.size == ino.size
    ensures Trees(v, out) == TrimSlots(old(Trees(v, ino)), v.p, keep)
    ensures var was := AllBlocks(old(Trees(v, ino)));
            var now := AllBlocks(Trees(v, out));
            && now <= was && v.alloc.Used() == old(v.alloc.Used()) - (was - now)
            && v.alloc.free == old(v.alloc.free) + |was - now|
            && out.sectors == ino.sectors - SectorsPerBlock(v.p) * |was - now|
    ensures SameOutside(old(v.disk), v.disk, AllTables(old(Trees(v, ino))))
  {
    hide *;
    v.Shaped();
    OkFacts(v, ino);
    ghost var ts := Trees(v, ino);
    ghost var rs := TrimSlots(ts, v.p, keep);
    ghost var d0, used0 := v.disk, v.alloc.Used();
    var slots := ino.slots;
    var freed: nat := 0;
    ReleasedStart(ts, rs, used0);
    MixedEnds(rs, ts);
    SameOutsideStart(v.disk, AllTables(ts));
    for i := 0 to SLOTS
      invariant v.Valid() && v.alloc.Shape() && |slots| == SLOTS && SlotTrees(v.disk, v.p, slots) == Mixed(rs, ts, i)
      invariant Released(ts, rs, i, used0, v.alloc.Used(), freed) && v.alloc.free == old(v.alloc.free) + freed
      invariant SameOutside(d0, v.disk, AllTables(ts))
    {
      ghost var d1, used1, slots1 := v.disk, v.alloc.Used(), slots;
      MixedAt(rs, ts, i);
      SeparateMixed(ts, v.p, keep, i);
      SeparateFacts(ts, v.p, i);
      SlotUsed(ts, rs, v.p, keep, i, used0, used1, freed);
      HoleTree(v.disk, v.p, slots[i], Level(i));
      var more, gone := 0, false;
      if slots[i] != 0 {
        more, gone := v.TrimChild(slots[i], Level(i), SlotStart(v.p, i), keep);
        v.Shaped();
        if gone { slots := slots[i := 0]; }
        SameOutsideChain(d0, d1, v.disk, AllTables(ts), Tables(ts[i]));
      } else {
        TrimHole(v.p, Level(i), SlotStart(v.p, i), keep);
        SameOutsideStart(v.disk, Tables(ts[i]));
      }
      HoleTree(v.disk, v.p, 0, Level(i));
      ghost var m := Mixed(rs, ts, i);
      SlotsDisjoint(m, ts, v.p, i);
      OtherSlots(d1, v.disk, v.p, slots1, slots, m, i, rs[i], Tables(ts[i]));
      MixedUpdate(rs, ts, i);
      TrimSlotsSeparate(ts, v.p, keep);
      ReleasedMore(ts, rs, i, used0, used1, v.alloc.Used(), freed, more);
      freed := freed + more;
    }
    ProductPositive(freed, SectorsPerBlock(v.p));
    out := Inode(slots, Lower(ino.sectors, freed * SectorsPerBlock(v.p)), ino.size);
    ReleasedSlots(ts, rs, v.p, keep, used0, v.alloc.Used(), freed, ino.sectors);
    TreesAre(v, out);
    OkFrom(v, out);
  }

  // i_blocks never goes below zero.
  function Lower(a: nat, b: nat): nat { if a > b then a - b else 0 }

  lemma OkFacts(v: Volume, ino: Inode)
    requires v.alloc.Shape() && Ok(v, ino)
    ensures |ino.slots| == SLOTS && Separate(Trees(v, ino), v.p) && AllBlocks(Trees(v, ino)) <= v.alloc.Used()
    ensures Trees(v, ino) == SlotTrees(v.disk, v.p, ino.slots) && |Trees(v, ino)| == SLOTS
    ensures SectorsPerBlock(v.p) * AllCount(Trees(v, ino)) <= ino.sectors
  {
  }

  lemma OkFrom(v: Volume, ino: Inode)
    requires v.alloc.Shape() && |ino.slots| == SLOTS && Separate(Trees(v, ino), v.p)
             && AllBlocks(Trees(v, ino)) <= v.alloc.Used()
    requires SectorsPerBlock(v.p) * AllCount(Trees(v, ino)) <= ino.sectors
    ensures Ok(v, ino)
  {
  }

  lemma TreesAre(v: Volume, ino: Inode)
    requires |ino.slots| == SLOTS
    ensures Trees(v, ino) == SlotTrees(v.disk, v.p, ino.slots)
  {
  }

  lemma SeparateFacts(ts: seq<Tree>, p: nat, i: nat)
    requires Separate(ts, p) && i < SLOTS
    ensures Proper(ts[i], p, Level(i)) && Blocks(ts[i]) <= AllBlocks(ts) && Tables(ts[i]) <= AllTables(ts)
    ensures Tables(ts[i]) <= Blocks(ts[i]) && AllBlocks(ts[..i]) !! Blocks(ts[i])
  {
    MemberBlocks(ts, i);
    MemberTables(ts, i);
    TablesAreBlocks(ts[i], p, Level(i));
    SeparatePrefix(ts, p, i);
  }

  lemma SlotUsed(ts: seq<Tree>, rs: seq<Tree>, p: nat, keep: nat, i: nat, used0: set<nat>, used: set<nat>, freed: nat)
    requires Separate(ts, p) && |rs| == |ts| && i < SLOTS && Released(ts, rs, i, used0, used, freed)
             && AllBlocks(ts) <= used0
    ensures Blocks(ts[i]) <= used
  {
    hide Proper, Blocks, AllBlocks;
    MemberBlocks(ts, i);
    SeparatePrefix(ts, p, i);
  }

  lemma SlotsDisjoint(m: seq<Tree>, ts: seq<Tree>, p: nat, i: nat)
    requires Separate(ts, p) && |m| == SLOTS && i < SLOTS && forall j ::
             0 <= j < SLOTS ==> Blocks(m[j]) <= Blocks(ts[j])
    ensures forall j :: 0 <= j < SLOTS && j != i ==> Blocks(m[j]) !! Tables(ts[i])
  {
    hide Proper, Blocks, Tables;
    TablesAreBlocks(ts[i], p, Level(i));
  }

  lemma MixedUpdate(rs: seq<Tree>, ts: seq<Tree>, i: nat)
    requires i < |ts| == |rs|
    ensures Mixed(rs, ts, i)[i := rs[i]] == Mixed(rs, ts, i + 1)
  {
  }

  lemma ReleasedSlots(ts: seq<Tree>, rs: seq<Tree>, p: nat, keep: nat, used0: set<nat>, used: set<nat>, freed: nat,
      sectors: nat)
    requires Separate(ts, p) && rs == TrimSlots(ts, p, keep) && Released(ts, rs, SLOTS, used0, used, freed)
             && AllBlocks(ts) <= used0
    requires SectorsPerBlock(p) * AllCount(ts) <= sectors
    ensures Separate(rs, p) && AllBlocks(rs) <= AllBlocks(ts) && AllBlocks(rs) <= used
    ensures used == used0 - (AllBlocks(ts) - AllBlocks(rs)) && freed == |AllBlocks(ts) - AllBlocks(rs)|
    ensures Lower(sectors, freed * SectorsPerBlock(p)) == sectors - SectorsPerBlock(p) * freed
    ensures SectorsPerBlock(p) * AllCount(rs) <= Lower(sectors, freed * SectorsPerBlock(p))
  {
    assert ts[..SLOTS] == ts && rs[..SLOTS] == rs;
    TrimSlotsSeparate(ts, p, keep);
    SubsetAll(rs, ts);
    SeparateCount(ts, p, SLOTS);
    SeparateCount(rs, p, SLOTS);
    hide AllBlocks, AllCount, Separate, TrimSlots, SectorsPerBlock, Lower;
    assert AllBlocks(ts) == AllBlocks(rs) + (AllBlocks(ts) - AllBlocks(rs));
    SectorsLeft(SectorsPerBlock(p), freed, AllCount(rs), AllCount(ts), sectors);
  }

  // i_blocks after the sectors of the freed blocks are taken off.
  lemma SectorsLeft(k: nat, freed: nat, left: nat, all: nat, sectors: nat)
    requires all == freed + left && k * all <= sectors
    ensures Lower(sectors, freed * k) == sectors - k * freed && k * left <= Lower(sectors, freed * k)
  {
    Distribute(k, freed, left);
    ProductPositive(k, left);
  }

  lemma Distribute(k: nat, a: nat, b: nat)
    ensures k * (a + b) == a * k + k * b && a * k == k * a
  {
  }

  lemma {:induction false} SeparateCount(ts: seq<Tree>, p: nat, n: nat)
    requires Separate(ts, p) && n <= SLOTS
    ensures |AllBlocks(ts[..n])| == AllCount(ts[..n])
  {
    hide Proper, Blocks, Count;
    if n > 0 {
      SeparateCount(ts, p, n - 1);
      SeparatePrefix(ts, p, n - 1);
      CountIsSize(ts[n - 1], p, Level(n - 1));
      Extended(ts, n - 1);
    }
  }

  // ---------- mapping a new block ----------

  datatype MapResult = Mapped(ino: Inode, blk: nat) | NoSpace | IoError

  // ts' is ts with one slot grown so that lb maps to blk, using blocks that were free.
  ghost predicate MapGrown(ts: seq<Tree>, ts': seq<Tree>, p: nat, lb: nat, blk: nat, used0: set<nat>, used: set<nat>)
    requires p > 0 && |ts| == |ts'| == SLOTS
  {
    && Separate(ts', p) && AllBlocks(ts) <= AllBlocks(ts') && used == used0 + AllBlocks(ts')
    && (AllBlocks(ts') - AllBlocks(ts)) !! used0
    && (forall k: nat :: MapIn(ts', p, k) == if k == lb then blk else MapIn(ts, p, k))
  }

  /**
   inode_map_new_block.  ENOSPC is reported exactly when the volume has fewer free blocks than the
   missing part of the path, and then nothing has changed; otherwise the map gains exactly `lb`.
   */
  method MapNewBlock(v: Volume, ino: Inode, goal: nat, lb: nat) returns (r: MapResult)
    requires v.Valid() && Ok(v, ino)
    modifies v, v.alloc
    ensures v.Valid()
    ensures r.IoError? <==> lb >= MaxBlocks(v.p) || MapIn(old(Trees(v, ino)), v.p, lb) != 0
    ensures r.NoSpace? ==> old(v.alloc.free) < PathMissing(old(Trees(v, ino)), v.p, lb)
    ensures !r.Mapped? ==> v.disk == old(v.disk) && v.alloc.Used() == old(v.alloc.Used())
                           && v.alloc.free == old(v.alloc.free)
    ensures r.Mapped? ==>
              && Ok(v, r.ino) && r.ino.size == ino.size && 0 < r.blk < v.alloc.geo.total
              && old(v.alloc.free) >= PathMissing(old(Trees(v, ino)), v.p, lb)
              && MapGrown(old(Trees(v, ino)), Trees(v, r.ino), v.p, lb, r.blk, old(v.alloc.Used()), v.alloc.Used())
              && v.alloc.free + PathMissing(old(Trees(v, ino)), v.p, lb) == old(v.alloc.free)
              && r.ino.sectors == ino.sectors + SectorsPerBlock(v.p) * PathMissing(old(Trees(v, ino)), v.p, lb)
              && SameOutside(old(v.disk), v.disk,
                             AllTables(old(Trees(v, ino)))
                                 + (AllBlocks(Trees(v, r.ino)) - AllBlocks(old(Trees(v, ino)))))
  {
    hide *;
    v.Shaped();
    OkFacts(v, ino);
    ghost var ts := Trees(v, ino);
    var path := BlockPath(v.p, lb);
    PathFacts(ts, v.p, lb);
    if path.None? { return IoError; }
    var slot, rem := path.value.slot, path.value.rem;
    LevelBound(slot);
    var depth := Level(slot);
    SeparateFacts(ts, v.p, slot);
    var mapped, needed := Walk(v, ino.slots[slot], depth, rem);
    if mapped != 0 { return IoError; }
    if v.alloc.free < needed { return NoSpace; }

    ghost var d0, used0, t := v.disk, v.alloc.Used(), ts[slot];
    var cur := ino.slots[slot];
    HoleTree(v.disk, v.p, cur, depth);
    var added: nat := 0;
    ghost var linked: set<nat> := {};
    SameOutsideStart(v.disk, {});
    MissingPositive(t, v.p, depth, rem);
    if cur == 0 {
      cur := v.NewPointer(depth, goal);
      added := 1;
      SproutFacts(cur, v.p, depth);
      SproutReady(cur, v.p, depth, rem);
      linked := {cur};
    }
    v.Shaped();
    ghost var c0, used1, d1 := TreeOf(v.disk, v.p, cur, depth), v.alloc.Used(), v.disk;
    var blk := cur;
    if depth == 0 {
      SameOutsideStart(v.disk, Tables(c0) + (Blocks(c0) - Blocks(c0)));
      GrownLeaf(c0, t, v.p, rem, cur, used0, used1);
    } else {
      var more;
      blk, more := v.MapBelow(cur, depth, rem, goal);
      added := added + more;
      v.Shaped();
      GrownSets(c0, TreeOf(v.disk, v.p, cur, depth), v.p, depth, rem, blk, used1, v.alloc.Used());
      GrownChild(c0, TreeOf(v.disk, v.p, cur, depth), t, v.p, depth, rem, blk, used0, used1, v.alloc.Used(), cur);
    }
    ghost var c1 := TreeOf(v.disk, v.p, cur, depth);
    GrownSets(t, c1, v.p, depth, rem, blk, used0, v.alloc.Used());
    ghost var stirred := Tables(c0) + (Blocks(c1) - Blocks(c0));
    ghost var changed := Tables(t) + (Blocks(c1) - Blocks(t));
    SameOutsideChain(d0, d1, v.disk, linked, stirred);
    SlotChanged(c0, c1, t, cur, linked);
    SameOutsideWiden(d0, v.disk, linked + stirred, changed);
    var out := Inode(ino.slots[slot := cur], ino.sectors + Times(SectorsPerBlock(v.p), added), ino.size);
    GrownSlots(ts, v.p, slot, c1, changed, used0);
    OtherSlots(d0, v.disk, v.p, ino.slots, out.slots, ts, slot, c1, changed);
    TreesAre(v, out);
    MapGrownFrom(ts, v.p, lb, slot, rem, c1, blk, used0, v.alloc.Used(), ino.sectors, added);
    OkFrom(v, out);
    SameOutsideWiden(d0, v.disk, changed, AllTables(ts) + (AllBlocks(Trees(v, out)) - AllBlocks(ts)));
    return Mapped(out, blk);
  }

  function Times(a: nat, b: nat): (r: nat)
    ensures r == a * b
  {
    ProductPositive(a, b); a * b
  }

  // Blocks that must be allocated to map a logical block.
  function PathMissing(ts: seq<Tree>, p: nat, lb: nat): nat
    requires |ts| == SLOTS && p > 0
  {
    match BlockPath(p, lb)
    case None => 0
    case Some(path) => Missing(ts[path.slot], p, Level(path.slot), path.rem)
  }

  lemma PathFacts(ts: seq<Tree>, p: nat, lb: nat)
    requires |ts| == SLOTS && p > 0
    ensures var path := BlockPath(p, lb);
            && (path.Some? <==> lb < MaxBlocks(p))
            && (path.Some? ==>
                  MapIn(ts, p, lb) == Lookup(ts[path.value.slot], p, Level(path.value.slot), path.value.rem)
                               && PathMissing(ts, p, lb)
                                  == Missing(ts[path.value.slot], p, Level(path.value.slot), path.value.rem))
            && (path.None? ==> MapIn(ts, p, lb) == 0)
  {
  }

  lemma LevelBound(slot: nat)
    requires slot < SLOTS
    ensures Level(slot) <= 3
  {
  }

  lemma {:induction false} MissingPositive(t: Tree, p: nat, level: nat, idx: nat)
    requires p > 0 && Proper(t, p, level)
    ensures t.Hole? ==> Missing(t, p, level, idx) == level + 1 && Blocks(t) == {} && Tables(t) == {} && Count(t) == 0
    ensures level == 0 && Lookup(t, p, level, idx) == 0 ==> t.Hole?
  {
  }

  lemma SlotChanged(c0: Tree, c1: Tree, t: Tree, cur: nat, linked: set<nat>)
    requires Blocks(c0) <= Blocks(c1) && Blocks(t) <= Blocks(c1)
    requires (c0 == t && linked == {})
             || (Blocks(t) == {} && Blocks(c0) == {cur} && Tables(c0) <= {cur} && linked == {cur})
    ensures linked + (Tables(c0) + (Blocks(c1) - Blocks(c0))) <= Tables(t) + (Blocks(c1) - Blocks(t))
  {
    hide Blocks, Tables;
  }

  lemma {:induction false} ReplaceOne(ts: seq<Tree>, i: nat, c: Tree)
    requires i < |ts| && Blocks(ts[i]) <= Blocks(c)
    ensures AllBlocks(ts[i := c]) == AllBlocks(ts) + Blocks(c)
    ensures AllCount(ts[i := c]) == AllCount(ts) - Count(ts[i]) + Count(c)
  {
    var last := |ts| - 1;
    if i == last {
      assert ts[i := c][..last] == ts[..last];
    } else {
      assert ts[i := c][..last] == ts[..last][i := c];
      ReplaceOne(ts[..last], i, c);
    }
  }

  lemma GrownSlots(ts: seq<Tree>, p: nat, slot: nat, c: Tree, changed: set<nat>, used0: set<nat>)
    requires Separate(ts, p) && slot < SLOTS && Proper(c, p, Level(slot)) && Blocks(ts[slot]) <= Blocks(c)
             && AllBlocks(ts) <= used0
    requires (Blocks(c) - Blocks(ts[slot])) !! used0 && changed == Tables(ts[slot]) + (Blocks(c) - Blocks(ts[slot]))
    ensures Separate(ts[slot := c], p)
    ensures forall j :: 0 <= j < SLOTS && j != slot ==> Blocks(ts[j]) !! changed
  {
    hide Proper, Blocks, Tables, AllBlocks;
    TablesAreBlocks(ts[slot], p, Level(slot));
    forall j | 0 <= j < SLOTS && j != slot ensures Blocks(ts[j]) !! Blocks(c) {
      MemberBlocks(ts, j);
      assert Blocks(c) == Blocks(ts[slot]) + (Blocks(c) - Blocks(ts[slot]));
    }
  }

  lemma MapGrownFrom(ts: seq<Tree>, p: nat, lb: nat, slot: nat, rem: nat, c: Tree, blk: nat, used0: set<nat>,
      used: set<nat>,
                     sectors: nat, added: nat)
    requires p > 0 && Separate(ts, p) && BlockPath(p, lb) == Some(Path(slot, rem)) && slot < SLOTS
    requires Separate(ts[slot := c], p) && Grown(ts[slot], c, p, Level(slot), rem, blk, used0, used)
             && AllBlocks(ts) <= used0
    requires SectorsPerBlock(p) * AllCount(ts) <= sectors && Count(c) == Count(ts[slot]) + added
    ensures var ts' := ts[slot := c];
            && MapGrown(ts, ts', p, lb, blk, used0, used) && AllBlocks(ts') <= used
            && AllBlocks(ts') - AllBlocks(ts) == Blocks(c) - Blocks(ts[slot]) && Tables(ts[slot]) <= AllTables(ts)
            && SectorsPerBlock(p) * AllCount(ts') <= sectors + SectorsPerBlock(p) * added
  {
    hide Proper, Blocks, Tables, AllBlocks, AllTables, AllCount, Count, Lookup, SectorsPerBlock, Span;
    var ts' := ts[slot := c];
    ReplaceOne(ts, slot, c);
    MemberBlocks(ts, slot);
    MemberTables(ts, slot);
    Distribute(SectorsPerBlock(p), added, AllCount(ts));
    forall k: nat ensures MapIn(ts', p, k) == if k == lb then blk else MapIn(ts, p, k) {
      SameSlotOtherIndex(p, lb, k);
    }
  }

  lemma SameSlotOtherIndex(p: nat, a: nat, b: nat)
    ensures BlockPath(p, a).Some? && BlockPath(p, b).Some? && BlockPath(p, a) == BlockPath(p, b) ==> a == b
  {
    hide Span;
  }
}
