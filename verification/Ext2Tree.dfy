/**
 The block tree of an ext2 inode: what an indirect block maps, which blocks it occupies, and
 what trimming and growing do to both.
 */
module Ext2Tree {
  type Byte = x: int | 0 <= x < 256

  // Block contents by block number; an indirect block is a table of little-endian 32-bit
  // block numbers, 0 marking a hole.
  type Disk = map<nat, seq<Byte>>

  function Assemble(a: int, b: int, c: int, d: int): int { a + 0x100 * b + 0x1_0000 * c + 0x100_0000 * d }

  function Word(bytes: seq<Byte>, i: nat): nat
    requires 4 * i + 4 <= |bytes|
  {
    Assemble(bytes[4 * i], bytes[4 * i + 1], bytes[4 * i + 2], bytes[4 * i + 3])
  }

  function Words(bytes: seq<Byte>, p: nat): (t: seq<nat>)
    requires |bytes| == 4 * p
    ensures |t| == p && forall i :: 0 <= i < p ==> t[i] == Word(bytes, i) < 0x1_0000_0000
  {
    seq(p, i requires 0 <= i < p => Word(bytes, i))
  }

  function WordByte(w: nat, k: nat): Byte {
    (if k == 0 then w else if k == 1 then w / 0x100 else if k == 2 then w / 0x1_0000 else w / 0x100_0000) % 0x100
  }

  function Encode(ptrs: seq<nat>): (bytes: seq<Byte>)
    ensures |bytes| == 4 * |ptrs|
  {
    seq(4 * |ptrs|, k requires 0 <= k < 4 * |ptrs| => WordByte(ptrs[k / 4], k % 4))
  }

  /** A table survives being written to a block and read back. */
  lemma TableRoundTrip(ptrs: seq<nat>)
    requires forall i :: 0 <= i < |ptrs| ==> ptrs[i] < 0x1_0000_0000
    ensures Words(Encode(ptrs), |ptrs|) == ptrs
  {
    hide WordByte, Assemble;
    forall i | 0 <= i < |ptrs| ensures Words(Encode(ptrs), |ptrs|)[i] == ptrs[i] {
      WordRoundTrip(ptrs[i]);
      forall k | 0 <= k < 4 ensures Encode(ptrs)[4 * i + k] == WordByte(ptrs[i], k) {
        assert (4 * i + k) / 4 == i && (4 * i + k) % 4 == k;
      }
    }
  }

  lemma WordRoundTrip(w: nat)
    requires w < 0x1_0000_0000
    ensures Assemble(WordByte(w, 0), WordByte(w, 1), WordByte(w, 2), WordByte(w, 3)) == w
  {
    var a, b, c := w / 0x100, w / 0x1_0000, w / 0x100_0000;
    assert b == a / 0x100 && c == b / 0x100 by {
      DivideTwice(w, 0x100);
      DivideTwice(w, 0x1_0000);
    }
    assert w == 0x100 * a + w % 0x100 && a == 0x100 * b + a % 0x100 && b == 0x100 * c + b % 0x100;
  }

  lemma DivideTwice(w: nat, d: nat)
    requires d == 0x100 || d == 0x1_0000
    ensures w / d / 0x100 == w / (d * 0x100)
  {
  }

  lemma {:induction false} ZeroTable(p: nat)
    ensures Words(seq(4 * p, _ => 0), p) == seq(p, _ => 0)
  {
  }

  datatype Tree = Hole | Leaf(blk: nat) | Node(blk: nat, kids: seq<Tree>)

  // Logical blocks below one pointer of a tree with p pointers per table.
  function Span(p: nat, level: nat): (s: nat)
    ensures p > 0 ==> s > 0
  {
    if level == 0 then 1 else ProductPositive(p, Span(p, level - 1)); p * Span(p, level - 1)
  }

  lemma ProductPositive(a: nat, b: nat)
    ensures a > 0 && b > 0 ==> a * b > 0
    ensures a * b >= 0
  {
  }

  // Reading the tree below a pointer off the disk.
  function TreeOf(disk: Disk, p: nat, ptr: nat, level: nat): Tree
    decreases level, 0
  {
    if ptr == 0 then Hole
    else if level == 0 then Leaf(ptr)
    else Node(ptr, TreesOf(disk, p, PtrsAt(disk, p, ptr), level - 1))
  }

  function TreesOf(disk: Disk, p: nat, ptrs: seq<nat>, level: nat): (ts: seq<Tree>)
    ensures |ts| == |ptrs|
    ensures forall i :: 0 <= i < |ptrs| ==> ts[i] == TreeOf(disk, p, ptrs[i], level)
    decreases level, 1
  {
    seq(|ptrs|, i requires 0 <= i < |ptrs| => TreeOf(disk, p, ptrs[i], level))
  }

  // The table in a block.  Pointers never lead off the disk; a missing block reads as holes.
  function PtrsAt(disk: Disk, p: nat, ptr: nat): (t: seq<nat>)
    ensures |t| == p
  {
    if ptr in disk && |disk[ptr]| == 4 * p then Words(disk[ptr], p) else seq(p, _ => 0)
  }

  // ---------- what a tree occupies ----------

  function Blocks(t: Tree): set<nat> {
    match t
    case Hole => {}
    case Leaf(b) => {b}
    case Node(b, kids) => {b} + AllBlocks(kids)
  }

  function AllBlocks(ts: seq<Tree>): set<nat> {
    if ts == [] then {} else AllBlocks(ts[..|ts| - 1]) + Blocks(ts[|ts| - 1])
  }

  // The indirect blocks of a tree, without its data blocks.
  function Tables(t: Tree): set<nat> {
    match t
    case Hole => {}
    case Leaf(b) => {}
    case Node(b, kids) => {b} + AllTables(kids)
  }

  function AllTables(ts: seq<Tree>): set<nat> {
    if ts == [] then {} else AllTables(ts[..|ts| - 1]) + Tables(ts[|ts| - 1])
  }

  function Count(t: Tree): nat {
    match t
    case Hole => 0
    case Leaf(b) => 1
    case Node(b, kids) => 1 + AllCount(kids)
  }

  function AllCount(ts: seq<Tree>): nat {
    if ts == [] then 0 else AllCount(ts[..|ts| - 1]) + Count(ts[|ts| - 1])
  }

  // No block is reachable twice, and the shape fits the level.
  ghost predicate Proper(t: Tree, p: nat, level: nat) {
    match t
    case Hole => true
    case Leaf(b) => level == 0 && b != 0
    case Node(b, kids) => level > 0 && b != 0 && |kids| == p && b !in AllBlocks(kids) && AllProper(kids, p, level - 1)
  }

  ghost predicate AllProper(ts: seq<Tree>, p: nat, level: nat) {
    ts != [] ==>
      var last := |ts| - 1;
      AllProper(ts[..last], p, level) && Proper(ts[last], p, level) && AllBlocks(ts[..last]) !! Blocks(ts[last])
  }

  // ---------- the mapping ----------

  // The child an index falls into when each child maps Span(p, level) blocks, and what is left.
  function Quot(p: nat, level: nat, idx: nat): nat
    requires p > 0
  {
    idx / Span(p, level)
  }

  function Rest(p: nat, level: nat, idx: nat): nat
    requires p > 0
  {
    idx % Span(p, level)
  }

  // The data block a tree maps at an index, 0 for a hole.
  function Lookup(t: Tree, p: nat, level: nat, idx: nat): nat
    requires p > 0
    decreases level
  {
    match t
    case Hole => 0
    case Leaf(b) => b
    case Node(b, kids) =>
      if level == 0 then 0
      else
        var i := Quot(p, level - 1, idx);
        if i < |kids| then Lookup(kids[i], p, level - 1, Rest(p, level - 1, idx)) else 0
  }

  lemma Euclid(a: nat, s: nat)
    requires s > 0
    ensures a == a / s * s + a % s && a % s < s
  {
  }

  lemma QuotientBound(a: nat, p: nat, s: nat)
    requires s > 0 && a < p * s
    ensures a / s < p
  {
    Euclid(a, s);
    if a / s >= p { ProductMonotone(p, a / s, s); }
  }

  lemma ProductMonotone(a: nat, b: nat, s: nat)
    requires a <= b
    ensures a * s <= b * s
  {
  }

  lemma QuotientIs(i: nat, r: nat, s: nat)
    requires r < s
    ensures (i * s + r) / s == i && (i * s + r) % s == r
  {
    Euclid(i * s + r, s);
    var q, m := (i * s + r) / s, (i * s + r) % s;
    if q < i { ProductMonotone(q + 1, i, s); }
    if q > i { ProductMonotone(i + 1, q, s); }
  }

  // ---------- sequences of trees ----------

  lemma {:induction false} MemberBlocks(ts: seq<Tree>, i: nat)
    requires i < |ts|
    ensures Blocks(ts[i]) <= AllBlocks(ts)
  {
    if i < |ts| - 1 { MemberBlocks(ts[..|ts| - 1], i); }
  }

  lemma {:induction false} MemberProper(ts: seq<Tree>, p: nat, level: nat, i: nat)
    requires AllProper(ts, p, level) && i < |ts|
    ensures Proper(ts[i], p, level)
  {
    if i < |ts| - 1 { MemberProper(ts[..|ts| - 1], p, level, i); }
  }

  lemma {:induction false} MembersDisjoint(ts: seq<Tree>, p: nat, level: nat, i: nat, j: nat)
    requires AllProper(ts, p, level) && i < j < |ts|
    ensures Blocks(ts[i]) !! Blocks(ts[j])
  {
    if j == |ts| - 1 { MemberBlocks(ts[..j], i); } else { MembersDisjoint(ts[..|ts| - 1], p, level, i, j); }
  }

  lemma {:induction false} BlocksFrom(ts: seq<Tree>, b: nat) returns (i: nat)
    requires b in AllBlocks(ts)
    ensures i < |ts| && b in Blocks(ts[i])
  {
    if b in Blocks(ts[|ts| - 1]) { i := |ts| - 1; } else { i := BlocksFrom(ts[..|ts| - 1], b); }
  }

  lemma {:induction false} MemberTables(ts: seq<Tree>, i: nat)
    requires i < |ts|
    ensures Tables(ts[i]) <= AllTables(ts)
  {
    if i < |ts| - 1 { MemberTables(ts[..|ts| - 1], i); }
  }

  lemma {:induction false} TablesAreBlocks(t: Tree, p: nat, level: nat)
    requires Proper(t, p, level)
    ensures Tables(t) <= Blocks(t)
    decreases level, 0
  {
    if t.Node? { AllTablesAreBlocks(t.kids, p, level - 1); }
  }

  lemma {:induction false} AllTablesAreBlocks(ts: seq<Tree>, p: nat, level: nat)
    requires AllProper(ts, p, level)
    ensures AllTables(ts) <= AllBlocks(ts)
    decreases level, 1, |ts|
  {
    if ts != [] {
      var last := |ts| - 1;
      AllTablesAreBlocks(ts[..last], p, level);
      TablesAreBlocks(ts[last], p, level);
    }
  }

  // A mapped block is a data block of the tree, never one of its tables.
  lemma {:induction false} LookupIsData(t: Tree, p: nat, level: nat, idx: nat)
    requires p > 0 && Proper(t, p, level)
    ensures Lookup(t, p, level, idx) != 0 ==>
              Lookup(t, p, level, idx) in Blocks(t) && Lookup(t, p, level, idx) !in Tables(t)
    decreases level
  {
    if t.Node? {
      hide Span, Quot, Rest;
      var i := Quot(p, level - 1, idx);
      if i < |t.kids| {
        MemberProper(t.kids, p, level - 1, i);
        MemberBlocks(t.kids, i);
        LookupIsData(t.kids[i], p, level - 1, Rest(p, level - 1, idx));
        var b := Lookup(t, p, level, idx);
        if b != 0 && b in AllTables(t.kids) {
          var j := TablesFrom(t.kids, b);
          MemberProper(t.kids, p, level - 1, j);
          TablesAreBlocks(t.kids[j], p, level - 1);
          if j < i { MembersDisjoint(t.kids, p, level - 1, j, i); }
          if i < j { MembersDisjoint(t.kids, p, level - 1, i, j); }
        }
      }
    }
  }

  lemma {:induction false} TablesFrom(ts: seq<Tree>, b: nat) returns (i: nat)
    requires b in AllTables(ts)
    ensures i < |ts| && b in Tables(ts[i])
  {
    if b in Tables(ts[|ts| - 1]) { i := |ts| - 1; } else { i := TablesFrom(ts[..|ts| - 1], b); }
  }

  // Distinct indices map distinct blocks.
  lemma {:induction false} LookupInjective(t: Tree, p: nat, level: nat, i: nat, j: nat)
    requires p > 0 && Proper(t, p, level) && i < Span(p, level) && j < Span(p, level)
    requires Lookup(t, p, level, i) == Lookup(t, p, level, j) != 0
    ensures i == j
    decreases level
  {
    if level == 0 {
      SpanZero(p);
    } else {
      LookupChild(t, p, level, i);
      LookupChild(t, p, level, j);
      hide Quot, Rest, Span, Lookup, Proper, AllProper, NthBase, Blocks, Tables;
      var x, y := Quot(p, level - 1, i), Quot(p, level - 1, j);
      if x < y { MembersDisjoint(t.kids, p, level - 1, x, y); }
      if y < x { MembersDisjoint(t.kids, p, level - 1, y, x); }
      LookupInjective(t.kids[x], p, level - 1, Rest(p, level - 1, i), Rest(p, level - 1, j));
    }
  }

  lemma LookupChild(t: Tree, p: nat, level: nat, idx: nat)
    requires p > 0 && level > 0 && Proper(t, p, level) && idx < Span(p, level) && Lookup(t, p, level, idx) != 0
    ensures var i, r := Quot(p, level - 1, idx), Rest(p, level - 1, idx);
            && t.Node? && |t.kids| == p && AllProper(t.kids, p, level - 1) && i < p && r < Span(p, level - 1)
            && Proper(t.kids[i], p, level - 1) && NthBase(p, level - 1, 0, i) + r == idx
            && Lookup(t, p, level, idx) == Lookup(t.kids[i], p, level - 1, r)
            && Lookup(t, p, level, idx) in Blocks(t.kids[i])
  {
    hide Quot, Rest, Span, NthBase, Blocks, Tables, AllBlocks;
    ChildIndex(p, level, 0, idx);
    MemberProper(t.kids, p, level - 1, Quot(p, level - 1, idx));
    LookupIsData(t.kids[Quot(p, level - 1, idx)], p, level - 1, Rest(p, level - 1, idx));
  }

  // A tree depends only on its own tables.
  lemma {:induction false} TreeFrame(d1: Disk, d2: Disk, p: nat, ptr: nat, level: nat)
    requires forall b <- Tables(TreeOf(d1, p, ptr, level)) :: PtrsAt(d1, p, b) == PtrsAt(d2, p, b)
    ensures TreeOf(d2, p, ptr, level) == TreeOf(d1, p, ptr, level)
    decreases level
  {
    hide PtrsAt;
    if ptr != 0 && level > 0 {
      var ptrs := PtrsAt(d1, p, ptr);
      var kids := TreesOf(d1, p, ptrs, level - 1);
      forall i | 0 <= i < p ensures TreesOf(d2, p, ptrs, level - 1)[i] == kids[i] {
        MemberTables(kids, i);
        TreeFrame(d1, d2, p, ptrs[i], level - 1);
      }
    }
  }

  // In a proper tree every block is counted once.
  lemma {:induction false} CountIsSize(t: Tree, p: nat, level: nat)
    requires Proper(t, p, level)
    ensures |Blocks(t)| == Count(t)
    decreases level, 0
  {
    if t.Node? { AllCountIsSize(t.kids, p, level - 1); }
  }

  lemma {:induction false} AllCountIsSize(ts: seq<Tree>, p: nat, level: nat)
    requires AllProper(ts, p, level)
    ensures |AllBlocks(ts)| == AllCount(ts)
    decreases level, 1, |ts|
  {
    if ts != [] {
      var last := |ts| - 1;
      AllCountIsSize(ts[..last], p, level);
      CountIsSize(ts[last], p, level);
    }
  }

  // ---------- trimming ----------

  predicate AllHoles(ts: seq<Tree>) { forall i :: 0 <= i < |ts| ==> ts[i].Hole? }

  // The tree cut at logical block `keep`; an indirect block goes with the last block below it.  `base` is the
  // first logical block covered.
  function Trim(t: Tree, p: nat, level: nat, base: nat, keep: nat): Tree
    decreases level, 0
  {
    if t.Hole? || base + Span(p, level) <= keep then t
    else if t.Leaf? || level == 0 then Hole
    else
      var kids := TrimAll(t.kids, p, level - 1, base, keep);
      if AllHoles(kids) then Hole else Node(t.blk, kids)
  }

  // First logical block below the i-th pointer of a table.
  function NthBase(p: nat, level: nat, base: nat, i: nat): nat {
    ProductPositive(i, Span(p, level)); base + i * Span(p, level)
  }

  function TrimAll(ts: seq<Tree>, p: nat, level: nat, base: nat, keep: nat): (r: seq<Tree>)
    ensures |r| == |ts|
    ensures forall i :: 0 <= i < |ts| ==> r[i] == Trim(ts[i], p, level, NthBase(p, level, base, i), keep)
    decreases level, 1
  {
    seq(|ts|, i requires 0 <= i < |ts| => Trim(ts[i], p, level, NthBase(p, level, base, i), keep))
  }

  /** Trimming keeps every logical block below `keep` and makes a hole of every later one. */
  lemma {:induction false} TrimLookup(t: Tree, p: nat, level: nat, base: nat, keep: nat, idx: nat)
    requires p > 0 && Proper(t, p, level) && idx < Span(p, level)
    ensures Lookup(Trim(t, p, level, base, keep), p, level, idx) ==
            if base + idx < keep then Lookup(t, p, level, idx) else 0
    decreases level
  {
    hide Span, Quot, Rest, AllBlocks, NthBase;
    if t.Hole? || level == 0 {
      SpanZero(p);
    } else if base + Span(p, level) <= keep {
    } else {
      var i, r := Quot(p, level - 1, idx), Rest(p, level - 1, idx);
      ChildIndex(p, level, base, idx);
      MemberProper(t.kids, p, level - 1, i);
      TrimLookup(t.kids[i], p, level - 1, NthBase(p, level - 1, base, i), keep, r);
      var kids := TrimAll(t.kids, p, level - 1, base, keep);
      if AllHoles(kids) { assert kids[i].Hole?; }
    }
  }

  lemma SpanZero(p: nat)
    ensures Span(p, 0) == 1
  {
  }

  lemma NthBaseIs(p: nat, level: nat, base: nat, i: nat)
    ensures NthBase(p, level, base, i) == base + i * Span(p, level)
  {
  }

  // Splitting an index into the child it falls into and the rest.
  lemma ChildIndex(p: nat, level: nat, base: nat, idx: nat)
    requires p > 0 && level > 0 && idx < Span(p, level)
    ensures var i, r := Quot(p, level - 1, idx), Rest(p, level - 1, idx);
            i < p && r < Span(p, level - 1) && NthBase(p, level - 1, base, i) + r == base + idx
  {
    var s := Span(p, level - 1);
    Euclid(idx, s);
    QuotientBound(idx, p, s);
  }

  /** Trimming only drops blocks, and what is left is still proper. */
  lemma {:induction false} TrimProper(t: Tree, p: nat, level: nat, base: nat, keep: nat)
    requires Proper(t, p, level)
    ensures Proper(Trim(t, p, level, base, keep), p, level)
    ensures Blocks(Trim(t, p, level, base, keep)) <= Blocks(t)
    decreases level, 1, 0
  {
    if t.Node? && base + Span(p, level) > keep {
      TrimAllProper(t.kids, TrimAll(t.kids, p, level - 1, base, keep), p, level - 1, base, keep);
    }
  }

  // The prefix form lets the induction follow AllProper.
  lemma {:induction false} TrimAllProper(ts: seq<Tree>, rs: seq<Tree>, p: nat, level: nat, base: nat, keep: nat)
    requires AllProper(ts, p, level) && |rs| == |ts|
    requires forall i :: 0 <= i < |ts| ==> rs[i] == Trim(ts[i], p, level, NthBase(p, level, base, i), keep)
    ensures AllProper(rs, p, level) && AllBlocks(rs) <= AllBlocks(ts)
    decreases level, 2, |ts|
  {
    if ts != [] {
      var last := |ts| - 1;
      TrimAllProper(ts[..last], rs[..last], p, level, base, keep);
      TrimProper(ts[last], p, level, NthBase(p, level, base, last), keep);
    }
  }

  // ---------- growing ----------

  // What a freshly allocated pointer leads to: a data block, or a table of holes.
  function Sprout(b: nat, p: nat, level: nat): Tree { if level == 0 then Leaf(b) else Node(b, seq(p, _ => Hole)) }

  // Blocks that must be allocated to map an index.
  function Missing(t: Tree, p: nat, level: nat, idx: nat): nat
    requires p > 0
    decreases level
  {
    match t
    case Hole => level + 1
    case Leaf(b) => 0
    case Node(b, kids) =>
      if level == 0 then 0
      else
        var i := Quot(p, level - 1, idx);
        if i < |kids| then Missing(kids[i], p, level - 1, Rest(p, level - 1, idx)) else 0
  }

  lemma {:induction false} EmptyKids(p: nat, level: nat, n: nat)
    ensures AllProper(seq(n, _ => Hole), p, level) && AllBlocks(seq(n, _ => Hole)) == {}
    ensures AllTables(seq(n, _ => Hole)) == {} && AllCount(seq(n, _ => Hole)) == 0
  {
    if n > 0 {
      EmptyKids(p, level, n - 1);
      assert seq(n, _ => Hole)[..n - 1] == seq(n - 1, _ => Hole);
    }
  }

  lemma SproutFacts(b: nat, p: nat, level: nat)
    requires b != 0 && p > 0
    ensures var t := Sprout(b, p, level);
            && Proper(t, p, level) && Blocks(t) == {b} && Count(t) == 1 && Tables(t) <= {b}
            && (forall j :: 0 <= j < Span(p, level) ==> Lookup(t, p, level, j) == if level == 0 then b else 0)
            && (forall j :: 0 <= j < Span(p, level) ==> Missing(t, p, level, j) == level)
  {
    if level > 0 {
      EmptyKids(p, level - 1, p);
      hide Span, Quot, Rest;
      forall j: nat | j < Span(p, level)
        ensures Lookup(Sprout(b, p, level), p, level, j) == 0 && Missing(Sprout(b, p, level), p, level, j) == level
      {
        ChildIndex(p, level, 0, j);
      }
    }
  }

  // One child replaced by a tree that contains it.
  lemma {:induction false} KidGrown(kids: seq<Tree>, p: nat, level: nat, i: nat, c: Tree)
    requires AllProper(kids, p, level) && i < |kids| && Proper(c, p, level) && Blocks(kids[i]) <= Blocks(c)
    requires (Blocks(c) - Blocks(kids[i])) !! AllBlocks(kids)
    ensures AllProper(kids[i := c], p, level) && AllBlocks(kids[i := c]) == AllBlocks(kids) + Blocks(c)
    ensures AllCount(kids[i := c]) == AllCount(kids) - Count(kids[i]) + Count(c)
    ensures AllTables(kids[i := c]) <= AllTables(kids) + Tables(c)
  {
    var last := |kids| - 1;
    if i == last {
      assert kids[i := c][..last] == kids[..last];
    } else {
      assert kids[i := c][..last] == kids[..last][i := c];
      MemberBlocks(kids[..last], i);
      KidGrown(kids[..last], p, level, i, c);
    }
  }

  // c maps what t maps, and blk at idx.
  ghost predicate MapsOneMore(t: Tree, c: Tree, p: nat, level: nat, idx: nat, blk: nat)
    requires p > 0
  {
    forall j :: 0 <= j < Span(p, level) ==> Lookup(c, p, level, j) == if j == idx then blk else Lookup(t, p, level, j)
  }

  // A table one of whose children grew maps one more index.
  lemma NodeGrown(b: nat, kids: seq<Tree>, p: nat, level: nat, idx: nat, c: Tree, blk: nat)
    requires p > 0 && level > 0 && Proper(Node(b, kids), p, level) && idx < Span(p, level)
    requires var i := Quot(p, level - 1, idx);
             && i < p && Proper(c, p, level - 1) && Blocks(kids[i]) <= Blocks(c)
             && (Blocks(c) - Blocks(kids[i])) !! ({b} + AllBlocks(kids))
             && MapsOneMore(kids[i], c, p, level - 1, Rest(p, level - 1, idx), blk)
    ensures var i := Quot(p, level - 1, idx);
            var t := Node(b, kids[i := c]);
            && Proper(t, p, level) && Blocks(t) == Blocks(Node(b, kids)) + Blocks(c)
            && Count(t) == Count(Node(b, kids)) - Count(kids[i]) + Count(c)
            && Tables(t) <= Tables(Node(b, kids)) + Tables(c)
            && MapsOneMore(Node(b, kids), t, p, level, idx, blk)
  {
    hide Span, Quot, Rest;
    var i := Quot(p, level - 1, idx);
    KidGrown(kids, p, level - 1, i, c);
    MemberBlocks(kids, i);
    ChildIndex(p, level, 0, idx);
    var t := Node(b, kids[i := c]);
    forall j: nat | j < Span(p, level)
      ensures Lookup(t, p, level, j) == if j == idx then blk else Lookup(Node(b, kids), p, level, j)
    {
      ChildIndex(p, level, 0, j);
    }
  }
}
