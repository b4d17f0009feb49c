/**
 Block maps on a volume: resolving a logical block, releasing the tail of a tree and mapping a
 new block, as kernel/fs/ext2.c does them on the disk.
 */
module Ext2Volume {
  import opened Ext2Tree
  import opened Ext2Alloc

  // The disk differs at most in the given blocks.
  ghost predicate SameOutside(d1: Disk, d2: Disk, changed: set<nat>) {
    d1.Keys == d2.Keys && forall b <- d1 :: b !in changed ==> d1[b] == d2[b]
  }

  lemma PtrsOutside(d1: Disk, d2: Disk, p: nat, changed: set<nat>, b: nat)
    requires SameOutside(d1, d2, changed) && b !in changed
    ensures PtrsAt(d1, p, b) == PtrsAt(d2, p, b)
  {
  }

  lemma SameTree(d1: Disk, d2: Disk, p: nat, ptr: nat, level: nat, changed: set<nat>)
    requires SameOutside(d1, d2, changed) && Tables(TreeOf(d1, p, ptr, level)) !! changed
    ensures TreeOf(d2, p, ptr, level) == TreeOf(d1, p, ptr, level)
  {
    hide PtrsAt, SameOutside;
    forall b <- Tables(TreeOf(d1, p, ptr, level)) ensures PtrsAt(d1, p, b) == PtrsAt(d2, p, b) {
      PtrsOutside(d1, d2, p, changed, b);
    }
    TreeFrame(d1, d2, p, ptr, level);
  }

  lemma Extended(ts: seq<Tree>, i: nat)
    requires i < |ts|
    ensures AllBlocks(ts[..i + 1]) == AllBlocks(ts[..i]) + Blocks(ts[i])
    ensures AllCount(ts[..i + 1]) == AllCount(ts[..i]) + Count(ts[i])
  {
    assert ts[..i + 1][..i] == ts[..i];
  }

  lemma {:induction false} PrefixProper(ts: seq<Tree>, p: nat, level: nat, i: nat)
    requires AllProper(ts, p, level) && i <= |ts|
    ensures AllProper(ts[..i], p, level) && AllBlocks(ts[..i]) <= AllBlocks(ts)
  {
    if i < |ts| {
      var last := |ts| - 1;
      PrefixProper(ts[..last], p, level, i);
      assert ts[..last][..i] == ts[..i];
    } else {
      assert ts[..i] == ts;
    }
  }

  // The children of a table while its first i entries are done.
  function Mixed(rs: seq<Tree>, kids: seq<Tree>, i: nat): (m: seq<Tree>)
    requires i <= |kids| == |rs|
    ensures |m| == |kids|
  {
    rs[..i] + kids[i..]
  }

  lemma MixedEnds(rs: seq<Tree>, kids: seq<Tree>)
    requires |kids| == |rs|
    ensures Mixed(rs, kids, 0) == kids && Mixed(rs, kids, |kids|) == rs && AllHoles(rs[..0])
  {
  }

  lemma MixedAt(rs: seq<Tree>, kids: seq<Tree>, i: nat)
    requires i < |kids| == |rs|
    ensures Mixed(rs, kids, i)[i] == kids[i]
  {
  }

  lemma HolesNext(rs: seq<Tree>, i: nat)
    requires i < |rs|
    ensures AllHoles(rs[..i + 1]) <==> AllHoles(rs[..i]) && rs[i].Hole?
  {
    if AllHoles(rs[..i + 1]) { assert rs[..i + 1][i].Hole?; }
  }

  lemma MixedNext(disk: Disk, p: nat, level: nat, table: seq<nat>, table': seq<nat>, kids: seq<Tree>, rs: seq<Tree>,
      i: nat)
    requires |kids| == |rs| == |table| && i < |kids| && (table' == table || table' == table[i := 0])
    requires forall j :: 0 <= j < |kids| && j != i ==> TreeOf(disk, p, table[j], level) == Mixed(rs, kids, i)[j]
    requires TreeOf(disk, p, table'[i], level) == rs[i]
    ensures TreesOf(disk, p, table', level) == Mixed(rs, kids, i + 1)
  {
    hide TreeOf;
    var left, right := TreesOf(disk, p, table', level), Mixed(rs, kids, i + 1);
    forall j | 0 <= j < |kids| ensures left[j] == right[j] {
      if j != i { assert Mixed(rs, kids, i)[j] == right[j]; }
    }
  }

  lemma ReleasedAll(kids: seq<Tree>, rs: seq<Tree>, used0: set<nat>, used: set<nat>, freed: nat, blk: nat)
    requires |kids| == |rs| && Released(kids, rs, |kids|, used0, used, freed)
    requires blk !in AllBlocks(kids) && AllBlocks(rs[..|kids|]) <= AllBlocks(kids[..|kids|])
    ensures var r := if AllHoles(rs) then Hole else Node(blk, rs);
            && used == used0 - (({blk} + AllBlocks(kids)) - (Blocks(r) + {blk}))
            && freed + (if r.Hole? then 1 else Count(r)) == 1 + AllCount(kids)
  {
    assert kids[..|kids|] == kids && rs[..|kids|] == rs;
    if AllHoles(rs) { NoBlocks(rs); }
  }

  lemma {:induction false} NoBlocks(ts: seq<Tree>)
    requires AllHoles(ts)
    ensures AllBlocks(ts) == {} && AllCount(ts) == 0
  {
    if ts != [] { NoBlocks(ts[..|ts| - 1]); }
  }

  // A table written back holds the trimmed tree.
  lemma Rebuilt(d1: Disk, d2: Disk, p: nat, blk: nat, level: nat, table: seq<nat>, rs: seq<Tree>)
    requires level > 0 && blk != 0 && |table| == p && TreesOf(d1, p, table, level - 1) == rs && blk !in AllBlocks(rs)
    requires SameOutside(d1, d2, {blk}) && AllProper(rs, p, level - 1)
    ensures PtrsAt(d2, p, blk) == table ==> TreeOf(d2, p, blk, level) == Node(blk, rs)
  {
    hide SameOutside, PtrsAt, AllBlocks;
    forall j | 0 <= j < p ensures TreeOf(d2, p, table[j], level - 1) == rs[j] {
      MemberBlocks(rs, j);
      MemberProper(rs, p, level - 1, j);
      TablesAreBlocks(rs[j], p, level - 1);
      SameTree(d1, d2, p, table[j], level - 1, {blk});
    }
    assert TreesOf(d2, p, table, level - 1) == rs;
  }

  // Trimming one child leaves its neighbours alone.
  lemma NeighboursKept(d1: Disk, d2: Disk, p: nat, level: nat, table: seq<nat>, kids: seq<Tree>, rs: seq<Tree>,
      base: nat, keep: nat, i: nat)
    requires |kids| == |rs| == |table| && i < |kids| && AllProper(kids, p, level)
             && rs == TrimAll(kids, p, level, base, keep)
    requires TreesOf(d1, p, table, level) == Mixed(rs, kids, i) && SameOutside(d1, d2, Tables(kids[i]))
    ensures forall j :: 0 <= j < |kids| && j != i ==> TreeOf(d2, p, table[j], level) == Mixed(rs, kids, i)[j]
  {
    hide Proper, TreeOf, SameOutside, PtrsAt, Trim;
    forall j | 0 <= j < |kids| && j != i ensures TreeOf(d2, p, table[j], level) == Mixed(rs, kids, i)[j] {
      MemberProper(kids, p, level, j);
      TrimProper(kids[j], p, level, NthBase(p, level, base, j), keep);
      if j < i { MembersDisjoint(kids, p, level, j, i); } else { MembersDisjoint(kids, p, level, i, j); }
      MemberProper(kids, p, level, i);
      TablesAreBlocks(kids[i], p, level);
      TablesAreBlocks(Mixed(rs, kids, i)[j], p, level);
      assert Blocks(Mixed(rs, kids, i)[j]) <= Blocks(kids[j]);
      SameTree(d1, d2, p, table[j], level, Tables(kids[i]));
    }
  }

  // What the loop of TrimIndirect has released after i entries.
  ghost predicate Released(kids: seq<Tree>, rs: seq<Tree>, i: nat, used0: set<nat>, used: set<nat>, freed: nat)
    requires i <= |kids| == |rs|
  {
    && used == used0 - (AllBlocks(kids[..i]) - AllBlocks(rs[..i]))
    && freed + AllCount(rs[..i]) == AllCount(kids[..i])
  }

  lemma ReleasedMore(kids: seq<Tree>, rs: seq<Tree>, i: nat, used0: set<nat>, used: set<nat>, used': set<nat>,
      freed: nat, more: nat)
    requires |kids| == |rs| && i < |kids| && Released(kids, rs, i, used0, used, freed) && Blocks(kids[i]) <= used0
    requires AllBlocks(kids[..i]) !! Blocks(kids[i]) && AllBlocks(rs[..i]) <= AllBlocks(kids[..i])
             && Blocks(rs[i]) <= Blocks(kids[i])
    requires used' == used - (Blocks(kids[i]) - Blocks(rs[i])) && more + Count(rs[i]) == Count(kids[i])
    ensures Released(kids, rs, i + 1, used0, used', freed + more)
  {
    hide AllBlocks, AllCount, Blocks, Count;
    Extended(kids, i);
    Extended(rs, i);
  }

  lemma ReleasedStep(kids: seq<Tree>, rs: seq<Tree>, p: nat, level: nat, base: nat, keep: nat, i: nat,
                     used0: set<nat>, used: set<nat>, used': set<nat>, freed: nat, more: nat)
    requires |kids| == |rs| && i < |kids| && AllProper(kids, p, level) && rs == TrimAll(kids, p, level, base, keep)
    requires Released(kids, rs, i, used0, used, freed) && AllBlocks(kids) <= used0
    requires used' == used - (Blocks(kids[i]) - Blocks(rs[i])) && more + Count(rs[i]) == Count(kids[i])
    ensures Released(kids, rs, i + 1, used0, used', freed + more)
  {
    hide Proper, Trim, AllProper, AllBlocks, AllCount, Blocks, Count, NthBase, Released;
    PrefixTrim(kids, rs, p, level, base, keep, i);
    PrefixDisjoint(kids, p, level, i);
    MemberProper(kids, p, level, i);
    TrimProper(kids[i], p, level, NthBase(p, level, base, i), keep);
    MemberBlocks(kids, i);
    ReleasedMore(kids, rs, i, used0, used, used', freed, more);
  }

  lemma PrefixDisjoint(ts: seq<Tree>, p: nat, level: nat, i: nat)
    requires AllProper(ts, p, level) && i < |ts|
    ensures AllBlocks(ts[..i]) !! Blocks(ts[i])
  {
    PrefixProper(ts, p, level, i + 1);
    assert ts[..i + 1][..i] == ts[..i];
  }

  lemma PrefixTrim(kids: seq<Tree>, rs: seq<Tree>, p: nat, level: nat, base: nat, keep: nat, i: nat)
    requires |kids| == |rs| && i <= |kids| && AllProper(kids, p, level) && rs == TrimAll(kids, p, level, base, keep)
    ensures AllProper(rs[..i], p, level) && AllBlocks(rs[..i]) <= AllBlocks(kids[..i])
  {
    hide Trim, NthBase, AllProper, AllBlocks;
    PrefixProper(kids, p, level, i);
    TrimAllProper(kids[..i], rs[..i], p, level, base, keep);
  }

  // A block the loop has not reached is still allocated.
  lemma StillUsed(kids: seq<Tree>, rs: seq<Tree>, p: nat, level: nat, i: nat, used0: set<nat>, used: set<nat>,
      freed: nat)
    requires |kids| == |rs| && i < |kids| && AllProper(kids, p, level)
    requires Released(kids, rs, i, used0, used, freed) && AllBlocks(kids) <= used0
    ensures Blocks(kids[i]) <= used
  {
    MemberBlocks(kids, i);
    PrefixDisjoint(kids, p, level, i);
  }

  lemma NodeFacts(disk: Disk, p: nat, blk: nat, level: nat, base: nat, keep: nat)
    requires blk != 0 && level > 0 && base + Span(p, level) > keep && Proper(TreeOf(disk, p, blk, level), p, level)
    ensures var t := TreeOf(disk, p, blk, level);
            && t.Node? && t.blk == blk && t.kids == TreesOf(disk, p, PtrsAt(disk, p, blk), level - 1) && |t.kids| == p
            && AllProper(t.kids, p, level - 1) && blk !in AllBlocks(t.kids) && Blocks(t) == {blk} + AllBlocks(t.kids)
            && Tables(t) == {blk} + AllTables(t.kids) && AllTables(t.kids) <= AllBlocks(t.kids)
            && Count(t) == 1 + AllCount(t.kids)
    ensures var t := TreeOf(disk, p, blk, level);
            var rs := TrimAll(t.kids, p, level - 1, base, keep);
            Trim(t, p, level, base, keep) == (if AllHoles(rs) then Hole else Node(blk, rs))
  {
    hide Span, PtrsAt;
    AllTablesAreBlocks(TreeOf(disk, p, blk, level).kids, p, level - 1);
  }

  lemma ReleasedStart(kids: seq<Tree>, rs: seq<Tree>, used0: set<nat>)
    requires |kids| == |rs|
    ensures Released(kids, rs, 0, used0, used0, 0)
  {
  }

  lemma SameOutsideStart(d: Disk, changed: set<nat>)
    ensures SameOutside(d, d, changed)
  {
  }

  lemma SameOutsideChain(d0: Disk, d1: Disk, d2: Disk, a: set<nat>, b: set<nat>)
    requires SameOutside(d0, d1, a) && SameOutside(d1, d2, b)
    ensures SameOutside(d0, d2, a + b)
    ensures b <= a ==> SameOutside(d0, d2, a)
  {
  }

  lemma HoleTree(disk: Disk, p: nat, ptr: nat, level: nat)
    ensures TreeOf(disk, p, ptr, level).Hole? <==> ptr == 0
  {
  }

  lemma TrimHole(p: nat, level: nat, base: nat, keep: nat)
    ensures Trim(Hole, p, level, base, keep) == Hole && Blocks(Hole) == {} && Count(Hole) == 0
  {
  }

  lemma TrimCases(disk: Disk, p: nat, child: nat, level: nat, base: nat, keep: nat)
    requires child != 0
    ensures var t := TreeOf(disk, p, child, level);
            var r := Trim(t, p, level, base, keep);
            && (base + Span(p, level) <= keep ==> r == t) && !t.Hole? && child in Blocks(t)
            && (base + Span(p, level) > keep && level == 0 ==>
                  r == Hole && t == Leaf(child) && Blocks(t) == {child} && Count(t) == 1)
            && (r.Hole? ==> Blocks(r) == {} && Count(r) == 0) && (!r.Hole? ==> child in Blocks(r))
  {
    hide Span, PtrsAt, AllBlocks, AllCount;
  }

  // r is t with idx mapped to blk, using blocks that were free.
  ghost predicate Grown(t: Tree, r: Tree, p: nat, level: nat, idx: nat, blk: nat, used0: set<nat>, used: set<nat>)
    requires p > 0
  {
    && Proper(r, p, level) && Blocks(t) <= Blocks(r) && MapsOneMore(t, r, p, level, idx, blk)
    && used == used0 + Blocks(r) && (Blocks(r) - Blocks(t)) !! used0
  }

  // The child of a table that an index falls into.
  lemma GrowNode(disk: Disk, p: nat, cur: nat, level: nat, idx: nat)
    requires p > 0 && cur != 0 && level > 0 && idx < Span(p, level) && Proper(TreeOf(disk, p, cur, level), p, level)
    ensures var t := TreeOf(disk, p, cur, level);
            var i, rest := Quot(p, level - 1, idx), Rest(p, level - 1, idx);
            && i < p && rest < Span(p, level - 1) && t.Node? && t.blk == cur && cur in Blocks(t)
               && cur !in AllBlocks(t.kids)
            && t.kids == TreesOf(disk, p, PtrsAt(disk, p, cur), level - 1) && AllProper(t.kids, p, level - 1)
            && Proper(t.kids[i], p, level - 1) && Blocks(t.kids[i]) <= AllBlocks(t.kids) <= Blocks(t)
            && Tables(t.kids[i]) <= Blocks(t.kids[i]) && Tables(t.kids[i]) <= Tables(t) && cur in Tables(t)
            && Lookup(t, p, level, idx) == Lookup(t.kids[i], p, level - 1, rest)
            && Missing(t, p, level, idx) == Missing(t.kids[i], p, level - 1, rest)
            && (t.kids[i].Hole? ==> Missing(t, p, level, idx) == level && Blocks(t.kids[i]) == {}
                                    && Tables(t.kids[i]) == {}
                                    && Count(t.kids[i]) == 0)
  {
    hide Span, Quot, Rest, PtrsAt;
    ChildIndex(p, level, 0, idx);
    var t := TreeOf(disk, p, cur, level);
    var i := Quot(p, level - 1, idx);
    MemberProper(t.kids, p, level - 1, i);
    MemberBlocks(t.kids, i);
    MemberTables(t.kids, i);
    TablesAreBlocks(t.kids[i], p, level - 1);
  }

  // A new child hangs off the table.
  lemma LinkedNew(d0: Disk, d1: Disk, d2: Disk, p: nat, cur: nat, child: nat, level: nat, kid: Tree)
    requires level > 0 && kid.Hole? && SameOutside(d0, d1, {child}) && SameOutside(d1, d2, {cur}) && cur != child
    requires p > 0 && child != 0 && TreeOf(d1, p, child, level - 1) == Sprout(child, p, level - 1)
    ensures TreeOf(d2, p, child, level - 1) == Sprout(child, p, level - 1)
    ensures SameOutside(d0, d2, {cur} + {child})
  {
    SproutFacts(child, p, level - 1);
    hide SameOutside, Sprout, Span, PtrsAt;
    SameTree(d1, d2, p, child, level - 1, {cur});
    SameOutsideChain(d0, d1, d2, {child}, {cur});
    assert {child} + {cur} == {cur} + {child};
  }

  lemma SameOutsideWiden(d1: Disk, d2: Disk, a: set<nat>, b: set<nat>)
    requires SameOutside(d1, d2, a) && a <= b
    ensures SameOutside(d1, d2, b)
  {
  }

  lemma LeafHole(kid: Tree, p: nat, rest: nat)
    requires p > 0 && Proper(kid, p, 0) && Lookup(kid, p, 0, rest) == 0
    ensures kid.Hole?
  {
  }

  // The pointer of a lowest-level table: its new block is the data block.
  lemma GrownLeaf(c0: Tree, kid: Tree, p: nat, rest: nat, child: nat, used0: set<nat>, used: set<nat>)
    requires p > 0 && kid.Hole? && child != 0 && c0 == Sprout(child, p, 0) && rest < Span(p, 0)
    requires child !in used0 && used == used0 + {child}
    ensures Grown(kid, c0, p, 0, rest, child, used0, used)
  {
  }

  lemma GrownSets(t: Tree, r: Tree, p: nat, level: nat, idx: nat, blk: nat, used0: set<nat>, used: set<nat>)
    requires p > 0 && Grown(t, r, p, level, idx, blk, used0, used)
    ensures Proper(r, p, level) && Blocks(t) <= Blocks(r) && MapsOneMore(t, r, p, level, idx, blk)
    ensures (Blocks(r) - Blocks(t)) !! used0 && used == used0 + Blocks(r) && Tables(r) <= Blocks(r)
  {
    TablesAreBlocks(r, p, level);
  }

  lemma ChangedSets(c0: Tree, c1: Tree, kid: Tree, cur: nat, child: nat, linked: set<nat>, used0: set<nat>,
      used1: set<nat>)
    requires Blocks(kid) <= Blocks(c1) && (Blocks(c1) - Blocks(c0)) !! used1 && Blocks(c0) <= Blocks(c1)
    requires cur in used0 && cur !in Blocks(kid) && Tables(kid) <= Blocks(kid)
    requires (c0 == kid && linked == {} && used1 == used0)
             || (Blocks(kid) == {} && Blocks(c0) == {child} && Tables(c0) <= {child} && linked == {cur} + {child}
                 && used1 == used0 + {child} && child !in used0)
    ensures cur !in Tables(c0) + (Blocks(c1) - Blocks(c0))
    ensures linked + (Tables(c0) + (Blocks(c1) - Blocks(c0))) <= {cur} + Tables(kid) + (Blocks(c1) - Blocks(kid))
  {
    hide Blocks, Tables;
  }

  // Only child i of the table differs afterwards.
  lemma KidsProper(disk: Disk, p: nat, cur: nat, level: nat)
    requires level > 0 && cur != 0 && Proper(TreeOf(disk, p, cur, level), p, level)
    ensures var t := TreeOf(disk, p, cur, level);
            && t.Node? && t.kids == TreesOf(disk, p, PtrsAt(disk, p, cur), level - 1) && |t.kids| == p
            && AllProper(t.kids, p, level - 1) && cur !in AllBlocks(t.kids) && Blocks(t) == {cur} + AllBlocks(t.kids)
  {
  }

  lemma Regrown(d0: Disk, d1: Disk, p: nat, cur: nat, level: nat, i: nat, child: nat, changed: set<nat>,
      used0: set<nat>)
    requires level > 0 && cur != 0 && i < p && Proper(TreeOf(d0, p, cur, level), p, level)
    requires SameOutside(d0, d1, changed) && PtrsAt(d1, p, cur) == PtrsAt(d0, p, cur)[i := child]
    requires var t := TreeOf(d0, p, cur, level);
             Blocks(t) <= used0 && changed * used0 <= {cur} + Blocks(t.kids[i])
    ensures TreeOf(d1, p, cur, level) == Node(cur, TreeOf(d0, p, cur, level).kids[i := TreeOf(d1, p, child, level - 1)])
  {
    hide SameOutside, PtrsAt, Proper, Tables, Blocks;
    var kids := TreeOf(d0, p, cur, level).kids;
    KidsProper(d0, p, cur, level);
    var now := TreesOf(d1, p, PtrsAt(d1, p, cur), level - 1);
    var want := kids[i := TreeOf(d1, p, child, level - 1)];
    forall j | 0 <= j < p ensures now[j] == want[j] {
      if j != i {
        MemberProper(kids, p, level - 1, j);
        MemberBlocks(kids, j);
        TablesAreBlocks(kids[j], p, level - 1);
        if j < i { MembersDisjoint(kids, p, level - 1, j, i); } else { MembersDisjoint(kids, p, level - 1, i, j); }
        assert forall b <- Tables(kids[j]) :: b in changed ==> b in changed * used0;
        SameTree(d0, d1, p, PtrsAt(d0, p, cur)[j], level - 1, changed);
      }
    }
  }

  lemma GrownNode(t: Tree, r: Tree, kid: Tree, c1: Tree, p: nat, level: nat, idx: nat, blk: nat, used0: set<nat>,
      used: set<nat>)
    requires p > 0 && Proper(r, p, level) && Blocks(r) == Blocks(t) + Blocks(c1)
             && MapsOneMore(t, r, p, level, idx, blk)
    requires used == used0 + Blocks(c1) && Blocks(t) <= used0 && (Blocks(c1) - Blocks(kid)) !! used0
             && Blocks(kid) <= Blocks(t)
    ensures Grown(t, r, p, level, idx, blk, used0, used)
    ensures Blocks(r) - Blocks(t) == Blocks(c1) - Blocks(kid)
  {
    hide Proper, MapsOneMore, Blocks;
  }

  // What the descent did to a child, seen from the child as it was before the call.
  lemma GrownChild(c0: Tree, c1: Tree, kid: Tree, p: nat, level: nat, rest: nat, blk: nat,
                   used0: set<nat>, used1: set<nat>, used: set<nat>, child: nat)
    requires p > 0 && child != 0 && Grown(c0, c1, p, level, rest, blk, used1, used) && rest < Span(p, level)
             && Blocks(c0) <= used1
    requires (c0 == kid && used1 == used0)
             || (level > 0 && kid.Hole? && c0 == Sprout(child, p, level) && used1 == used0 + {child} && child !in used0)
    ensures Grown(kid, c1, p, level, rest, blk, used0, used)
  {
    SproutFacts(child, p, level);
    hide Proper, Sprout, Tables;
    if c0 != kid {
      forall j: nat | j < Span(p, level)
          ensures Lookup(c1, p, level, j) == if j == rest then blk else Lookup(kid, p, level, j) {
        assert Lookup(c0, p, level, j) == 0;
      }
    }
  }

  lemma SproutReady(child: nat, p: nat, level: nat, rest: nat)
    requires child != 0 && p > 0 && rest < Span(p, level)
    ensures Missing(Sprout(child, p, level), p, level, rest) == level
    ensures level > 0 ==> Lookup(Sprout(child, p, level), p, level, rest) == 0
  {
    SproutFacts(child, p, level);
  }

  lemma SproutRead(disk: Disk, p: nat, b: nat, level: nat)
    requires b != 0 && level > 0 && b in disk && disk[b] == seq(4 * p, _ => 0)
    ensures TreeOf(disk, p, b, level) == Sprout(b, p, level)
  {
    ZeroTable(p);
    var kids := TreesOf(disk, p, PtrsAt(disk, p, b), level - 1);
    assert kids == seq(p, _ => Hole);
  }

  class Volume {
    const p: nat               // pointers per block, block_size / 4
    const alloc: Allocator
    var disk: Disk

    constructor (p: nat, alloc: Allocator, disk: Disk)
      requires alloc.Valid() && p > 0 && alloc.geo.total <= 0x1_0000_0000
      requires forall b :: 0 < b < alloc.geo.total ==> b in disk && |disk[b]| == 4 * p
      ensures Valid() && this.p == p && this.alloc == alloc && this.disk == disk
    {
      this.p, this.alloc, this.disk := p, alloc, disk;
    }

    ghost predicate Valid()
      reads this, alloc
    {
      && alloc.Valid() && p > 0 && alloc.geo.total <= 0x1_0000_0000
      && (forall b :: 0 < b < alloc.geo.total ==> b in disk && |disk[b]| == 4 * p)
    }

    method WriteTable(b: nat, table: seq<nat>)
      requires Valid() && 0 < b < alloc.geo.total && |table| == p
      requires forall i :: 0 <= i < p ==> table[i] < 0x1_0000_0000
      modifies this
      ensures Valid() && PtrsAt(disk, p, b) == table && SameOutside(old(disk), disk, {b})
    {
      TableRoundTrip(table);
      disk := disk[b := Encode(table)];
    }

    // write_block of file data
    method StoreBlock(b: nat, bytes: seq<Byte>)
      requires Valid() && 0 < b < alloc.geo.total && |bytes| == 4 * p
      modifies this
      ensures Valid() && disk == old(disk)[b := bytes] && SameOutside(old(disk), disk, {b})
    {
      disk := disk[b := bytes];
    }

    /**
     One pointer of a table, or one slot of an inode: cuts the tree below `child` at `keep`,
     and drops `child` itself with the last block below it.
     */
    method TrimChild(child: nat, level: nat, base: nat, keep: nat) returns (freed: nat, gone: bool)
      requires Valid() && child != 0
      requires Proper(TreeOf(disk, p, child, level), p, level) && Blocks(TreeOf(disk, p, child, level)) <= alloc.Used()
      modifies this, alloc
      ensures Valid()
      ensures var t := old(TreeOf(disk, p, child, level));
              var r := Trim(t, p, level, base, keep);
              && gone == r.Hole? && (!gone ==> TreeOf(disk, p, child, level) == r)
              && alloc.Used() == old(alloc.Used()) - (Blocks(t) - Blocks(r))
              && freed + Count(r) == Count(t) && alloc.free == old(alloc.free) + freed
              && SameOutside(old(disk), disk, Tables(t))
      decreases level, 1
    {
      ghost var t := TreeOf(disk, p, child, level);
      ghost var r := Trim(t, p, level, base, keep);
      hide Span, Trim, PtrsAt, Proper, AllBlocks, AllCount, Allocator.Valid, Allocator.Used, Allocator.Shape, TreeOf,
          Count, Blocks;
      TrimCases(disk, p, child, level, base, keep);
      freed, gone := 0, false;
      if base + Span(p, level) <= keep { return; }
      var empty := true;
      if level > 0 {
        freed, empty := TrimIndirect(child, level, base, keep);
      }
      if empty {
        var ok := alloc.Free(child);
        freed := freed + 1;
        gone := true;
      }
    }

    /** trim_indirect: works on a copy of the table and writes it back once, if anything is left. */
    method TrimIndirect(blk: nat, level: nat, base: nat, keep: nat) returns (freed: nat, empty: bool)
      requires Valid() && blk != 0 && level > 0 && base + Span(p, level) > keep
      requires Proper(TreeOf(disk, p, blk, level), p, level) && Blocks(TreeOf(disk, p, blk, level)) <= alloc.Used()
      modifies this, alloc
      ensures Valid()
      ensures var t := old(TreeOf(disk, p, blk, level));
              var r := Trim(t, p, level, base, keep);
              && empty == r.Hole? && (!empty ==> TreeOf(disk, p, blk, level) == r)
              && alloc.Used() == old(alloc.Used()) - (Blocks(t) - (Blocks(r) + {blk}))
              && freed + (if empty then 1 else Count(r)) == Count(t) && alloc.free == old(alloc.free) + freed
              && SameOutside(old(disk), disk, Tables(t))
      decreases level, 0
    {
      hide *;
      Shaped();
      ghost var t := TreeOf(disk, p, blk, level);
      ghost var d0, used0 := disk, alloc.Used();
      NodeFacts(disk, p, blk, level, base, keep);
      UsedRange(blk);
      TableAt(blk);
      ghost var kids := t.kids;
      ghost var rs := TrimAll(kids, p, level - 1, base, keep);
      ReleasedStart(kids, rs, used0);
      SameOutsideStart(disk, AllTables(kids));
      MixedEnds(rs, kids);
      var table := Words(disk[blk], p);
      var span := Span(p, level - 1);
      var kept, changed := false, false;
      freed := 0;
      for i := 0 to p
        invariant Valid() && alloc.Shape() && |table| == p && (forall j :: 0 <= j < p ==> table[j] < 0x1_0000_0000)
        invariant TreesOf(disk, p, table, level - 1) == Mixed(rs, kids, i)
        invariant Released(kids, rs, i, used0, alloc.Used(), freed) && alloc.free == old(alloc.free) + freed
        invariant SameOutside(d0, disk, AllTables(kids))
        invariant kept <==> !AllHoles(rs[..i])
        invariant !changed ==> table == PtrsAt(d0, p, blk)
      {
        ghost var d1, used1, table1 := disk, alloc.Used(), table;
        var child := table[i];
        MixedAt(rs, kids, i);
        MemberProper(kids, p, level - 1, i);
        MemberBlocks(kids, i);
        MemberTables(kids, i);
        StillUsed(kids, rs, p, level - 1, i, used0, alloc.Used(), freed);
        HoleTree(disk, p, child, level - 1);
        HolesNext(rs, i);
        var more, gone := 0, false;
        if child != 0 {
          NthBaseIs(p, level - 1, base, i);
          more, gone := TrimChild(child, level - 1, base + i * span, keep);
          Shaped();
          if gone {
            table := table[i := 0];
            changed := true;
          } else {
            kept := true;
          }
          SameOutsideChain(d0, d1, disk, AllTables(kids), Tables(kids[i]));
        } else {
          TrimHole(p, level - 1, NthBase(p, level - 1, base, i), keep);
          SameOutsideStart(disk, Tables(kids[i]));
        }
        HoleTree(disk, p, 0, level - 1);
        NeighboursKept(d1, disk, p, level - 1, table1, kids, rs, base, keep, i);
        MixedNext(disk, p, level - 1, table1, table, kids, rs, i);
        ReleasedStep(kids, rs, p, level - 1, base, keep, i, used0, used1, alloc.Used(), freed, more);
        freed := freed + more;
      }
      assert rs[..p] == rs && kids[..p] == kids;
      PrefixTrim(kids, rs, p, level - 1, base, keep, p);
      ReleasedAll(kids, rs, used0, alloc.Used(), freed, blk);
      ghost var d1 := disk;
      if changed && kept {
        WriteTable(blk, table);
        Shaped();
      } else {
        PtrsOutside(d0, disk, p, AllTables(kids), blk);
        SameOutsideStart(disk, {blk});
      }
      Rebuilt(d1, disk, p, blk, level, table, rs);
      SameOutsideChain(d0, d1, disk, AllTables(kids), {blk});
      assert AllTables(kids) + {blk} == Tables(t);
      empty := !kept;
    }

    lemma Shaped()
      requires Valid()
      ensures alloc.Valid() && alloc.Shape() && p > 0
    {
    }

    lemma UsedRange(b: nat)
      requires Valid() && b in alloc.Used()
      ensures b < alloc.geo.total
    {
    }

    lemma TableAt(b: nat)
      requires Valid() && 0 < b < alloc.geo.total
      ensures b in disk && |disk[b]| == 4 * p && PtrsAt(disk, p, b) == Words(disk[b], p)
    {
    }
  
    // A block for a pointer at the given level; a new table starts with holes only.
    method NewPointer(level: nat, goal: nat) returns (b: nat)
      requires Valid() && alloc.free > 0
      modifies this, alloc
      ensures Valid() && b != 0 && b < alloc.geo.total && b !in old(alloc.Used())
              && alloc.Used() == old(alloc.Used()) + {b}
      ensures alloc.free == old(alloc.free) - 1 && TreeOf(disk, p, b, level) == Sprout(b, p, level)
      ensures SameOutside(old(disk), disk, {b})
    {
      var r := alloc.Alloc(goal);
      b := r.value;
      if level > 0 {
        ZeroTable(p);
        disk := disk[b := seq(4 * p, _ => 0)];
        SproutRead(disk, p, b, level);
      }
    }

    /**
     The descent of inode_map_new_block from table `cur`: allocates what is missing on the path to
     idx and returns the new data block.
     */
    method MapBelow(cur: nat, level: nat, idx: nat, goal: nat) returns (blk: nat, added: nat)
      requires Valid() && cur != 0 && level > 0 && idx < Span(p, level)
      requires Proper(TreeOf(disk, p, cur, level), p, level) && Blocks(TreeOf(disk, p, cur, level)) <= alloc.Used()
      requires Lookup(TreeOf(disk, p, cur, level), p, level, idx) == 0
      requires Missing(TreeOf(disk, p, cur, level), p, level, idx) <= alloc.free
      modifies this, alloc
      ensures Valid() && blk != 0 && blk < alloc.geo.total
      ensures var t := old(TreeOf(disk, p, cur, level));
              var r := TreeOf(disk, p, cur, level);
              && Grown(t, r, p, level, idx, blk, old(alloc.Used()), alloc.Used())
              && alloc.free + Count(r) == old(alloc.free) + Count(t)
              && Count(r) == Count(t) + added && added == old(Missing(TreeOf(disk, p, cur, level), p, level, idx))
              && SameOutside(old(disk), disk, Tables(t) + (Blocks(r) - Blocks(t)))
      decreases level
    {
      hide *;
      Shaped();
      GrowNode(disk, p, cur, level, idx);
      var rest := Rest(p, level - 1, idx);
      var i := Quot(p, level - 1, idx);
      ghost var t := TreeOf(disk, p, cur, level);
      ghost var d0, used0, kid := disk, alloc.Used(), t.kids[i];
      UsedRange(cur);
      TableAt(cur);
      var table := Words(disk[cur], p);
      var child := table[i];
      HoleTree(disk, p, child, level - 1);
      SameOutsideStart(disk, {});
      if level == 1 { LeafHole(kid, p, rest); }
      ghost var linked: set<nat> := {};
      added := 0;
      if child == 0 {
        added := 1;
        child := NewPointer(level - 1, goal);
        ghost var d1 := disk;
        WriteTable(cur, table[i := child]);
        LinkedNew(d0, d1, disk, p, cur, child, level, kid);
        SproutFacts(child, p, level - 1);
        SproutReady(child, p, level - 1, rest);
        linked := {cur} + {child};
      }
      Shaped();
      ghost var c0, used1, d2 := TreeOf(disk, p, child, level - 1), alloc.Used(), disk;
      if level == 1 {
        blk := child;
        SameOutsideStart(disk, Tables(c0) + (Blocks(c0) - Blocks(c0)));
        GrownLeaf(c0, kid, p, rest, child, used0, used1);
      } else {
        var more;
        blk, more := MapBelow(child, level - 1, rest, goal);
        added := added + more;
        Shaped();
        GrownSets(c0, TreeOf(disk, p, child, level - 1), p, level - 1, rest, blk, used1, alloc.Used());
        GrownChild(c0, TreeOf(disk, p, child, level - 1), kid, p, level - 1, rest, blk, used0, used1, alloc.Used(),
                   child);
      }
      ghost var c1 := TreeOf(disk, p, child, level - 1);
      ghost var stirred := Tables(c0) + (Blocks(c1) - Blocks(c0));
      ghost var changed := {cur} + Tables(kid) + (Blocks(c1) - Blocks(kid));
      GrownSets(kid, c1, p, level - 1, rest, blk, used0, alloc.Used());
      ChangedSets(c0, c1, kid, cur, child, linked, used0, used1);
      PtrsOutside(d2, disk, p, stirred, cur);
      SameOutsideChain(d0, d2, disk, linked, stirred);
      SameOutsideWiden(d0, disk, linked + stirred, changed);
      assert PtrsAt(disk, p, cur) == table[i := child];
      Regrown(d0, disk, p, cur, level, i, child, changed, used0);
      NodeGrown(cur, t.kids, p, level, idx, c1, blk);
      GrownNode(t, TreeOf(disk, p, cur, level), kid, c1, p, level, idx, blk, used0, alloc.Used());
      SameOutsideWiden(d0, disk, changed, Tables(t) + (Blocks(TreeOf(disk, p, cur, level)) - Blocks(t)));
    }
  }
}
