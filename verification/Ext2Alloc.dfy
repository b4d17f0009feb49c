/**
 The ext2 block allocator: one bitmap and one free count per block group and a free count in
 the superblock.
 */
module Ext2Alloc {
  import opened Wrappers
  import opened Ext2Tree

  // Clear bits among the first n.
  function Clear(bits: seq<bool>, n: nat): nat
    requires n <= |bits|
  {
    if n == 0 then 0 else Clear(bits, n - 1) + (if bits[n - 1] then 0 else 1)
  }

  function Sum(xs: seq<nat>): nat {
    if xs == [] then 0 else Sum(xs[..|xs| - 1]) + xs[|xs| - 1]
  }

  lemma {:induction false} ClearUpdate(bits: seq<bool>, n: nat, i: nat, v: bool)
    requires n <= |bits| && i < |bits| && bits[i] != v
    ensures Clear(bits[i := v], n) == Clear(bits, n) + (if i >= n then 0 else if v then -1 else 1)
  {
    if n > 0 { ClearUpdate(bits, n - 1, i, v); }
  }

  lemma {:induction false} NoneClear(bits: seq<bool>, n: nat)
    requires n <= |bits| && forall i :: 0 <= i < n ==> bits[i]
    ensures Clear(bits, n) == 0
  {
    if n > 0 { NoneClear(bits, n - 1); }
  }

  lemma {:induction false} NoneIsClear(bits: seq<bool>, n: nat, i: nat)
    requires i < n <= |bits| && Clear(bits, n) == 0
    ensures bits[i]
  {
    if i < n - 1 { NoneIsClear(bits, n - 1, i); }
  }

  lemma {:induction false} SumUpdate(xs: seq<nat>, g: nat, v: nat)
    requires g < |xs|
    ensures Sum(xs[g := v]) == Sum(xs) - xs[g] + v
  {
    var last := |xs| - 1;
    if g == last {
      assert xs[g := v][..last] == xs[..last];
    } else {
      assert xs[g := v][..last] == xs[..last][g := v];
      SumUpdate(xs[..last], g, v);
    }
  }

  lemma {:induction false} SumBounds(xs: seq<nat>, g: nat)
    requires g < |xs|
    ensures xs[g] <= Sum(xs)
  {
    if g < |xs| - 1 { SumBounds(xs[..|xs| - 1], g); }
  }

  lemma {:induction false} SumZero(xs: seq<nat>)
    requires forall g :: 0 <= g < |xs| ==> xs[g] == 0
    ensures Sum(xs) == 0
  {
    if xs != [] { SumZero(xs[..|xs| - 1]); }
  }

  function Down(n: nat): nat { if n > 0 then n - 1 else 0 }

  // The group looked at in round k, starting from the goal group.
  function Visited(goal: nat, k: nat, n: nat): (g: nat)
    requires n > 0
    ensures g < n
  {
    (goal + k) % n
  }

  // Layout of the volume: block numbers first .. total, in groups of perGroup.
  datatype Geometry = Geometry(first: nat, perGroup: nat, total: nat, groups: nat) {
    ghost predicate Valid() {
      && first <= 1 && perGroup > 0 && first < total
      && groups > 0 && (groups - 1) * perGroup < total - first <= groups * perGroup
    }

    function Start(g: nat): nat { ProductPositive(g, perGroup); first + g * perGroup }

    // group_block_count
    function Size(g: nat): (n: int)
    {
      var n := total - Start(g);
      if n < perGroup then n else perGroup
    }

    lemma SizePositive(g: nat)
      requires Valid() && g < groups
      ensures 0 < Size(g) <= perGroup && Start(g) + Size(g) <= total
    {
      ProductMonotone(g, groups - 1, perGroup);
    }

    function Group(b: nat): nat
      requires perGroup > 0 && first <= b
    {
      (b - first) / perGroup
    }

    function Bit(b: nat): nat
      requires perGroup > 0 && first <= b
    {
      (b - first) % perGroup
    }

    // The round, counted from the goal group, in which a group is looked at.
    function Round(goal: nat, g: nat): nat
      requires groups > 0
    {
      (g - goal) % groups
    }

    // The allocator comes to block a before it comes to block b.
    predicate Sooner(goal: nat, a: nat, b: nat)
      requires perGroup > 0 && groups > 0 && first <= a && first <= b
    {
      Round(goal, Group(a)) < Round(goal, Group(b)) || (Group(a) == Group(b) && a <= b)
    }

    // Group and bit number a block, and only that block.
    lemma Addressed(b: nat)
      requires Valid() && first <= b < total
      ensures Group(b) < groups && Bit(b) < Size(Group(b)) && Start(Group(b)) + Bit(b) == b
    {
      Euclid(b - first, perGroup);
      QuotientBound(b - first, groups, perGroup);
    }

    lemma AddressOf(g: nat, i: nat)
      requires Valid() && g < groups && i < Size(g)
      ensures first <= Start(g) + i < total && Group(Start(g) + i) == g && Bit(Start(g) + i) == i
    {
      SizePositive(g);
      QuotientIs(g, i, perGroup);
    }
  }

  class Allocator {
    const geo: Geometry
    var free: nat                   // s_free_blocks_count
    var groupFree: seq<nat>         // bg_free_blocks_count
    var bitmaps: seq<seq<bool>>

    /** A volume as mke2fs leaves it: whatever the bitmaps say, the counts agree with them. */
    constructor (geo: Geometry, bitmaps: seq<seq<bool>>)
      requires geo.Valid() && |bitmaps| == geo.groups && (geo.first == 0 ==> bitmaps[0] != [] && bitmaps[0][0])
      requires forall g :: 0 <= g < geo.groups ==> geo.Size(g) <= |bitmaps[g]| && |bitmaps[g]| % 8 == 0
      ensures Valid() && this.geo == geo && this.bitmaps == bitmaps
    {
      this.geo, this.bitmaps := geo, bitmaps;
      groupFree := [];
      free := 0;
      new;
      for g := 0 to geo.groups
        invariant |groupFree| == g && free == Sum(groupFree) && this.bitmaps == bitmaps && this.geo == geo
        invariant forall h :: 0 <= h < g ==>
                                geo.Size(h) <= |bitmaps[h]| && geo.Size(h) >= 0
                                    && groupFree[h] == Clear(bitmaps[h], geo.Size(h))
      {
        geo.SizePositive(g);
        var n := Clear(bitmaps[g], geo.Size(g));
        assert (groupFree + [n])[..g] == groupFree;
        groupFree := groupFree + [n];
        free := free + n;
      }
      if geo.first == 0 { geo.AddressOf(0, 0); }
    }

    ghost predicate Shape()
      reads this
    {
      && geo.Valid() && |groupFree| == geo.groups && |bitmaps| == geo.groups
      && (forall g :: 0 <= g < geo.groups ==> geo.Size(g) <= |bitmaps[g]| && |bitmaps[g]| % 8 == 0)
    }

    ghost predicate Counted(g: nat)
      reads this
      requires Shape() && g < geo.groups
    {
      geo.SizePositive(g);
      groupFree[g] == Clear(bitmaps[g], geo.Size(g))
    }

    // Every count equals the clear bits it stands for.
    ghost predicate Valid()
      reads this
    {
      && Shape()
      && (forall g :: 0 <= g < geo.groups ==> Counted(g))
      && free == Sum(groupFree)
      && 0 !in FreeSet()
    }

    predicate Marked(b: nat)
      reads this
      requires Shape() && geo.first <= b < geo.total
    {
      geo.Addressed(b);
      bitmaps[geo.Group(b)][geo.Bit(b)]
    }

    // The blocks whose bit is set.
    ghost function Used(): set<nat>
      reads this
      requires Shape()
    {
      set b | geo.first <= b < geo.total && Marked(b)
    }

    ghost function FreeSet(): set<nat>
      reads this
      requires Shape()
    {
      set b | geo.first <= b < geo.total && !Marked(b)
    }

    // The first clear bit of a group, skipping full bytes as the source does.
    method FindClear(g: nat) returns (i: nat)
      requires Valid() && g < geo.groups && groupFree[g] > 0
      ensures i < geo.Size(g) && i < |bitmaps[g]| && !bitmaps[g][i]
      ensures forall k :: 0 <= k < i ==> bitmaps[g][k]
    {
      geo.SizePositive(g);
      assert Counted(g);
      var bits, n := bitmaps[g], geo.Size(g);
      i := 0;
      while i < n
        invariant forall k :: 0 <= k < i && k < n ==> bits[k]
        invariant i < n ==> forall k :: 0 <= k < i ==> bits[k]
        decreases n - i
      {
        if i % 8 == 0 && i + 8 <= |bits| && (forall k :: i <= k < i + 8 ==> bits[k]) {
          i := i + 8;
        } else if bits[i] {
          i := i + 1;
        } else {
          return;
        }
      }
      NoneClear(bits, n);
      assert false;
    }

    // Setting or clearing one bit and adjusting both counts.
    method Flip(g: nat, i: nat, v: bool)
      requires Valid() && g < geo.groups && i < geo.Size(g) && i < |bitmaps[g]| && bitmaps[g][i] != v
      requires geo.Start(g) + i != 0
      modifies this
      ensures Valid()
      ensures Used() == if v then old(Used()) + {geo.Start(g) + i} else old(Used()) - {geo.Start(g) + i}
      ensures v ==> free == old(free) - 1
      ensures !v ==> free == old(free) + 1
    {
      assert Counted(g);
      geo.SizePositive(g);
      ClearUpdate(bitmaps[g], geo.Size(g), i, v);
      SumBounds(groupFree, g);
      var n := if v then groupFree[g] - 1 else groupFree[g] + 1;
      SumUpdate(groupFree, g, n);
      bitmaps := bitmaps[g := bitmaps[g][i := v]];
      groupFree := groupFree[g := n];
      free := if v then Down(free) else free + 1;
      forall h | 0 <= h < geo.groups ensures Counted(h) {
        assert h != g ==> old(Counted(h));
      }
      forall b | geo.first <= b < geo.total ensures Marked(b) == if b == geo.Start(g) + i then v else old(Marked(b)) {
        geo.Addressed(b);
        geo.AddressOf(g, i);
      }
    }

    /** alloc_block: the first clear bit of the first group with space, from the goal group on. */
    method Alloc(goal: nat) returns (r: Option<nat>)
      requires Valid()
      modifies this
      ensures Valid()
      ensures r.Some? <==> old(free) > 0
      ensures r.Some? ==> r.value != 0 && geo.first <= r.value < geo.total && r.value !in old(Used())
                          && Used() == old(Used()) + {r.value} && free == old(free) - 1
      ensures r.None? ==> Used() == old(Used()) && free == old(free)
      ensures r.Some? ==> forall b :: geo.first <= b < geo.total && b !in old(Used()) ==> geo.Sooner(goal, r.value, b)
    {
      var k := 0;
      while k < geo.groups
        invariant k <= geo.groups && unchanged(this)
        invariant forall j :: 0 <= j < k ==> groupFree[Visited(goal, j, geo.groups)] == 0
      {
        var g := Visited(goal, k, geo.groups);
        if groupFree[g] != 0 {
          var i := FindClear(g);
          SumBounds(groupFree, g);
          geo.AddressOf(g, i);
          assert !Marked(geo.Start(g) + i);
          assert geo.Start(g) + i in FreeSet();
          ComesFirst(goal, k, i);
          Flip(g, i, true);
          return Some(geo.Start(g) + i);
        }
        k := k + 1;
      }
      forall g | 0 <= g < geo.groups ensures groupFree[g] == 0 {
        var j := Offset(goal, g, geo.groups);
        assert groupFree[Visited(goal, j, geo.groups)] == 0;
      }
      SumZero(groupFree);
      return None;
    }

    // With nothing free in the groups before round k, its first clear bit comes before every other.
    lemma ComesFirst(goal: nat, k: nat, i: nat)
      requires Valid() && k < geo.groups && forall j :: 0 <= j < k ==> groupFree[Visited(goal, j, geo.groups)] == 0
      requires var g := Visited(goal, k, geo.groups);
               i < geo.Size(g) && i <= |bitmaps[g]| && forall m :: 0 <= m < i ==> bitmaps[g][m]
      ensures forall b :: geo.first <= b < geo.total && b !in Used() ==>
                            geo.Sooner(goal, geo.Start(Visited(goal, k, geo.groups)) + i, b)
    {
      var g := Visited(goal, k, geo.groups);
      geo.AddressOf(g, i);
      RoundOf(goal, k, geo);
      forall b | geo.first <= b < geo.total && b !in Used() ensures geo.Sooner(goal, geo.Start(g) + i, b) {
        geo.Addressed(b);
        assert !Marked(b);
        var h := geo.Group(b);
        var j := Offset(goal, h, geo.groups);
        RoundOf(goal, j, geo);
        if j < k {
          assert Counted(h);
          NoneIsClear(bitmaps[h], geo.Size(h), geo.Bit(b));
        }
      }
    }

    /** free_block: refuses blocks outside the volume and blocks that are already free. */
    method Free(b: nat) returns (ok: bool)
      requires Valid() && b != 0
      modifies this
      ensures Valid()
      ensures ok <==> b in old(Used())
      ensures Used() == old(Used()) - {b} && free == old(free) + (if ok then 1 else 0)
    {
      if b < geo.first || b >= geo.total { return false; }
      geo.Addressed(b);
      var g, i := geo.Group(b), geo.Bit(b);
      geo.SizePositive(g);
      if !bitmaps[g][i] { return false; }
      Flip(g, i, false);
      return true;
    }
  }

  lemma RoundOf(goal: nat, k: nat, geo: Geometry)
    requires k < geo.groups
    ensures geo.Round(goal, Visited(goal, k, geo.groups)) == k
  {
    var n := geo.groups;
    Euclid(goal + k, n);
    var q := (goal + k) / n;
    assert Visited(goal, k, n) - goal == k - q * n;
    RemainderIs(k - q * n, k, -q, n);
  }

  lemma RemainderIs(x: int, r: int, q: int, n: int)
    requires 0 <= r < n && x == r + q * n
    ensures x % n == r
  {
    var d := x / n - q;
    assert x == x / n * n + x % n;
    assert x / n * n - q * n == d * n;
    MultipleSize(d, n);
  }

  lemma MultipleSize(d: int, n: int)
    requires n >= 0
    ensures (d >= 1 ==> d * n >= n) && (d <= -1 ==> d * n <= -n)
  {
  }

  // Every group is visited: some offset from the goal leads to it.
  lemma Offset(goal: nat, g: nat, n: nat) returns (j: nat)
    requires g < n
    ensures j < n && Visited(goal, j, n) == g
  {
    Euclid(goal, n);
    var m := goal % n;
    j := if m <= g then g - m else g + n - m;
    if m <= g {
      QuotientIs(goal / n, g, n);
    } else {
      QuotientIs(goal / n + 1, g, n);
      assert (goal / n + 1) * n == goal / n * n + n;
    }
  }
}
