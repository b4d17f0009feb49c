/**
 Mapping, protecting, unmapping, counting and destroying user pages (kernel/mm/paging64.c).
 */
module Paging {
  import opened Wrappers
  import opened PageTables
  import opened PageCounts
  import opened PageSweep

  // ---------- what a range operation does to a leaf ----------

  datatype Change = Drop | Protect(rights: Rights)

  function Apply(c: Change, x: Leaf): Leaf {
    match c
    case Drop => NoPage
    case Protect(rights) => if x.Page? then x.(rights := rights) else x
  }

  function Min(a: nat, b: nat): nat { if a < b then a else b }

  // Pages in [from, upto) are changed, the others are as before.
  ghost predicate Done(was: Pml4, now: Pml4, from: nat, upto: nat, c: Change) {
    Ok(was) && Ok(now) && forall g: nat {:trigger At(now, g)} ::
        At(now, g) == if from <= g < upto then Apply(c, At(was, g)) else At(was, g)
  }

  lemma DoneStart(root: Pml4, from: nat, c: Change)
    requires Ok(root)
    ensures Done(root, root, from, from, c)
  {
  }

  // Nothing is mapped in the next stretch: it may be skipped.
  lemma DoneSkip(was: Pml4, now: Pml4, from: nat, addr: nat, next: nat, c: Change)
    requires Done(was, now, from, addr, c) && addr <= next && from <= addr && forall g: nat ::
             addr <= g < next ==> At(now, g) == NoPage
    ensures Done(was, now, from, next, c)
  {
    hide At, Ok;
    forall g: nat ensures At(now, g) == if from <= g < next then Apply(c, At(was, g)) else At(was, g) {}
  }

  lemma DoneMore(was: Pml4, mid: Pml4, now: Pml4, from: nat, addr: nat, next: nat, c: Change)
    requires Done(was, mid, from, addr, c) && Done(mid, now, addr, next, c) && from <= addr <= next
    ensures Done(was, now, from, next, c)
  {
    hide At, Ok;
    forall g: nat ensures At(now, g) == if from <= g < next then Apply(c, At(was, g)) else At(was, g) {
      assert At(mid, g) == if from <= g < addr then Apply(c, At(was, g)) else At(was, g);
    }
  }

  // The 512 GiB and 1 GiB skips.
  function NextPdpt(addr: nat): nat { (I(addr) + 1) * PDPT_PAGES }

  lemma NoPdpt(root: Pml4, addr: nat)
    requires Ok(root) && I(addr) < ENTRIES && !root[I(addr)].Table?
    ensures addr < NextPdpt(addr)
    ensures forall g: nat :: addr <= g < NextPdpt(addr) ==> At(root, g) == NoPage
  {
    Digits(addr);
    forall g: nat | addr <= g < NextPdpt(addr) ensures At(root, g) == NoPage { SameI(addr, g); }
  }

  function NextPd(addr: nat): nat { I(addr) * PDPT_PAGES + (J(addr) + 1) * PD_PAGES }

  lemma NoPd(root: Pml4, addr: nat)
    requires Ok(root) && I(addr) < ENTRIES && root[I(addr)].Table? && !root[I(addr)].kids[J(addr)].Table?
    ensures addr < NextPd(addr)
    ensures forall g: nat :: addr <= g < NextPd(addr) ==> At(root, g) == NoPage
  {
    Digits(addr);
    forall g: nat | addr <= g < NextPd(addr) ensures At(root, g) == NoPage {
      SameJ(addr, g);
      hide I, J, K, L;
    }
  }

  lemma NoPt(root: Pml4, addr: nat)
    requires HasPd(root, I(addr), J(addr)) && !root[I(addr)].kids[J(addr)].kids[K(addr)].Table?
    ensures forall g: nat :: addr <= g < addr - L(addr) + ENTRIES ==> At(root, g) == NoPage
  {
    forall g: nat | addr <= g < addr - L(addr) + ENTRIES ensures At(root, g) == NoPage {
      SameK(addr, g);
      hide I, J, K, L;
    }
  }

  // One page table with a stretch of its leaves changed.
  function Stretch(pt: Pt, lo: nat, hi: nat, c: Change): (r: Pt)
    ensures |r| == |pt| && forall l :: 0 <= l < |pt| ==> r[l] == if lo <= l < hi then Apply(c, pt[l]) else pt[l]
  {
    seq(|pt|, l requires 0 <= l < |pt| => if lo <= l < hi then Apply(c, pt[l]) else pt[l])
  }

  // The chunk of pages a page table covers, from addr up to stop.
  lemma ChunkDone(root: Pml4, addr: nat, stop: nat, c: Change, e: Entry<Leaf>)
    requires HasPd(root, I(addr), J(addr)) && root[I(addr)].kids[J(addr)].kids[K(addr)].Table?
             && PdOk(root[I(addr)].kids[J(addr)].kids[K(addr)])
    requires addr <= stop <= addr - L(addr) + ENTRIES && PdOk(e)
    requires forall l: nat :: l < ENTRIES ==>
                                AtPd(e, l)
                                    == AtStretch(root[I(addr)].kids[J(addr)].kids[K(addr)].kids, L(addr),
                                                 L(addr) + (stop - addr), c, l)
    ensures Done(root, PutPt(root, I(addr), J(addr), K(addr), e), addr, stop, c)
  {
    var i, j, k := I(addr), J(addr), K(addr);
    var r := PutPt(root, i, j, k, e);
    PutPtFacts(root, i, j, k, e, 0);
    forall g: nat ensures At(r, g) == if addr <= g < stop then Apply(c, At(root, g)) else At(root, g) {
      PutPtFacts(root, i, j, k, e, g);
      SameK(addr, g);
      if SamePt(addr, g) {
        LeafIndex(addr, g);
        AtLeaf(root, g);
      }
      hide I, J, K, L, Ok, PutPt;
    }
  }

  function AtStretch(pt: Pt, lo: nat, hi: nat, c: Change, l: nat): Leaf
    requires l < |pt|
  {
    Stretch(pt, lo, hi, c)[l]
  }

  lemma LeafIndex(addr: nat, g: nat)
    requires SamePt(addr, g)
    ensures L(g) - L(addr) == g - addr
  {
    Digits(addr);
    Digits(g);
  }

  lemma AtLeaf(root: Pml4, g: nat)
    requires HasPd(root, I(g), J(g)) && root[I(g)].kids[J(g)].kids[K(g)].Table?
             && PdOk(root[I(g)].kids[J(g)].kids[K(g)])
    ensures At(root, g) == root[I(g)].kids[J(g)].kids[K(g)].kids[L(g)]
  {
    hide I, J, K, L;
  }

  // ---------- what is never touched ----------

  // Entries that are not user tables stay as they are.
  ghost predicate KeepsForeign(was: Pml4, now: Pml4) {
    && Ok(was) && Ok(now)
    && (forall i :: 0 <= i < ENTRIES && was[i].Foreign? ==> now[i] == was[i])
    && (forall i, j ::
        0 <= i < ENTRIES && 0 <= j < ENTRIES && was[i].Table? && was[i].kids[j].Foreign? ==>
              now[i].Table? && now[i].kids[j] == was[i].kids[j])
    && (forall i, j, k ::
        0 <= i < ENTRIES && 0 <= j < ENTRIES && 0 <= k < ENTRIES && was[i].Table? && was[i].kids[j].Table?
            && was[i].kids[j].kids[k].Foreign? ==>
          now[i].Table? && now[i].kids[j].Table? && now[i].kids[j].kids[k] == was[i].kids[j].kids[k])
  }

  lemma KeepsSelf(root: Pml4)
    requires Ok(root)
    ensures KeepsForeign(root, root)
  {
    hide Ok;
  }

  lemma KeepsChain(was: Pml4, mid: Pml4, now: Pml4)
    requires KeepsForeign(was, mid) && KeepsForeign(mid, now)
    ensures KeepsForeign(was, now)
  {
    hide Ok;
  }

  lemma PutPtKeeps(root: Pml4, i: nat, j: nat, k: nat, e: Entry<Leaf>)
    requires HasPd(root, i, j) && k < ENTRIES && PdOk(e) && !root[i].kids[j].kids[k].Foreign?
    ensures KeepsForeign(root, PutPt(root, i, j, k, e))
  {
    PutPtFacts(root, i, j, k, e, 0);
  }

  lemma PruneKeeps(root: Pml4, i: nat, j: nat)
    requires HasPd(root, i, j) && (forall k :: 0 <= k < ENTRIES ==> root[i].kids[j].kids[k].Absent?)
    ensures |root[i].kids| == ENTRIES && Ok(PutPd(root, i, j, Absent)) && KeepsForeign(root, PutPd(root, i, j, Absent))
  {
    PutPdFacts(root, i, j, Absent, 0);
  }

  lemma PruneAt(root: Pml4, i: nat, j: nat, g: nat)
    requires HasPd(root, i, j) && (forall k :: 0 <= k < ENTRIES ==> root[i].kids[j].kids[k].Absent?)
    ensures |root[i].kids| == ENTRIES && Ok(PutPd(root, i, j, Absent))
            && At(PutPd(root, i, j, Absent), g) == At(root, g)
  {
    PutPdFacts(root, i, j, Absent, g);
    AtThrough(root, g);
    hide I, J, K, L, Ok, PutPd;
  }

  // A directory that holds nothing may go.
  lemma PruneFacts(root: Pml4, i: nat, j: nat)
    requires HasPd(root, i, j) && (forall k :: 0 <= k < ENTRIES ==> root[i].kids[j].kids[k].Absent?)
    ensures var r := PutPd(root, i, j, Absent);
            && Ok(r) && KeepsForeign(root, r) && Held(r) + multiset{root[i].kids[j].frame} == Held(root)
               && forall g: nat :: At(r, g) == At(root, g)
  {
    var r := PutPd(root, i, j, Absent);
    var d := root[i].kids[j];
    PruneKeeps(root, i, j);
    PdStill(root, i, j);
    hide Ok, At, KeepsForeign, Held, HeldPdpt, PutPd;
    forall g: nat ensures At(r, g) == At(root, g) { PruneAt(root, i, j, g); }
    PutPdHeld(root, i, j, Absent);
    DirectoryOnly(d);
  }

  lemma DirectoryOnly(d: Entry<Entry<Leaf>>)
    requires d.Table? && forall k :: 0 <= k < |d.kids| ==> d.kids[k].Absent?
    ensures HeldPdpt(d) == multiset{d.frame}
  {
    SumEmpty(d.kids, HeldPd);
  }

  // ---------- the operations ----------

  const PAGE: nat := 4096

  // The pages a byte range touches, cut off at the top of user space; sums wrap at 64 bits.
  function FirstPage(virt: nat): nat { virt / PAGE }

  function EndPage(virt: nat, size: nat): nat {
    var end := virt + size;
    if end >= 0x1_0000_0000_0000_0000 || end > USER_PAGES * PAGE then USER_PAGES else (end + PAGE - 1) / PAGE
  }

  lemma ClearOne(pt: Pt, l: nat)
    requires l < |pt| && !pt[l].NoPage?
    ensures Sum(pt[l := NoPage], HeldLeaf) + multiset{pt[l].frame} == Sum(pt, HeldLeaf)
  {
    SumUpdate(pt, HeldLeaf, l, NoPage);
  }

  // The leaf loop of paging_user_unmap_range
  method ClearLeaves(table: Pt, lo: nat, hi: nat) returns (pt: Pt, freed: seq<nat>)
    requires lo <= hi <= |table|
    ensures pt == Stretch(table, lo, hi, Drop) && Sum(pt, HeldLeaf) + multiset(freed) == Sum(table, HeldLeaf)
  {
    hide Sum, HeldLeaf;
    pt, freed := table, [];
    for l := lo to hi
      invariant |pt| == |table| && forall x :: 0 <= x < |pt| ==> pt[x] == if lo <= x < l then NoPage else table[x]
      invariant Sum(pt, HeldLeaf) + multiset(freed) == Sum(table, HeldLeaf)
    {
      if !pt[l].NoPage? {
        ClearOne(pt, l);
        freed := freed + [pt[l].frame];
        pt := pt[l := NoPage];
      }
    }
  }

  // The entry of a page table once some leaves were dropped: the table goes when it is empty.
  method DropLeaves(frame: nat, table: Pt, lo: nat, hi: nat) returns (e: Entry<Leaf>, freed: seq<nat>)
    requires |table| == ENTRIES && lo <= hi <= ENTRIES
    ensures PdOk(e) && forall l: nat :: l < ENTRIES ==> AtPd(e, l) == AtStretch(table, lo, hi, Drop, l)
    ensures HeldPd(e) + multiset(freed) == HeldPd(Table(frame, table)) && !e.Foreign? && !EmptyPt(e)
  {
    hide Sum, HeldLeaf, Stretch;
    var pt;
    pt, freed := ClearLeaves(table, lo, hi);
    var empty := PtEmpty(pt);
    if empty {
      NothingHeld(pt);
      e, freed := Absent, freed + [frame];
    } else {
      e := Table(frame, pt);
    }
  }

  lemma NothingHeld(pt: Pt)
    requires forall l :: 0 <= l < |pt| ==> pt[l].NoPage?
    ensures Sum(pt, HeldLeaf) == multiset{}
  {
    SumEmpty(pt, HeldLeaf);
  }

  // The leaf loop of paging_user_protect_range
  method ProtectLeaves(frame: nat, table: Pt, lo: nat, hi: nat, rights: Rights) returns (e: Entry<Leaf>)
    requires |table| == ENTRIES && lo <= hi <= ENTRIES
    ensures PdOk(e) && forall l: nat :: l < ENTRIES ==> AtPd(e, l) == AtStretch(table, lo, hi, Protect(rights), l)
    ensures HeldPd(e) == HeldPd(Table(frame, table)) && e.Table? && (EmptyPt(e) ==> EmptyPt(Table(frame, table)))
  {
    hide Sum;
    var pt := table;
    for l := lo to hi
      invariant |pt| == ENTRIES && forall x :: 0 <= x < ENTRIES ==>
                                                 pt[x] == if lo <= x < l
                                                     then Apply(Protect(rights), table[x]) else table[x]
      invariant Sum(pt, HeldLeaf) == Sum(table, HeldLeaf)
    {
      if pt[l].Page? {
        SumUpdate(pt, HeldLeaf, l, pt[l].(rights := rights));
        pt := pt[l := pt[l].(rights := rights)];
      }
    }
    e := Table(frame, pt);
  }

  // table_is_empty, for a page table and for a page directory
  method PtEmpty(pt: Pt) returns (r: bool)
    ensures r <==> forall l :: 0 <= l < |pt| ==> pt[l].NoPage?
  {
    for i := 0 to |pt|
      invariant forall l :: 0 <= l < i ==> pt[l].NoPage?
    {
      if !pt[i].NoPage? { return false; }
    }
    r := true;
  }

  method PdEmpty(pd: Pd) returns (r: bool)
    ensures r <==> forall k :: 0 <= k < |pd| ==> pd[k].Absent?
  {
    for i := 0 to |pd|
      invariant forall k :: 0 <= k < i ==> pd[k].Absent?
    {
      if !pd[i].Absent? { return false; }
    }
    r := true;
  }

  class UserTables {
    var root: Pml4

    constructor (tree: Pml4)
      requires Ok(tree)
      ensures Valid() && root == tree
    {
      root := tree;
    }

    ghost predicate Valid()
      reads this
    {
      Ok(root)
    }

    /**
     paging_user_unmap_range: exactly the pages of the range leave the map, whatever is skipped
     or pruned on the way; the frames released are exactly those the tree no longer holds; and
     entries that are not user tables stay untouched.
     */
    method UnmapRange(virt: nat, size: nat) returns (freed: seq<nat>)
      requires Valid()
      modifies this
      ensures Valid() && KeepsForeign(old(root), root)
      ensures size == 0 || FirstPage(virt) >= EndPage(virt, size) ==> root == old(root) && freed == []
      ensures size > 0 && FirstPage(virt) < EndPage(virt, size) ==>
                Done(old(root), root, FirstPage(virt), EndPage(virt, size), Drop)
      ensures Held(root) + multiset(freed) == Held(old(root))
      ensures Exclusive(old(root)) ==>
                Exclusive(root) && NoRepeats(freed) && forall f :: f in freed ==> f !in Held(root)
      ensures NoneEmptied(old(root), root)
      ensures size > 0 ==> Tidied(old(root), root, FirstPage(virt), EndPage(virt, size))
    {
      hide *;
      freed := [];
      Whole();
      KeepsSelf(root);
      Surrender(root, root, freed);
      SweptStart(root, FirstPage(virt));
      if size == 0 { return; }
      var first, end := FirstPage(virt), EndPage(virt, size);
      EndBound(virt, size);
      var addr := first;
      DoneStart(root, first, Drop);
      MinIs(addr, end);
      ghost var was, open := root, -1;
      NothingToSweep(root, first, end);
      while addr < end
        invariant Ok(root) && KeepsForeign(was, root) && first <= addr
                  && (first < end ==> Done(was, root, first, Min(addr, end), Drop))
        invariant Held(root) + multiset(freed) == Held(was) && (first >= end ==> root == was && freed == [])
        invariant Swept(was, root, first, Min(addr, end), open)
                  && (open == -1 || (open >= 0 && addr < end && SamePd(open, addr)))
        decreases end - addr
      {
        var i, j := I(addr), J(addr);
        RootSize(root, addr);
        MinIs(addr, end);
        if !root[i].Table? {
          NoPdpt(root, addr);
          SkipTo(was, root, first, addr, NextPdpt(addr), end, Drop);
          MinIs(NextPdpt(addr), end);
          NoPdptOf(root, addr, Min(NextPdpt(addr), end));
          SweptSkip(was, root, first, addr, Min(NextPdpt(addr), end), open);
          open := -1;
          addr := NextPdpt(addr);
        } else if !root[i].kids[j].Table? {
          NoPd(root, addr);
          SkipTo(was, root, first, addr, NextPd(addr), end, Drop);
          MinIs(NextPd(addr), end);
          NoPdOf(root, addr, Min(NextPd(addr), end));
          SweptSkip(was, root, first, addr, Min(NextPd(addr), end), open);
          open := -1;
          addr := NextPd(addr);
        } else {
          PdHere(root, addr);
          ghost var before := root;
          var gone;
          gone, open := UnmapTable(addr, end, was, first, open);
          KeepsChain(was, before, root);
          var next := addr - L(addr) + ENTRIES;
          MinIs(next, end);
          DoneMore(was, before, root, first, addr, Min(next, end), Drop);
          freed := freed + gone;
          addr := next;
        }
      }
      MinIs(addr, end);
      Whole2();
      SweptDone(was, root, first, end);
      NoRange(was, root, first, end);
      Surrender(was, root, freed);
    }

    // One page table's worth of the range, and the directory once its last page was seen.
    method UnmapTable(addr: nat, end: nat, ghost was: Pml4, ghost first: nat, ghost open: int)
        returns (freed: seq<nat>, ghost pending: int)
      requires HasPd(root, I(addr), J(addr)) && first <= addr < end && L(addr) <= addr
               && Swept(was, root, first, addr, open) && (open >= 0 ==> SamePd(open, addr))
      modifies this
      ensures Ok(root) && KeepsForeign(old(root), root) && Held(root) + multiset(freed) == Held(old(root))
      ensures Done(old(root), root, addr, Min(addr - L(addr) + ENTRIES, end), Drop)
      ensures Swept(was, root, first, Min(addr - L(addr) + ENTRIES, end), pending)
      ensures pending == -1
              || (pending >= 0 && addr - L(addr) + ENTRIES < end && SamePd(pending, addr - L(addr) + ENTRIES))
    {
      hide *;
      ghost var before := root;
      freed := UnmapChunk(addr, end);
      PdStill(root, I(addr), J(addr));
      ghost var mid := root;
      var next := addr - L(addr) + ENTRIES;
      MinIs(next, end);
      ChunkPages(addr, Min(next, end));
      OnTheWayIs(before, mid, addr);
      SweptChunk(was, before, mid, first, addr, Min(next, end), open);
      NextChunk(addr);
      pending := addr;
      if next >= end || K(next) == 0 {
        var pruned := Prune(I(addr), J(addr), addr);
        KeepsChain(before, mid, root);
        SameDone(before, mid, root, addr, Min(next, end), Drop);
        SweptPrune(was, mid, root, first, addr, Min(next, end));
        freed := freed + pruned;
        pending := -1;
      }
    }

    // Its pages.
    method UnmapChunk(addr: nat, end: nat) returns (freed: seq<nat>)
      requires HasPd(root, I(addr), J(addr)) && addr < end
      modifies this
      ensures HasPd(root, I(addr), J(addr)) && KeepsForeign(old(root), root) && L(addr) <= addr
      ensures Done(old(root), root, addr, Min(addr - L(addr) + ENTRIES, end), Drop)
      ensures Held(root) + multiset(freed) == Held(old(root))
      ensures Ok(root) && OnTheWay(old(root), root, addr) && !EmptyPt(PtOf(root, addr))
    {
      hide *;
      var i, j, k := I(addr), J(addr), K(addr);
      PdStill(root, i, j);
      PdHere(root, addr);
      LeafBound(addr);
      KeepsSelf(root);
      var pde := root[i].kids[j].kids[k];
      var stop := Min(addr - L(addr) + ENTRIES, end);
      MinIs(addr - L(addr) + ENTRIES, end);
      freed := [];
      if pde.Table? {
        var e;
        e, freed := DropLeaves(pde.frame, pde.kids, L(addr), L(addr) + (stop - addr));
        ChunkDone(root, addr, stop, Drop, e);
        PutPtHeld(root, i, j, k, e);
        PutPtKeeps(root, i, j, k, e);
        PutPtFacts(root, i, j, k, e, 0);
        PutPtWay(root, addr, e);
        PutPtIs(root, addr, e);
        root := PutPt(root, i, j, k, e);
        PdStill(root, i, j);
      } else {
        NoPt(root, addr);
        OnTheWaySelf(root, addr);
        PtOfIs(root, addr);
        DoneStart(root, addr, Drop);
        SkipTo(root, root, addr, addr, addr - L(addr) + ENTRIES, end, Drop);
      }
    }

    // Gives an empty page directory back.
    method Prune(i: nat, j: nat, ghost a: nat) returns (freed: seq<nat>)
      requires HasPd(root, i, j) && i == I(a) && j == J(a)
      modifies this
      ensures Ok(root) && Ok(old(root)) && KeepsForeign(old(root), root)
              && Held(root) + multiset(freed) == Held(old(root))
      ensures forall g: nat :: At(root, g) == At(old(root), g)
      ensures !EmptyPd(PdOf(root, a)) && forall g: nat :: PtOf(root, g) == PtOf(old(root), g)
      ensures forall g: nat :: !SamePd(a, g) ==> PdOf(root, g) == PdOf(old(root), g)
    {
      hide *;
      PdStill(root, i, j);
      KeepsSelf(root);
      freed := [];
      var empty := PdEmpty(root[i].kids[j].kids);
      PdOfIs(root, a);
      if empty {
        PruneFacts(root, i, j);
        PruneSweeps(root, a);
        freed := [root[i].kids[j].frame];
        root := PutPd(root, i, j, Absent);
      }
    }

    /**
     paging_user_protect_range: exactly the owned pages of the range change their rights, on the
     same frames.
     */
    method ProtectRange(virt: nat, size: nat, rights: Rights)
      requires Valid()
      modifies this
      ensures Valid() && KeepsForeign(old(root), root) && Held(root) == Held(old(root))
              && (Exclusive(old(root)) ==> Exclusive(root))
      ensures size == 0 || FirstPage(virt) >= EndPage(virt, size) ==> root == old(root)
      ensures size > 0 && FirstPage(virt) < EndPage(virt, size) ==>
                Done(old(root), root, FirstPage(virt), EndPage(virt, size), Protect(rights))
      ensures NoneEmptied(old(root), root)
    {
      hide *;
      Whole();
      SweptStart(root, 0);
      KeepsSelf(root);
      Surrender(root, root, []);
      if size == 0 { return; }
      var first, end := FirstPage(virt), EndPage(virt, size);
      ghost var c := Protect(rights);
      EndBound(virt, size);
      var addr := first;
      DoneStart(root, first, c);
      MinIs(addr, end);
      ghost var was := root;
      while addr < end
        invariant Ok(root) && KeepsForeign(was, root) && first <= addr
                  && (first < end ==> Done(was, root, first, Min(addr, end), c))
        invariant Held(root) == Held(was) && (first >= end ==> root == was) && NoneEmptied(was, root)
        decreases end - addr
      {
        var i, j := I(addr), J(addr);
        RootSize(root, addr);
        MinIs(addr, end);
        if !root[i].Table? {
          NoPdpt(root, addr);
          SkipTo(was, root, first, addr, NextPdpt(addr), end, c);
          addr := NextPdpt(addr);
        } else if !root[i].kids[j].Table? {
          NoPd(root, addr);
          SkipTo(was, root, first, addr, NextPd(addr), end, c);
          addr := NextPd(addr);
        } else {
          PdHere(root, addr);
          ghost var before := root;
          ProtectChunk(addr, end, rights);
          TidiedLater(was, before, root);
          PdStill(root, i, j);
          KeepsChain(was, before, root);
          var next := addr - L(addr) + ENTRIES;
          MinIs(next, end);
          DoneMore(was, before, root, first, addr, Min(next, end), c);
          addr := next;
        }
      }
      MinIs(addr, end);
      Whole2();
      Surrender(was, root, []);
    }

    method ProtectChunk(addr: nat, end: nat, rights: Rights)
      requires HasPd(root, I(addr), J(addr)) && addr < end
      modifies this
      ensures HasPd(root, I(addr), J(addr)) && KeepsForeign(old(root), root) && L(addr) <= addr
              && Held(root) == Held(old(root))
      ensures Done(old(root), root, addr, Min(addr - L(addr) + ENTRIES, end), Protect(rights))
      ensures NoneEmptied(old(root), root)
    {
      hide *;
      var i, j, k := I(addr), J(addr), K(addr);
      ghost var c := Protect(rights);
      PdStill(root, i, j);
      PdHere(root, addr);
      LeafBound(addr);
      KeepsSelf(root);
      var pde := root[i].kids[j].kids[k];
      var stop := Min(addr - L(addr) + ENTRIES, end);
      MinIs(addr - L(addr) + ENTRIES, end);
      if pde.Table? {
        var e := ProtectLeaves(pde.frame, pde.kids, L(addr), L(addr) + (stop - addr), rights);
        ChunkDone(root, addr, stop, c, e);
        PutPtHeld(root, i, j, k, e);
        PutPtKeeps(root, i, j, k, e);
        PutPtFacts(root, i, j, k, e, 0);
        RightsOnly(root, addr, e);
        root := PutPt(root, i, j, k, e);
      } else {
        NoPt(root, addr);
        SweptStart(root, 0);
        DoneStart(root, addr, c);
        SkipTo(root, root, addr, addr, addr - L(addr) + ENTRIES, end, c);
      }
    }

    /**
     paging_user_map_page: one page is added exactly when no table on the way is foreign, the place
     is free and every table that is missing gets a frame; a failure maps nothing, but tables made
     on the way stay.  a, b and c are the frames the allocator had for tables.
     */
    method MapPage(g: nat, frame: nat, rights: Rights, a: Option<nat>, b: Option<nat>, c: Option<nat>)
        returns (ok: bool, made: seq<nat>)
      requires Valid()
      modifies this
      ensures Valid() && KeepsForeign(old(root), root)
      ensures ok <==> g < USER_PAGES && Open(old(root), g, a, b, c) && At(old(root), g) == NoPage
      ensures forall x: nat :: At(root, x) == if ok && x == g then Page(frame, rights) else At(old(root), x)
      ensures Held(root) == Held(old(root)) + multiset(made) + if ok then multiset{frame} else multiset{}
      ensures multiset(made) <= Offer(a) + Offer(b) + Offer(c)
      ensures Once(Held(old(root)) + Offer(a) + Offer(b) + Offer(c) + multiset{frame}) ==> Exclusive(root)
      ensures OnTheWay(old(root), root, g) && (ok ==> NoneEmptied(old(root), root)) && SameBlocks(old(root), root)
    {
      hide *;
      made := [];
      Whole();
      OnTheWaySelf(root, g);
      SameBlocksSelf(root);
      StaysExclusive(root, root, made, {}, a, b, c, frame);
      Whole();
      KeepsSelf(root);
      if g >= USER_PAGES { return false, made; }
      ghost var was := root;
      RootSize(root, g);
      ok, made := MapPath(g, a, b, c);
      if ok {
        ghost var mid := root;
        ok := SetLeaf(g, frame, rights);
        KeepsChain(was, mid, root);
        OnTheWayTwice(was, mid, root, g);
        SameBlocksTwice(was, mid, root);
      }
      PdRoot(root, I(g), J(g));
      if ok {
        PageThere(root, g);
        WayFilled(was, root, g);
      }
      Whole2();
      StaysExclusive(was, root, made, if ok then {frame} else {}, a, b, c, frame);
    }

    // The tables on the way to a page.
    method MapPath(g: nat, a: Option<nat>, b: Option<nat>, c: Option<nat>) returns (ok: bool, made: seq<nat>)
      requires Ok(root) && I(g) < ENTRIES
      modifies this
      ensures Ok(root) && KeepsForeign(old(root), root) && (forall x: nat :: At(root, x) == At(old(root), x))
      ensures OnTheWay(old(root), root, g) && SameBlocks(old(root), root)
      ensures Held(root) == Held(old(root)) + multiset(made)
      ensures ok ==> HasPd(root, I(g), J(g)) && |root[I(g)].kids[J(g)].kids| == ENTRIES
                     && root[I(g)].kids[J(g)].kids[K(g)].Table?
      ensures ok <==> Open(old(root), g, a, b, c)
      ensures multiset(made) <= Offer(a) + Offer(b) + Offer(c)
    {
      hide *;
      made := [];
      ghost var was := root;
      var i, j := I(g), J(g);
      OpenIs(root, g, a, b, c);
      OfferIs(a);
      OnTheWaySelf(root, g);
      SameBlocksSelf(root);
      var s := EnsurePdpt(i, a, g);
      if s.Made? { made := [a.value]; }
      if s.Stuck? || s.NoMemory? { return false, made; }
      ghost var r1 := root;
      var rest;
      if s.Made? { OpenFresh(root, g, b, c); }
      ok, rest := MapLower(g, b, c);
      KeepsChain(was, r1, root);
      OnTheWayTwice(was, r1, root, g);
      SameBlocksTwice(was, r1, root);
      made := made + rest;
    }

    method MapLower(g: nat, b: Option<nat>, c: Option<nat>) returns (ok: bool, made: seq<nat>)
      requires Ok(root) && I(g) < ENTRIES && |root| == ENTRIES && root[I(g)].Table? && |root[I(g)].kids| == ENTRIES
      modifies this
      ensures Ok(root) && KeepsForeign(old(root), root) && (forall x: nat :: At(root, x) == At(old(root), x))
      ensures OnTheWay(old(root), root, g) && SameBlocks(old(root), root)
      ensures Held(root) == Held(old(root)) + multiset(made)
      ensures ok ==> HasPd(root, I(g), J(g)) && |root[I(g)].kids[J(g)].kids| == ENTRIES
                     && root[I(g)].kids[J(g)].kids[K(g)].Table?
      ensures ok <==> OpenLower(old(root), g, b, c)
      ensures multiset(made) <= Offer(b) + Offer(c)
    {
      hide *;
      made := [];
      ghost var was := root;
      var i, j, k := I(g), J(g), K(g);
      OpenLowerIs(root, g, b, c);
      OfferIs(b);
      OfferIs(c);
      var t := EnsurePd(i, j, b, g);
      if t.Made? { made := [b.value]; }
      if t.Stuck? || t.NoMemory? { return false, made; }
      ghost var r2 := root;
      PdStill(root, i, j);
      OpenPdIs(root[i].kids[j].kids[k], c);
      NoPtsAbsent(k);
      var u := EnsurePt(i, j, k, c, g);
      KeepsChain(was, r2, root);
      OnTheWayTwice(was, r2, root, g);
      SameBlocksTwice(was, r2, root);
      if u.Made? { made := made + [c.value]; }
      PdStill(root, i, j);
      ok := u.Ready? || u.Made?;
    }

    // user_table_get_or_create at the three levels
    method EnsurePdpt(i: nat, frame: Option<nat>, ghost g: nat) returns (s: Step)
      requires Ok(root) && i < ENTRIES && i == I(g)
      modifies this
      ensures Ok(root) && KeepsForeign(old(root), root) && (forall x: nat :: At(root, x) == At(old(root), x))
              && OnTheWay(old(root), root, g) && SameBlocks(old(root), root)
      ensures |root| == ENTRIES && |old(root)| == ENTRIES
      ensures s.Stuck? <==> old(root)[i].Foreign?
      ensures s.Ready? || s.Made? ==> root[i].Table? && |root[i].kids| == ENTRIES
      ensures s.Made? ==> frame.Some? && Held(root) == Held(old(root)) + multiset{frame.value} && forall j ::
                          0 <= j < ENTRIES ==> root[i].kids[j].Absent?
      ensures !s.Made? ==> root == old(root)
      ensures s.Ready? <==> old(root)[i].Table?
      ensures s.NoMemory? <==> old(root)[i].Absent? && frame.None?
    {
      KeepsSelf(root);
      assert Pml4Ok(root[i]);
      OnTheWaySelf(root, g);
      SameBlocksSelf(root);
      hide At, KeepsForeign, Held, OnTheWay, SameBlocks;
      if root[i].Table? { return Ready; }
      if root[i].Foreign? { return Stuck; }
      if frame.None? { return NoMemory; }
      NewPdptFacts(root, i, frame.value);
      NewPdptWay(root, g, Table(frame.value, Absents()));
      NewPdptBlocks(root, g, Table(frame.value, Absents()));
      root := root[i := Table(frame.value, Absents())];
      return Made;
    }

    method EnsurePd(i: nat, j: nat, frame: Option<nat>, ghost g: nat) returns (s: Step)
      requires i == I(g) && j == J(g)
      requires Ok(root) && i < ENTRIES && j < ENTRIES && |root| == ENTRIES && root[i].Table?
               && |root[i].kids| == ENTRIES
      modifies this
      ensures Ok(root) && KeepsForeign(old(root), root) && (forall x: nat :: At(root, x) == At(old(root), x))
              && OnTheWay(old(root), root, g) && SameBlocks(old(root), root)
      ensures s.Stuck? <==> old(root)[i].kids[j].Foreign?
      ensures s.Ready? || s.Made? ==> HasPd(root, i, j)
      ensures s.Made? ==> frame.Some? && Held(root) == Held(old(root)) + multiset{frame.value} && |root| == ENTRIES
                          && root[i].Table? && |root[i].kids| == ENTRIES
                          && root[i].kids[j].Table? && root[i].kids[j].kids == NoPts()
      ensures !s.Made? ==> root == old(root)
      ensures s.Ready? <==> old(root)[i].kids[j].Table?
      ensures s.NoMemory? <==> old(root)[i].kids[j].Absent? && frame.None?
    {
      KeepsSelf(root);
      OnTheWaySelf(root, g);
      SameBlocksSelf(root);
      hide At, KeepsForeign, Held, Ok, OnTheWay, SameBlocks;
      if root[i].kids[j].Table? { return Ready; }
      if root[i].kids[j].Foreign? { return Stuck; }
      if frame.None? { return NoMemory; }
      NewPdFacts(root, i, j, frame.value);
      NewPdWay(root, g, Table(frame.value, NoPts()));
      NewPdBlocks(root, g, Table(frame.value, NoPts()));
      root := PutPd(root, i, j, Table(frame.value, NoPts()));
      return Made;
    }

    method EnsurePt(i: nat, j: nat, k: nat, frame: Option<nat>, ghost g: nat) returns (s: Step)
      requires i == I(g) && j == J(g) && k == K(g)
      requires HasPd(root, i, j) && k < ENTRIES && |root[i].kids[j].kids| == ENTRIES
      modifies this
      ensures HasPd(root, i, j) && KeepsForeign(old(root), root) && (forall x: nat :: At(root, x) == At(old(root), x))
              && OnTheWay(old(root), root, g) && SameBlocks(old(root), root)
      ensures |root[i].kids[j].kids| == ENTRIES
      ensures s.Stuck? <==> old(root)[i].kids[j].kids[k].Foreign?
      ensures s.Ready? || s.Made? ==> root[i].kids[j].kids[k].Table?
      ensures s.Made? ==> frame.Some? && Held(root) == Held(old(root)) + multiset{frame.value}
      ensures !s.Made? ==> root == old(root)
      ensures s.Ready? <==> old(root)[i].kids[j].kids[k].Table?
      ensures s.NoMemory? <==> old(root)[i].kids[j].kids[k].Absent? && frame.None?
    {
      PdStill(root, i, j);
      KeepsSelf(root);
      OnTheWaySelf(root, g);
      SameBlocksSelf(root);
      hide At, KeepsForeign, Held, Ok, OnTheWay, SameBlocks;
      if root[i].kids[j].kids[k].Table? { return Ready; }
      if root[i].kids[j].kids[k].Foreign? { return Stuck; }
      if frame.None? { return NoMemory; }
      NewPtFacts(root, i, j, k, frame.value);
      PutPtWay(root, g, Table(frame.value, NoPages()));
      PutPtBlocks(root, g, Table(frame.value, NoPages()));
      root := PutPt(root, i, j, k, Table(frame.value, NoPages()));
      PdStill(root, i, j);
      return Made;
    }

    // The last step: the leaf itself.
    method SetLeaf(g: nat, frame: nat, rights: Rights) returns (ok: bool)
      requires HasPd(root, I(g), J(g)) && |root[I(g)].kids[J(g)].kids| == ENTRIES
               && root[I(g)].kids[J(g)].kids[K(g)].Table?
      modifies this
      ensures HasPd(root, I(g), J(g)) && KeepsForeign(old(root), root) && (ok <==> At(old(root), g) == NoPage)
              && OnTheWay(old(root), root, g) && SameBlocks(old(root), root)
      ensures forall x: nat :: At(root, x) == if ok && x == g then Page(frame, rights) else At(old(root), x)
      ensures Held(root) == Held(old(root)) + if ok then multiset{frame} else multiset{}
    {
      hide *;
      var i, j, k, l := I(g), J(g), K(g), L(g);
      PdStill(root, i, j);
      PdHere(root, g);
      KeepsSelf(root);
      AtLeaf(root, g);
      OnTheWaySelf(root, g);
      SameBlocksSelf(root);
      var e := root[i].kids[j].kids[k];
      if !e.kids[l].NoPage? { return false; }
      LeafSet(root, g, frame, rights);
      LeafWay(root, g, e.(kids := e.kids[l := Page(frame, rights)]));
      LeafBlocks(root, g, e.(kids := e.kids[l := Page(frame, rights)]));
      root := PutPt(root, i, j, k, e.(kids := e.kids[l := Page(frame, rights)]));
      ok := true;
    }

    lemma Whole()
      requires Valid()
      ensures Ok(root)
    {
    }

    lemma Whole2()
      requires Ok(root)
      ensures Valid()
    {
    }
  }

  lemma Surrender(was: Pml4, now: Pml4, freed: seq<nat>)
    requires Held(now) + multiset(freed) == Held(was)
    ensures Exclusive(was) ==> Exclusive(now) && NoRepeats(freed) && forall f :: f in freed ==> f !in Held(now)
  {
    hide Held, Once, NoRepeats;
    if Exclusive(was) { OnceGivenUp(Held(was), Held(now), freed); }
  }

  lemma StaysExclusive(was: Pml4, now: Pml4, made: seq<nat>, page: set<nat>, a: Option<nat>, b: Option<nat>,
      c: Option<nat>, frame: nat)
    requires page <= {frame} && Held(now) == Held(was) + multiset(made) + multiset(page)
             && multiset(made) <= Offer(a) + Offer(b) + Offer(c)
    ensures Once(Held(was) + Offer(a) + Offer(b) + Offer(c) + multiset{frame}) ==> Exclusive(now)
  {
    hide Held, Offer, Once;
    var whole := Held(was) + Offer(a) + Offer(b) + Offer(c) + multiset{frame};
    if Once(whole) { OnceBelow(Held(now), whole); }
  }

  // ---------- what sweeping needs ----------

  lemma NothingToSweep(root: Pml4, first: nat, end: nat)
    requires Ok(root)
    ensures Swept(root, root, first, Min(first, end), -1)
  {
    SweptStart(root, first);
    hide Ok, PtOf, PdOf, EmptyPt, EmptyPd;
  }

  // A range that ends before it starts has no page.
  lemma NoRange(was: Pml4, now: Pml4, first: nat, end: nat)
    requires Tidied(was, now, first, end)
    ensures NoneEmptied(was, now)
  {
  }

  lemma NoPdptOf(root: Pml4, addr: nat, upto: nat)
    requires Ok(root) && I(addr) < ENTRIES && !root[I(addr)].Table? && addr < upto <= NextPdpt(addr)
    ensures forall g: nat :: addr <= g < upto ==> !PdOf(root, g).Table?
  {
    forall g: nat | addr <= g < upto ensures !PdOf(root, g).Table? {
      SameI(addr, g);
      hide I, J;
    }
  }

  lemma NoPdOf(root: Pml4, addr: nat, upto: nat)
    requires Ok(root) && I(addr) < ENTRIES && root[I(addr)].Table? && |root[I(addr)].kids| == ENTRIES
             && !root[I(addr)].kids[J(addr)].Table?
    requires addr < upto <= NextPd(addr)
    ensures forall g: nat :: addr <= g < upto ==> !PdOf(root, g).Table?
  {
    forall g: nat | addr <= g < upto ensures !PdOf(root, g).Table? {
      SameJ(addr, g);
      hide I, J;
    }
  }

  lemma ChunkPages(addr: nat, upto: nat)
    requires L(addr) <= addr && upto <= addr - L(addr) + ENTRIES
    ensures forall g: nat :: addr <= g < upto ==> SamePt(addr, g)
  {
    forall g: nat | addr <= g < upto ensures SamePt(addr, g) { SameK(addr, g); }
  }

  // The next chunk lies under the same directory unless it is the first of one.
  lemma NextChunk(addr: nat)
    requires L(addr) <= addr
    ensures var next := addr - L(addr) + ENTRIES; K(next) != 0 ==> SamePd(addr, next)
  {
    Digits(addr);
    var next := addr - L(addr) + ENTRIES;
    Digits(next);
    var h := I(addr) * ENTRIES + J(addr);
    assert next == h * PD_PAGES + (K(addr) + 1) * ENTRIES;
  }

  lemma OnTheWayIs(was: Pml4, now: Pml4, g: nat)
    requires OnTheWay(was, now, g)
    ensures Ok(was) && Ok(now) && (forall x: nat :: !SamePt(g, x) ==> PtOf(now, x) == PtOf(was, x))
    ensures forall x: nat :: !SamePd(g, x) ==> PdOf(now, x) == PdOf(was, x)
  {
  }

  lemma PutPtIs(root: Pml4, g: nat, e: Entry<Leaf>)
    requires HasPd(root, I(g), J(g)) && PdOk(e)
    ensures |root[I(g)].kids| == ENTRIES && |root[I(g)].kids[J(g)].kids| == ENTRIES
    ensures var r := PutPt(root, I(g), J(g), K(g), e); Ok(r) && PtOf(r, g) == e
  {
    PutPtOf(root, g, e, g);
  }

  lemma PtOfIs(root: Pml4, g: nat)
    requires HasPd(root, I(g), J(g)) && |root[I(g)].kids[J(g)].kids| == ENTRIES
    ensures PtOf(root, g) == root[I(g)].kids[J(g)].kids[K(g)] && (!PtOf(root, g).Table? ==> !EmptyPt(PtOf(root, g)))
  {
    hide I, J, K;
  }

  lemma PdOfIs(root: Pml4, g: nat)
    requires HasPd(root, I(g), J(g))
    ensures PdOf(root, g) == root[I(g)].kids[J(g)] && |PdOf(root, g).kids| == ENTRIES
    ensures EmptyPd(PdOf(root, g)) <==> forall k :: 0 <= k < ENTRIES ==> PdOf(root, g).kids[k].Absent?
  {
    hide I, J, K;
  }

  lemma PruneSweeps(root: Pml4, a: nat)
    requires HasPd(root, I(a), J(a)) && EmptyPd(PdOf(root, a))
    ensures |root[I(a)].kids| == ENTRIES
    ensures var r := PutPd(root, I(a), J(a), Absent);
            && Ok(r) && !EmptyPd(PdOf(r, a)) && (forall g: nat :: PtOf(r, g) == PtOf(root, g))
            && (forall g: nat :: !SamePd(a, g) ==> PdOf(r, g) == PdOf(root, g))
  {
    PdOfIs(root, a);
    hide Ok, PtOf, PdOf, PutPd, I, J;
    PutPdOf(root, I(a), J(a), a);
    var r := PutPd(root, I(a), J(a), Absent);
    forall g: nat ensures PtOf(r, g) == PtOf(root, g) && (!SamePd(a, g) ==> PdOf(r, g) == PdOf(root, g)) {
      PutPdOf(root, I(a), J(a), g);
    }
  }

  // A page table with other rights in it is as full as before.
  lemma RightsOnly(root: Pml4, g: nat, e: Entry<Leaf>)
    requires HasPd(root, I(g), J(g)) && PdOk(e) && e.Table? && |root[I(g)].kids[J(g)].kids| == ENTRIES
    requires var d := root[I(g)].kids[J(g)].kids[K(g)]; EmptyPt(e) ==> EmptyPt(d)
    ensures |root[I(g)].kids| == ENTRIES && NoneEmptied(root, PutPt(root, I(g), J(g), K(g), e))
  {
    PtOfIs(root, g);
    PdStill(root, I(g), J(g));
    var r := PutPt(root, I(g), J(g), K(g), e);
    PutPtWay(root, g, e);
    PutPtOf(root, g, e, g);
    hide Ok, PtOf, PdOf, PutPt, I, J, K, EmptyPt;
    OnTheWayIs(root, r, g);
    forall x: nat ensures EmptyPt(PtOf(r, x)) ==> EmptyPt(PtOf(root, x)) {
      Shared(r, g, x);
      Shared(root, g, x);
    }
    forall x: nat ensures EmptyPd(PdOf(r, x)) ==> EmptyPd(PdOf(root, x)) { Shared(r, g, x); }
  }

  lemma LeafWay(root: Pml4, g: nat, e: Entry<Leaf>)
    requires HasPd(root, I(g), J(g)) && e.Table? && |e.kids| == ENTRIES
    ensures |root[I(g)].kids| == ENTRIES && |root[I(g)].kids[J(g)].kids| == ENTRIES
    ensures OnTheWay(root, PutPt(root, I(g), J(g), K(g), e), g)
  {
    PutPtWay(root, g, e);
  }

  lemma LeafBlocks(root: Pml4, g: nat, e: Entry<Leaf>)
    requires HasPd(root, I(g), J(g)) && e.Table? && |e.kids| == ENTRIES
    requires |root[I(g)].kids[J(g)].kids| == ENTRIES && root[I(g)].kids[J(g)].kids[K(g)].Table?
    ensures |root[I(g)].kids| == ENTRIES && SameBlocks(root, PutPt(root, I(g), J(g), K(g), e))
  {
    PutPtBlocks(root, g, e);
  }

  // With a frame for every table a page can be reached exactly when no table on its way is somebody else's.
  lemma OpenUnlessBlocked(root: Pml4, g: nat, a: Option<nat>, b: Option<nat>, c: Option<nat>)
    requires Ok(root) && g < USER_PAGES && a.Some? && b.Some? && c.Some?
    ensures Open(root, g, a, b, c) <==> !Blocked(root, g)
  {
    assert I(g) < ENTRIES;
    assert Pml4Ok(root[I(g)]);
    hide I, J, K;
  }

  lemma EndBound(virt: nat, size: nat)
    ensures EndPage(virt, size) <= USER_PAGES
  {
  }

  lemma MinIs(a: nat, b: nat)
    ensures Min(a, b) == if a < b then a else b
  {
  }

  lemma RootSize(root: Pml4, addr: nat)
    requires Ok(root) && addr < USER_PAGES
    ensures |root| == ENTRIES && I(addr) < ENTRIES && L(addr) <= addr
    ensures root[I(addr)].Table? ==> |root[I(addr)].kids| == ENTRIES
  {
    assert I(addr) < 256;
    assert Pml4Ok(root[I(addr)]);
  }

  lemma PdHere(root: Pml4, addr: nat)
    requires Ok(root) && I(addr) < ENTRIES && root[I(addr)].Table? && |root[I(addr)].kids| == ENTRIES
             && root[I(addr)].kids[J(addr)].Table?
    ensures HasPd(root, I(addr), J(addr)) && |root[I(addr)].kids[J(addr)].kids| == ENTRIES
    ensures var e := root[I(addr)].kids[J(addr)].kids[K(addr)]; PdOk(e) && (e.Table? ==> |e.kids| == ENTRIES)
  {
    hide I, J, K;
    assert Pml4Ok(root[I(addr)]) && PdptOk(root[I(addr)].kids[J(addr)]);
  }

  lemma PdStill(root: Pml4, i: nat, j: nat)
    requires HasPd(root, i, j)
    ensures i < ENTRIES && j < ENTRIES && Ok(root) && |root| == ENTRIES && root[i].Table? && |root[i].kids| == ENTRIES
            && root[i].kids[j].Table? && |root[i].kids[j].kids| == ENTRIES
  {
    assert Pml4Ok(root[i]) && PdptOk(root[i].kids[j]);
  }

  lemma LeafBound(addr: nat)
    ensures L(addr) <= addr
  {
  }

  lemma SkipTo(was: Pml4, now: Pml4, from: nat, addr: nat, next: nat, end: nat, c: Change)
    requires Done(was, now, from, addr, c) && from <= addr < end && addr <= next && forall g: nat ::
             addr <= g < next ==> At(now, g) == NoPage
    ensures Done(was, now, from, Min(next, end), c)
  {
    hide Done, At;
    DoneSkip(was, now, from, addr, Min(next, end), c);
  }

  lemma SameDone(was: Pml4, mid: Pml4, now: Pml4, from: nat, upto: nat, c: Change)
    requires Done(was, mid, from, upto, c) && Ok(now) && forall g: nat :: At(now, g) == At(mid, g)
    ensures Done(was, now, from, upto, c)
  {
    hide At, Ok;
    forall g: nat ensures At(now, g) == if from <= g < upto then Apply(c, At(was, g)) else At(was, g) {
      assert At(now, g) == At(mid, g);
    }
  }

  datatype Step = Ready | Made | Stuck | NoMemory

  // ---------- whether a page can be reached ----------

  // No table on the way is somebody else's, and there is a frame for every table that is missing.
  predicate OpenPd(e: Entry<Leaf>, c: Option<nat>) { e.Table? || (e.Absent? && c.Some?) }

  predicate OpenPdpt(e: Entry<Entry<Leaf>>, k: nat, b: Option<nat>, c: Option<nat>)
    requires PdptOk(e) && k < ENTRIES
  {
    if e.Table? then OpenPd(e.kids[k], c) else e.Absent? && b.Some? && c.Some?
  }

  predicate OpenPml4(e: Entry<Entry<Entry<Leaf>>>, j: nat, k: nat, a: Option<nat>, b: Option<nat>, c: Option<nat>)
    requires Pml4Ok(e) && j < ENTRIES && k < ENTRIES
  {
    if e.Table? then OpenPdpt(e.kids[j], k, b, c) else e.Absent? && a.Some? && b.Some? && c.Some?
  }

  predicate Open(root: Pml4, g: nat, a: Option<nat>, b: Option<nat>, c: Option<nat>)
    requires Ok(root)
  {
    I(g) < ENTRIES && OpenPml4(root[I(g)], J(g), K(g), a, b, c)
  }

  // The same below the first table.
  predicate OpenLower(root: Pml4, g: nat, b: Option<nat>, c: Option<nat>) {
    Ok(root) && I(g) < ENTRIES && root[I(g)].Table? && OpenPdpt(root[I(g)].kids[J(g)], K(g), b, c)
  }

  lemma OpenIs(root: Pml4, g: nat, a: Option<nat>, b: Option<nat>, c: Option<nat>)
    requires Ok(root) && I(g) < ENTRIES
    ensures |root| == ENTRIES
    ensures root[I(g)].Table? ==> |root[I(g)].kids| == ENTRIES && (Open(root, g, a, b, c) <==> OpenLower(root, g, b, c))
    ensures root[I(g)].Foreign? ==> !Open(root, g, a, b, c)
    ensures root[I(g)].Absent? ==> (Open(root, g, a, b, c) <==> a.Some? && b.Some? && c.Some?)
  {
    hide I, J, K, OpenPdpt;
    assert Pml4Ok(root[I(g)]);
  }

  lemma OpenFresh(root: Pml4, g: nat, b: Option<nat>, c: Option<nat>)
    requires Ok(root) && I(g) < ENTRIES && root[I(g)].Table? && forall j ::
             0 <= j < ENTRIES ==> root[I(g)].kids[j].Absent?
    ensures OpenLower(root, g, b, c) <==> b.Some? && c.Some?
  {
    hide I, J, K;
  }

  lemma OpenLowerIs(root: Pml4, g: nat, b: Option<nat>, c: Option<nat>)
    requires Ok(root) && I(g) < ENTRIES && |root| == ENTRIES && root[I(g)].Table?
    ensures |root[I(g)].kids| == ENTRIES
    ensures var e := root[I(g)].kids[J(g)];
            && (e.Foreign? ==> !OpenLower(root, g, b, c))
            && (e.Absent? ==> (OpenLower(root, g, b, c) <==> b.Some? && c.Some?))
            && (e.Table? ==> |e.kids| == ENTRIES && (OpenLower(root, g, b, c) <==> OpenPd(e.kids[K(g)], c)))
  {
    hide I, J, K, OpenPd;
    assert Pml4Ok(root[I(g)]) && PdptOk(root[I(g)].kids[J(g)]);
  }

  lemma OpenPdIs(e: Entry<Leaf>, c: Option<nat>)
    ensures OpenPd(e, c) <==> e.Table? || (e.Absent? && c.Some?)
  {
  }

  lemma NoPtsAbsent(k: nat)
    requires k < ENTRIES
    ensures |NoPts()| == ENTRIES && NoPts()[k].Absent?
  {
  }

  // The frames on offer.
  function Offer(x: Option<nat>): multiset<nat> { if x.Some? then multiset{x.value} else multiset{} }

  lemma OfferIs(x: Option<nat>)
    ensures x.Some? ==> Offer(x) == multiset{x.value}
  {
  }

  lemma PdRoot(root: Pml4, i: nat, j: nat)
    ensures HasPd(root, i, j) ==> Ok(root)
  {
  }

  function Absents(): (s: Pdpt)
    ensures |s| == ENTRIES && forall j :: 0 <= j < ENTRIES ==> s[j].Absent?
  {
    seq(ENTRIES, _ => Absent)
  }

  function NoPts(): (s: Pd)
    ensures |s| == ENTRIES && forall j :: 0 <= j < ENTRIES ==> s[j].Absent?
  {
    seq(ENTRIES, _ => Absent)
  }

  function NoPages(): (s: Pt)
    ensures |s| == ENTRIES && forall j :: 0 <= j < ENTRIES ==> s[j].NoPage?
  {
    seq(ENTRIES, _ => NoPage)
  }

  lemma NewPdptFacts(root: Pml4, i: nat, f: nat)
    requires Ok(root) && i < ENTRIES && root[i].Absent?
    ensures var r := root[i := Table(f, Absents())];
            Ok(r) && KeepsForeign(root, r) && (forall g: nat :: At(r, g) == At(root, g))
                && Held(r) == Held(root) + multiset{f}
  {
    hide Held, At;
    NewPdptHeld(root, i, f);
    forall g: nat ensures At(root[i := Table(f, Absents())], g) == At(root, g) { NewPdptAt(root, i, f, g); }
    NewPdptKeeps(root, i, f);
  }

  lemma NewPdptHeld(root: Pml4, i: nat, f: nat)
    requires i < |root| && root[i].Absent?
    ensures Held(root[i := Table(f, Absents())]) == Held(root) + multiset{f}
  {
    SumEmpty(Absents(), HeldPdpt);
    SumUpdate(root, HeldPml4, i, Table(f, Absents()));
  }

  lemma NewPdptKeeps(root: Pml4, i: nat, f: nat)
    requires Ok(root) && i < ENTRIES && root[i].Absent?
    ensures Ok(root[i := Table(f, Absents())]) && KeepsForeign(root, root[i := Table(f, Absents())])
  {
    hide Absents;
  }

  lemma NewPdptAt(root: Pml4, i: nat, f: nat, g: nat)
    requires Ok(root) && i < ENTRIES && root[i].Absent?
    ensures Ok(root[i := Table(f, Absents())]) && At(root[i := Table(f, Absents())], g) == At(root, g)
  {
    hide I, J, K, L, Absents;
  }

  lemma NewPdFacts(root: Pml4, i: nat, j: nat, f: nat)
    requires Ok(root) && i < ENTRIES && j < ENTRIES && root[i].Table? && |root[i].kids| == ENTRIES
             && root[i].kids[j].Absent?
    ensures var r := PutPd(root, i, j, Table(f, NoPts()));
            && Ok(r) && KeepsForeign(root, r) && HasPd(r, i, j) && r[i].kids[j] == Table(f, NoPts())
            && (forall g: nat :: At(r, g) == At(root, g)) && Held(r) == Held(root) + multiset{f}
  {
    hide NoPts, Held, At;
    var e: Entry<Entry<Leaf>> := Table(f, NoPts());
    var r := PutPd(root, i, j, e);
    PutPdFacts(root, i, j, e, 0);
    assert KeepsForeign(root, r);
    PutPdHeld(root, i, j, e);
    SumEmpty(NoPts(), HeldPd);
    hide KeepsForeign, Ok;
    forall g: nat ensures At(r, g) == At(root, g) { NewPdAt(root, i, j, f, g); }
  }

  lemma NewPdAt(root: Pml4, i: nat, j: nat, f: nat, g: nat)
    requires Ok(root) && i < ENTRIES && j < ENTRIES && root[i].Table? && |root[i].kids| == ENTRIES
             && root[i].kids[j].Absent?
    ensures Ok(PutPd(root, i, j, Table(f, NoPts()))) && At(PutPd(root, i, j, Table(f, NoPts())), g) == At(root, g)
  {
    PutPdFacts(root, i, j, Table(f, NoPts()), g);
    hide I, J, K, L, PutPd;
  }

  lemma NewPtFacts(root: Pml4, i: nat, j: nat, k: nat, f: nat)
    requires HasPd(root, i, j) && k < ENTRIES && |root[i].kids[j].kids| == ENTRIES && root[i].kids[j].kids[k].Absent?
    ensures var r := PutPt(root, i, j, k, Table(f, NoPages()));
            && HasPd(r, i, j) && KeepsForeign(root, r) && r[i].kids[j].kids[k].Table?
            && (forall g: nat :: At(r, g) == At(root, g)) && Held(r) == Held(root) + multiset{f}
  {
    PdStill(root, i, j);
    hide NoPages, Ok, At, Held;
    var e: Entry<Leaf> := Table(f, NoPages());
    var r := PutPt(root, i, j, k, e);
    PutPtFacts(root, i, j, k, e, 0);
    PutPtKeeps(root, i, j, k, e);
    PutPtHeld(root, i, j, k, e);
    NothingHeld(NoPages());
    hide KeepsForeign, PutPt;
    forall g: nat ensures At(r, g) == At(root, g) { NewPtAt(root, i, j, k, f, g); }
  }

  lemma NewPtAt(root: Pml4, i: nat, j: nat, k: nat, f: nat, g: nat)
    requires HasPd(root, i, j) && k < ENTRIES && |root[i].kids[j].kids| == ENTRIES && root[i].kids[j].kids[k].Absent?
    ensures |root[i].kids| == ENTRIES
    ensures HasPd(PutPt(root, i, j, k, Table(f, NoPages())), i, j)
            && At(PutPt(root, i, j, k, Table(f, NoPages())), g) == At(root, g)
  {
    PdStill(root, i, j);
    PutPtFacts(root, i, j, k, Table(f, NoPages()), g);
    AtThrough(root, g);
    hide I, J, K, L, PutPt, Ok;
  }

  lemma LeafSet(root: Pml4, g: nat, frame: nat, rights: Rights)
    requires HasPd(root, I(g), J(g)) && |root[I(g)].kids[J(g)].kids| == ENTRIES
    requires var e := root[I(g)].kids[J(g)].kids[K(g)]; e.Table? && PdOk(e) && e.kids[L(g)].NoPage?
    ensures var e := root[I(g)].kids[J(g)].kids[K(g)];
            var r := PutPt(root, I(g), J(g), K(g), e.(kids := e.kids[L(g) := Page(frame, rights)]));
            && HasPd(r, I(g), J(g)) && KeepsForeign(root, r) && Held(r) == Held(root) + multiset{frame}
            && forall x: nat :: At(r, x) == if x == g then Page(frame, rights) else At(root, x)
  {
    PdStill(root, I(g), J(g));
    hide I, J, K, L, At, Held, PutPt, KeepsForeign, Ok;
    LeafSetHeld(root, I(g), J(g), K(g), L(g), frame, rights);
    var e := root[I(g)].kids[J(g)].kids[K(g)];
    var r := PutPt(root, I(g), J(g), K(g), e.(kids := e.kids[L(g) := Page(frame, rights)]));
    forall x: nat ensures At(r, x) == if x == g then Page(frame, rights) else At(root, x) {
      LeafSetAt(root, g, frame, rights, x);
    }
  }

  lemma LeafSetHeld(root: Pml4, i: nat, j: nat, k: nat, l: nat, frame: nat, rights: Rights)
    requires HasPd(root, i, j) && |root[i].kids[j].kids| == ENTRIES && k < ENTRIES && l < ENTRIES
    requires var e := root[i].kids[j].kids[k]; e.Table? && PdOk(e) && e.kids[l].NoPage?
    ensures |root[i].kids| == ENTRIES
    ensures var e := root[i].kids[j].kids[k];
            var r := PutPt(root, i, j, k, e.(kids := e.kids[l := Page(frame, rights)]));
            HasPd(r, i, j) && KeepsForeign(root, r) && Held(r) == Held(root) + multiset{frame}
  {
    PdStill(root, i, j);
    hide Ok, Held, At;
    var e := root[i].kids[j].kids[k];
    var e' := e.(kids := e.kids[l := Page(frame, rights)]);
    PutPtFacts(root, i, j, k, e', 0);
    PutPtKeeps(root, i, j, k, e');
    PutPtHeld(root, i, j, k, e');
    SumUpdate(e.kids, HeldLeaf, l, Page(frame, rights));
  }

  lemma LeafSetAt(root: Pml4, g: nat, frame: nat, rights: Rights, x: nat)
    requires HasPd(root, I(g), J(g)) && |root[I(g)].kids[J(g)].kids| == ENTRIES
    requires var e := root[I(g)].kids[J(g)].kids[K(g)]; e.Table? && PdOk(e) && e.kids[L(g)].NoPage?
    ensures |root[I(g)].kids| == ENTRIES
    ensures var e := root[I(g)].kids[J(g)].kids[K(g)];
            var r := PutPt(root, I(g), J(g), K(g), e.(kids := e.kids[L(g) := Page(frame, rights)]));
            HasPd(r, I(g), J(g)) && At(r, x) == if x == g then Page(frame, rights) else At(root, x)
  {
    PdStill(root, I(g), J(g));
    var e := root[I(g)].kids[J(g)].kids[K(g)];
    PutPtFacts(root, I(g), J(g), K(g), e.(kids := e.kids[L(g) := Page(frame, rights)]), x);
    if SamePt(g, x) {
      LeafIndex(g, x);
      AtLeaf(root, x);
    }
    hide I, J, K, L, PutPt, Ok;
  }

  // ---------- counting and destroying ----------

  lemma SumNext<T(!new)>(s: seq<T>, f: T -> multiset<nat>, i: nat)
    requires i < |s|
    ensures Sum(s[..i + 1], f) == Sum(s[..i], f) + f(s[i])
  {
    assert s[..i + 1][..i] == s[..i];
  }

  lemma SumNone<T(!new)>(s: seq<T>, f: T -> multiset<nat>)
    ensures Sum(s[..0], f) == multiset{} && s[..|s|] == s
  {
  }

  // paging_free_user_pt and its callers: the frames released, pages apart from tables.
  method FreePt(pt: Pt) returns (pages: seq<nat>)
    ensures multiset(pages) == Sum(pt, OwnedLeaf)
  {
    hide Sum;
    pages := [];
    SumNone(pt, OwnedLeaf);
    for l := 0 to |pt|
      invariant multiset(pages) == Sum(pt[..l], OwnedLeaf)
    {
      SumNext(pt, OwnedLeaf, l);
      if pt[l].Page? { pages := pages + [pt[l].frame]; }
    }
  }

  method FreePd(pd: Pd) returns (pages: seq<nat>, tables: seq<nat>)
    ensures multiset(pages) == Sum(pd, PagesPd) && multiset(tables) == Sum(pd, TablesPd)
  {
    hide Sum;
    pages, tables := [], [];
    SumNone(pd, PagesPd);
    SumNone(pd, TablesPd);
    for k := 0 to |pd|
      invariant multiset(pages) == Sum(pd[..k], PagesPd) && multiset(tables) == Sum(pd[..k], TablesPd)
    {
      SumNext(pd, PagesPd, k);
      SumNext(pd, TablesPd, k);
      if pd[k].Table? {
        var more := FreePt(pd[k].kids);
        pages, tables := pages + more, tables + [pd[k].frame];
      }
    }
  }

  method FreePdpt(pdpt: Pdpt) returns (pages: seq<nat>, tables: seq<nat>)
    ensures multiset(pages) == Sum(pdpt, PagesPdpt) && multiset(tables) == Sum(pdpt, TablesPdpt)
  {
    hide Sum;
    pages, tables := [], [];
    SumNone(pdpt, PagesPdpt);
    SumNone(pdpt, TablesPdpt);
    for j := 0 to |pdpt|
      invariant multiset(pages) == Sum(pdpt[..j], PagesPdpt) && multiset(tables) == Sum(pdpt[..j], TablesPdpt)
    {
      SumNext(pdpt, PagesPdpt, j);
      SumNext(pdpt, TablesPdpt, j);
      if pdpt[j].Table? {
        var more, down := FreePd(pdpt[j].kids);
        pages, tables := pages + more, tables + down + [pdpt[j].frame];
      }
    }
  }

  /** paging_destroy_user_pml4: releases every owned page and every user table exactly once, and nothing else. */
  method Destroy(root: Pml4) returns (pages: seq<nat>, tables: seq<nat>)
    requires |root| == ENTRIES
    ensures multiset(pages) == PagesOf(root) && multiset(tables) == TablesOf(root)
    ensures Ok(root) ==> |pages| == |OwnedPages(root)| && forall f :: f in pages <==>
                                                                        exists g: nat ::
                                                                            g < USER_PAGES && On(At(root, g), f)
    ensures Exclusive(root) ==> NoRepeats(pages + tables) && forall f :: f in pages + tables ==> f in Held(root)
  {
    hide Sum;
    pages, tables := [], [];
    var half := root[..USER_ENTRIES];
    SumNone(half, PagesPml4);
    SumNone(half, TablesPml4);
    for i := 0 to USER_ENTRIES
      invariant multiset(pages) == Sum(half[..i], PagesPml4) && multiset(tables) == Sum(half[..i], TablesPml4)
    {
      SumNext(half, PagesPml4, i);
      SumNext(half, TablesPml4, i);
      if root[i].Table? {
        var more, down := FreePdpt(root[i].kids);
        pages, tables := pages + more, tables + down + [root[i].frame];
      }
    }
    assert half[..USER_ENTRIES] == half;
    Released(root, pages, tables);
  }

  lemma Released(root: Pml4, pages: seq<nat>, tables: seq<nat>)
    requires |root| == ENTRIES && multiset(pages) == PagesOf(root) && multiset(tables) == TablesOf(root)
    ensures Ok(root) ==> |pages| == |OwnedPages(root)| && forall f :: f in pages <==>
                                                                        exists g: nat ::
                                                                            g < USER_PAGES && On(At(root, g), f)
    ensures Exclusive(root) ==> NoRepeats(pages + tables) && forall f :: f in pages + tables ==> f in Held(root)
  {
    hide Ok, PagesOf, TablesOf, Held, At, On, Once, NoRepeats, OwnedPages;
    if Ok(root) {
      OwnedCount(root);
      assert |pages| == |multiset(pages)|;
      forall f ensures f in pages <==> exists g: nat :: g < USER_PAGES && On(At(root, g), f) {
        OwnedIffMapped(root, f);
        assert f in pages <==> f in multiset(pages);
      }
    }
    if Exclusive(root) {
      HeldCovers(root);
      assert multiset(pages + tables) == multiset(pages) + multiset(tables);
      OnceBelow(multiset(pages + tables), Held(root));
      OnceListed(pages + tables);
      forall f | f in pages + tables ensures f in Held(root) { assert f in multiset(pages + tables); }
    }
  }

  /** Where every frame is used once, two pages of user space never show the same frame. */
  lemma PagesApart(root: Pml4, g: nat, h: nat)
    requires Ok(root) && Exclusive(root) && g < USER_PAGES && h < USER_PAGES && At(root, g).Page? && At(root, h).Page?
    ensures At(root, g).frame == At(root, h).frame ==> g == h
  {
    hide At, Ok, Held, PagesOf, TablesOf, Once, On, Cleared, USER_PAGES;
    if g != h && At(root, g).frame == At(root, h).frame {
      var f, r := At(root, g).frame, Cleared(root, g);
      ClearedFacts(root, g, h);
      OnIs(At(r, h), f);
      OwnedIffMapped(r, f);
      HeldCovers(r);
      Twice(Held(root), Held(r), f);
      assert false;
    }
  }

  lemma Twice(whole: multiset<nat>, rest: multiset<nat>, f: nat)
    requires rest + multiset{f} == whole && f in rest
    ensures !Once(whole)
  {
    assert whole[f] >= 2;
  }

  lemma OnIs(x: Leaf, f: nat)
    ensures On(x, f) <==> x.Page? && x.frame == f
  {
  }

  // A tree with one leaf dropped.
  function Cleared(root: Pml4, g: nat): Pml4
    requires Ok(root) && At(root, g).Page?
  {
    var e := root[I(g)].kids[J(g)].kids[K(g)];
    PutPt(root, I(g), J(g), K(g), e.(kids := e.kids[L(g) := NoPage]))
  }

  lemma LeafHere(root: Pml4, g: nat)
    requires Ok(root) && At(root, g).Page?
    ensures HasPd(root, I(g), J(g)) && root[I(g)].kids[J(g)].kids[K(g)].Table? && PdOk(root[I(g)].kids[J(g)].kids[K(g)])
    ensures At(root, g) == root[I(g)].kids[J(g)].kids[K(g)].kids[L(g)]
  {
    hide I, J, K, L;
  }

  lemma ClearedFacts(root: Pml4, g: nat, h: nat)
    requires Ok(root) && At(root, g).Page? && g != h
    ensures var r := Cleared(root, g);
            Ok(r) && |r| == ENTRIES && At(r, h) == At(root, h) && Held(r) + multiset{At(root, g).frame} == Held(root)
  {
    hide Ok, At, Held, Cleared;
    ClearedAt(root, g, h);
    ClearedHeld(root, g);
  }

  lemma ClearedAt(root: Pml4, g: nat, h: nat)
    requires Ok(root) && At(root, g).Page? && g != h
    ensures var r := Cleared(root, g); Ok(r) && |r| == ENTRIES && At(r, h) == At(root, h)
  {
    LeafHere(root, g);
    var i, j, k, l := I(g), J(g), K(g), L(g);
    var e := root[i].kids[j].kids[k];
    if SamePt(g, h) {
      LeafIndex(g, h);
      AtLeaf(root, h);
    }
    PdStill(root, i, j);
    hide I, J, K, L, Ok, At, PutPt;
    PutPtFacts(root, i, j, k, e.(kids := e.kids[l := NoPage]), h);
    PdStill(Cleared(root, g), i, j);
  }

  lemma ClearedHeld(root: Pml4, g: nat)
    requires Ok(root) && At(root, g).Page?
    ensures Held(Cleared(root, g)) + multiset{At(root, g).frame} == Held(root)
  {
    LeafHere(root, g);
    var i, j, k, l := I(g), J(g), K(g), L(g);
    var e := root[i].kids[j].kids[k];
    PdStill(root, i, j);
    hide I, J, K, L, Ok, At, Held, PutPt, Sum, HeldLeaf;
    PutPtHeld(root, i, j, k, e.(kids := e.kids[l := NoPage]));
    ClearOne(e.kids, l);
  }

  /** paging_count_user_pages: the number of user pages the flat map owns, which destroying the tree would release. */
  method CountPages(root: Pml4) returns (count: nat)
    requires |root| == ENTRIES
    ensures count == |PagesOf(root)|
    ensures Ok(root) ==> count == |OwnedPages(root)|
  {
    hide Sum;
    count := 0;
    var half := root[..USER_ENTRIES];
    SumNone(half, PagesPml4);
    for i := 0 to USER_ENTRIES
      invariant count == |Sum(half[..i], PagesPml4)|
    {
      SumNext(half, PagesPml4, i);
      if root[i].Table? {
        var n := CountPdpt(root[i].kids);
        count := count + n;
      }
    }
    assert half[..USER_ENTRIES] == half;
    if Ok(root) { OwnedCount(root); }
  }

  method CountPdpt(pdpt: Pdpt) returns (count: nat)
    ensures count == |Sum(pdpt, PagesPdpt)|
  {
    hide Sum;
    count := 0;
    SumNone(pdpt, PagesPdpt);
    for j := 0 to |pdpt|
      invariant count == |Sum(pdpt[..j], PagesPdpt)|
    {
      SumNext(pdpt, PagesPdpt, j);
      if pdpt[j].Table? {
        var n := CountPd(pdpt[j].kids);
        count := count + n;
      }
    }
  }

  method CountPd(pd: Pd) returns (count: nat)
    ensures count == |Sum(pd, PagesPd)|
  {
    hide Sum;
    count := 0;
    SumNone(pd, PagesPd);
    for k := 0 to |pd|
      invariant count == |Sum(pd[..k], PagesPd)|
    {
      SumNext(pd, PagesPd, k);
      if pd[k].Table? {
        var n := CountPt(pd[k].kids);
        count := count + n;
      }
    }
  }

  method CountPt(pt: Pt) returns (count: nat)
    ensures count == |Sum(pt, OwnedLeaf)|
  {
    hide Sum;
    count := 0;
    SumNone(pt, OwnedLeaf);
    for l := 0 to |pt|
      invariant count == |Sum(pt[..l], OwnedLeaf)|
    {
      SumNext(pt, OwnedLeaf, l);
      if pt[l].Page? { count := count + 1; }
    }
  }
}
