/**
 Empty tables: unmapping gives back every page table and page directory it empties
 (kernel/mm/paging64.c).
 */
module PageSweep {
  import opened PageTables

  predicate EmptyPt(e: Entry<Leaf>) { e.Table? && forall l :: 0 <= l < |e.kids| ==> e.kids[l].NoPage? }

  predicate EmptyPd(e: Entry<Entry<Leaf>>) { e.Table? && forall k :: 0 <= k < |e.kids| ==> e.kids[k].Absent? }

  function PdAt(root: Pml4, i: nat, j: nat): Entry<Entry<Leaf>>
    requires Ok(root)
  {
    if i < ENTRIES && j < ENTRIES && root[i].Table? then root[i].kids[j] else Absent
  }

  // The directory and the page table on the way to a page.
  function PdOf(root: Pml4, g: nat): (e: Entry<Entry<Leaf>>)
    requires Ok(root)
    ensures e.Table? ==> |e.kids| == ENTRIES
  {
    assert I(g) < ENTRIES ==> Pml4Ok(root[I(g)]);
    assert PdptOk(PdAt(root, I(g), J(g)));
    PdAt(root, I(g), J(g))
  }

  function PtOf(root: Pml4, g: nat): Entry<Leaf>
    requires Ok(root)
  {
    var d := PdOf(root, g);
    if d.Table? then d.kids[K(g)] else Absent
  }

  predicate SamePd(a: nat, g: nat) { I(g) == I(a) && J(g) == J(a) }

  // Pages under one directory, or one page table, see the same one.
  lemma Shared(root: Pml4, a: nat, g: nat)
    requires Ok(root)
    ensures SamePd(a, g) ==> PdOf(root, g) == PdOf(root, a)
    ensures SamePt(a, g) ==> PtOf(root, g) == PtOf(root, a)
  {
  }

  // ---------- replacing one entry ----------

  lemma PutPtOf(root: Pml4, a: nat, e: Entry<Leaf>, g: nat)
    requires HasPd(root, I(a), J(a)) && PdOk(e)
    ensures |root[I(a)].kids| == ENTRIES && |root[I(a)].kids[J(a)].kids| == ENTRIES
    ensures var r := PutPt(root, I(a), J(a), K(a), e);
            && Ok(r) && PtOf(r, g) == (if SamePt(a, g) then e else PtOf(root, g))
               && (!SamePd(a, g) ==> PdOf(r, g) == PdOf(root, g))
            && PdOf(r, a).Table? && PdOf(r, a).kids[K(a)] == e
  {
    PutPtFacts(root, I(a), J(a), K(a), e, g);
    hide I, J, K, L;
    assert Pml4Ok(root[I(a)]) && PdptOk(root[I(a)].kids[J(a)]);
  }

  lemma PutPdOf(root: Pml4, i: nat, j: nat, g: nat)
    requires HasPd(root, i, j) && EmptyPd(root[i].kids[j])
    ensures |root[i].kids| == ENTRIES
    ensures var r := PutPd(root, i, j, Absent);
            Ok(r) && PtOf(r, g) == PtOf(root, g) && PdOf(r, g) == if I(g) == i
                && J(g) == j then Absent else PdOf(root, g)
  {
    PutPdFacts(root, i, j, Absent, g);
    hide I, J, K, L;
    assert Pml4Ok(root[i]) && PdptOk(root[i].kids[j]);
  }

  // ---------- sweeping a range ----------

  // No table is empty now that was not before.
  ghost predicate NoneEmptied(was: Pml4, now: Pml4) {
    && Ok(was) && Ok(now)
    && (forall g: nat :: EmptyPt(PtOf(now, g)) ==> EmptyPt(PtOf(was, g)))
    && (forall g: nat :: EmptyPd(PdOf(now, g)) ==> EmptyPd(PdOf(was, g)))
  }

  // And none on the way to a page of the range.
  ghost predicate Tidied(was: Pml4, now: Pml4, first: nat, end: nat) {
    && NoneEmptied(was, now)
    && (forall g: nat :: first <= g < end ==> !EmptyPt(PtOf(now, g)))
    && (forall g: nat :: first <= g < end ==> !EmptyPd(PdOf(now, g)))
  }

  // The same with one directory still to be looked at, the one of page `open`, if that is a page.
  ghost predicate Swept(was: Pml4, now: Pml4, first: nat, upto: nat, open: int) {
    && Ok(was) && Ok(now)
    && (forall g: nat :: first <= g < upto ==> !EmptyPt(PtOf(now, g)))
    && (forall g: nat :: first <= g < upto && EmptyPd(PdOf(now, g)) ==> Pending(open, g))
    && (forall g: nat :: EmptyPt(PtOf(now, g)) ==> EmptyPt(PtOf(was, g)))
    && (forall g: nat :: EmptyPd(PdOf(now, g)) ==> EmptyPd(PdOf(was, g)) || Pending(open, g))
  }

  predicate Pending(open: int, g: nat) { open >= 0 && SamePd(open, g) }

  lemma SweptStart(root: Pml4, first: nat)
    requires Ok(root)
    ensures Swept(root, root, first, first, -1) && NoneEmptied(root, root)
  {
    hide Ok, PtOf, PdOf, EmptyPt, EmptyPd;
  }

  lemma SweptDone(was: Pml4, now: Pml4, first: nat, end: nat)
    requires Swept(was, now, first, end, -1)
    ensures Tidied(was, now, first, end)
  {
    hide Ok, PtOf, PdOf, EmptyPt, EmptyPd, I, J;
  }

  // A stretch without a directory needs no sweeping, and leaves nothing open.
  lemma SweptSkip(was: Pml4, now: Pml4, first: nat, addr: nat, upto: nat, open: int)
    requires Swept(was, now, first, addr, open) && first <= addr && (open >= 0 ==> SamePd(open, addr))
             && !PdOf(now, addr).Table?
    requires forall g: nat :: addr <= g < upto ==> !PdOf(now, g).Table?
    ensures Swept(was, now, first, upto, -1)
  {
    hide Ok, PdOf;
    forall g: nat | Pending(open, g) ensures !EmptyPd(PdOf(now, g)) { Shared(now, addr, g); }
    hide I, J, K, EmptyPd, PdAt, PtOf, SamePd;
    forall g: nat | addr <= g < upto ensures !EmptyPt(PtOf(now, g)) && !EmptyPd(PdOf(now, g)) { NoTables(now, g); }
  }

  lemma NoTables(root: Pml4, g: nat)
    requires Ok(root) && !PdOf(root, g).Table?
    ensures !EmptyPt(PtOf(root, g)) && !EmptyPd(PdOf(root, g))
  {
  }

  // The pages of one page table: it is not empty now; its directory may be.
  lemma SweptChunk(was: Pml4, mid: Pml4, now: Pml4, first: nat, addr: nat, upto: nat, open: int)
    requires Swept(was, mid, first, addr, open) && first <= addr && (open >= 0 ==> SamePd(open, addr)) && Ok(now)
    requires !EmptyPt(PtOf(now, addr)) && forall g: nat :: addr <= g < upto ==> SamePt(addr, g)
    requires forall g: nat :: !SamePt(addr, g) ==> PtOf(now, g) == PtOf(mid, g)
    requires forall g: nat :: !SamePd(addr, g) ==> PdOf(now, g) == PdOf(mid, g)
    ensures Swept(was, now, first, upto, addr)
  {
    hide Ok, PtOf, PdOf, EmptyPt, EmptyPd, I, J, K;
    forall g: nat ensures EmptyPt(PtOf(now, g)) ==> EmptyPt(PtOf(mid, g)) && !SamePt(addr, g) { Shared(now, addr, g); }
    forall g: nat ensures EmptyPd(PdOf(now, g)) ==> EmptyPd(PdOf(mid, g)) || Pending(addr, g) {}
    forall g: nat | first <= g < upto && EmptyPd(PdOf(now, g)) ensures Pending(addr, g) {
      assert g >= addr ==> SamePt(addr, g);
    }
  }

  lemma SweptPrune(was: Pml4, mid: Pml4, now: Pml4, first: nat, addr: nat, upto: nat)
    requires Swept(was, mid, first, upto, addr) && Ok(now) && !EmptyPd(PdOf(now, addr))
    requires forall g: nat :: PtOf(now, g) == PtOf(mid, g)
    requires forall g: nat :: !SamePd(addr, g) ==> PdOf(now, g) == PdOf(mid, g)
    ensures Swept(was, now, first, upto, -1)
  {
    hide Ok, PtOf, PdOf, EmptyPt, EmptyPd, I, J, K;
    forall g: nat ensures EmptyPd(PdOf(now, g)) ==> EmptyPd(PdOf(mid, g)) && !Pending(addr, g) { Shared(now, addr, g); }
  }

  lemma TidiedLater(was: Pml4, mid: Pml4, now: Pml4)
    requires NoneEmptied(was, mid) && NoneEmptied(mid, now)
    ensures NoneEmptied(was, now)
  {
    hide Ok, PtOf, PdOf, EmptyPt, EmptyPd;
  }

  // ---------- adding a page ----------

  // Only the tables on the way to page g changed.
  ghost predicate OnTheWay(was: Pml4, now: Pml4, g: nat) {
    && Ok(was) && Ok(now)
    && (forall x: nat :: !SamePt(g, x) ==> PtOf(now, x) == PtOf(was, x))
    && (forall x: nat :: !SamePd(g, x) ==> PdOf(now, x) == PdOf(was, x))
  }

  lemma OnTheWaySelf(root: Pml4, g: nat)
    requires Ok(root)
    ensures OnTheWay(root, root, g)
  {
    hide Ok, PtOf, PdOf, SamePd, SamePt;
  }

  lemma OnTheWayTwice(was: Pml4, mid: Pml4, now: Pml4, g: nat)
    requires OnTheWay(was, mid, g) && OnTheWay(mid, now, g)
    ensures OnTheWay(was, now, g)
  {
    hide Ok, PtOf, PdOf, SamePd, SamePt;
  }

  // The page is there, so its tables are not empty.
  lemma WayFilled(was: Pml4, now: Pml4, g: nat)
    requires OnTheWay(was, now, g) && !EmptyPt(PtOf(now, g)) && !EmptyPd(PdOf(now, g))
    ensures NoneEmptied(was, now)
  {
    hide Ok, PtOf, PdOf, EmptyPt, EmptyPd, I, J, K;
    forall x: nat ensures EmptyPt(PtOf(now, x)) ==> EmptyPt(PtOf(was, x)) { Shared(now, g, x); }
    forall x: nat ensures EmptyPd(PdOf(now, x)) ==> EmptyPd(PdOf(was, x)) { Shared(now, g, x); }
  }

  lemma PageThere(root: Pml4, g: nat)
    requires Ok(root) && At(root, g) != NoPage
    ensures !EmptyPt(PtOf(root, g)) && !EmptyPd(PdOf(root, g))
  {
    hide I, J, K, L;
  }

  // Tables made on the way to a page that could not be added go with the next sweep over it.
  lemma WaySwept(was: Pml4, mid: Pml4, now: Pml4, g: nat, first: nat, end: nat)
    requires OnTheWay(was, mid, g) && Tidied(mid, now, first, end) && first <= g < end
    ensures NoneEmptied(was, now)
  {
    hide Ok, PtOf, PdOf, EmptyPt, EmptyPd, I, J, K;
    forall x: nat ensures EmptyPt(PtOf(now, x)) ==> EmptyPt(PtOf(was, x)) { Shared(now, g, x); }
    forall x: nat ensures EmptyPd(PdOf(now, x)) ==> EmptyPd(PdOf(was, x)) { Shared(now, g, x); }
  }

  lemma NewPdptWay(root: Pml4, g: nat, e: Entry<Entry<Entry<Leaf>>>)
    requires Ok(root) && I(g) < ENTRIES && root[I(g)].Absent? && e.Table? && Pml4Ok(e) && forall j ::
             0 <= j < ENTRIES ==> e.kids[j].Absent?
    ensures OnTheWay(root, root[I(g) := e], g)
  {
    var r := root[I(g) := e];
    assert Ok(r);
    forall x: nat ensures PtOf(r, x) == PtOf(root, x) && PdOf(r, x) == PdOf(root, x) { NewPdptSame(root, I(g), e, x); }
  }

  lemma NewPdptSame(root: Pml4, i: nat, e: Entry<Entry<Entry<Leaf>>>, x: nat)
    requires Ok(root) && i < ENTRIES && root[i].Absent? && e.Table? && Pml4Ok(e) && forall j ::
             0 <= j < ENTRIES ==> e.kids[j].Absent?
    ensures Ok(root[i := e]) && PtOf(root[i := e], x) == PtOf(root, x) && PdOf(root[i := e], x) == PdOf(root, x)
  {
    hide I, J, K, L;
  }

  lemma NewPdWay(root: Pml4, g: nat, e: Entry<Entry<Leaf>>)
    requires Ok(root) && I(g) < ENTRIES && root[I(g)].Table? && |root[I(g)].kids| == ENTRIES
             && root[I(g)].kids[J(g)].Absent? && PdptOk(e) && EmptyPd(e)
    ensures OnTheWay(root, PutPd(root, I(g), J(g), e), g)
  {
    var r := PutPd(root, I(g), J(g), e);
    PutPdFacts(root, I(g), J(g), e, g);
    forall x: nat ensures PtOf(r, x) == PtOf(root, x) && (!SamePd(g, x) ==> PdOf(r, x) == PdOf(root, x)) {
      NewPdSame(root, I(g), J(g), e, x);
    }
  }

  lemma NewPdSame(root: Pml4, i: nat, j: nat, e: Entry<Entry<Leaf>>, x: nat)
    requires Ok(root) && i < ENTRIES && j < ENTRIES && root[i].Table? && |root[i].kids| == ENTRIES
             && root[i].kids[j].Absent? && PdptOk(e) && EmptyPd(e)
    ensures var r := PutPd(root, i, j, e);
            Ok(r) && PtOf(r, x) == PtOf(root, x) && (!(I(x) == i && J(x) == j) ==> PdOf(r, x) == PdOf(root, x))
  {
    PutPdFacts(root, i, j, e, x);
    hide I, J, K, L;
  }

  lemma PutPtWay(root: Pml4, g: nat, e: Entry<Leaf>)
    requires HasPd(root, I(g), J(g)) && PdOk(e)
    ensures |root[I(g)].kids| == ENTRIES && |root[I(g)].kids[J(g)].kids| == ENTRIES
    ensures OnTheWay(root, PutPt(root, I(g), J(g), K(g), e), g)
  {
    var r := PutPt(root, I(g), J(g), K(g), e);
    PutPtOf(root, g, e, g);
    forall x: nat
        ensures Ok(r) && (!SamePt(g, x) ==> PtOf(r, x) == PtOf(root, x))
                && (!SamePd(g, x) ==> PdOf(r, x) == PdOf(root, x)) {
      PutPtOf(root, g, e, x);
    }
  }

  // ---------- entries that are not the user's ----------

  // Some table on the way to a page is somebody else's.
  predicate Blocked(root: Pml4, x: nat)
    requires Ok(root)
  {
    I(x) < ENTRIES && (root[I(x)].Foreign? || PdOf(root, x).Foreign? || PtOf(root, x).Foreign?)
  }

  ghost predicate SameBlocks(was: Pml4, now: Pml4) {
    Ok(was) && Ok(now) && forall x: nat :: Blocked(now, x) <==> Blocked(was, x)
  }

  lemma SameBlocksSelf(root: Pml4)
    requires Ok(root)
    ensures SameBlocks(root, root)
  {
    hide Ok, Blocked;
  }

  lemma SameBlocksTwice(was: Pml4, mid: Pml4, now: Pml4)
    requires SameBlocks(was, mid) && SameBlocks(mid, now)
    ensures SameBlocks(was, now)
  {
    hide Ok, Blocked;
    forall x: nat ensures Blocked(now, x) <==> Blocked(was, x) { assert Blocked(mid, x) <==> Blocked(was, x); }
  }

  lemma NewPdptBlocks(root: Pml4, g: nat, e: Entry<Entry<Entry<Leaf>>>)
    requires Ok(root) && I(g) < ENTRIES && root[I(g)].Absent? && e.Table? && Pml4Ok(e) && forall j ::
             0 <= j < ENTRIES ==> e.kids[j].Absent?
    ensures SameBlocks(root, root[I(g) := e])
  {
    var r := root[I(g) := e];
    assert Ok(r);
    hide I, PtOf, PdOf;
    forall x: nat ensures Blocked(r, x) <==> Blocked(root, x) { NewPdptSame(root, I(g), e, x); }
  }

  lemma NewPdBlocks(root: Pml4, g: nat, e: Entry<Entry<Leaf>>)
    requires Ok(root) && I(g) < ENTRIES && root[I(g)].Table? && |root[I(g)].kids| == ENTRIES
             && root[I(g)].kids[J(g)].Absent? && PdptOk(e) && EmptyPd(e)
    ensures SameBlocks(root, PutPd(root, I(g), J(g), e))
  {
    var r := PutPd(root, I(g), J(g), e);
    PutPdFacts(root, I(g), J(g), e, g);
    hide I, J, K, PtOf, EmptyPd;
    forall x: nat ensures Blocked(r, x) <==> Blocked(root, x) {
      NewPdSame(root, I(g), J(g), e, x);
      assert EmptyPd(e) ==> e.Table? by { EmptyIsTable(e); }
    }
  }

  lemma EmptyIsTable(e: Entry<Entry<Leaf>>)
    ensures EmptyPd(e) ==> e.Table?
  {
  }

  lemma PutPtBlocks(root: Pml4, g: nat, e: Entry<Leaf>)
    requires HasPd(root, I(g), J(g)) && PdOk(e) && !e.Foreign?
    requires |root[I(g)].kids[J(g)].kids| == ENTRIES && !root[I(g)].kids[J(g)].kids[K(g)].Foreign?
    ensures |root[I(g)].kids| == ENTRIES
    ensures SameBlocks(root, PutPt(root, I(g), J(g), K(g), e))
  {
    var r := PutPt(root, I(g), J(g), K(g), e);
    PutPtOf(root, g, e, g);
    forall x: nat ensures Blocked(r, x) <==> Blocked(root, x) { PutPtBlock(root, g, e, x); }
  }

  lemma PutPtBlock(root: Pml4, g: nat, e: Entry<Leaf>, x: nat)
    requires HasPd(root, I(g), J(g)) && PdOk(e) && !e.Foreign?
    requires |root[I(g)].kids[J(g)].kids| == ENTRIES && !root[I(g)].kids[J(g)].kids[K(g)].Foreign?
    ensures |root[I(g)].kids| == ENTRIES && Ok(PutPt(root, I(g), J(g), K(g), e))
    ensures Blocked(PutPt(root, I(g), J(g), K(g), e), x) <==> Blocked(root, x)
  {
    PutPtOf(root, g, e, x);
    hide I, J, K;
  }
}
