/**
 An address space as a whole (kernel/mm/vmm_user.c over kernel/mm/paging64.c): inside the mapping
 window the region list and the page tables are one map from pages to protections.
 */
module UserMemory {
  import opened Wrappers
  import R = Regions
  import S = RegionSteps
  import A = AddressSpace
  import T = PageTables
  import C = PageCounts
  import W = PageSweep
  import G = Paging

  const FIRST: nat := 0x800_0000       // the window in pages
  const LAST: nat := 0x7_0000_0000

  function Address(g: nat): nat { g * R.PAGE }

  lemma Window()
    ensures Address(FIRST) == R.BASE && Address(LAST) == R.LIMIT && LAST < T.USER_PAGES
  {
  }

  // prot_to_page_flags
  function RightsOf(prot: bv32): T.Rights {
    if prot == 0 then T.Rights(false, false, true)
                      else T.Rights(true, prot & A.PROT_WRITE != 0, prot & A.PROT_EXEC == 0)
  }

  // What a page lets its process do, by the bits of the protection.
  predicate Allows(x: T.Leaf, prot: bv32) {
    && x.Page?
    && (x.rights.user <==> prot != 0)
    && (x.rights.write <==> prot & 2 != 0)
    && (x.rights.noexec <==> prot & 4 == 0)
  }

  lemma RightsAllow(x: T.Leaf, prot: bv32)
    ensures Shows(x, Some(prot)) <==> Allows(x, prot)
  {
  }

  // A page is there, with these rights, exactly when the list maps it.
  predicate Shows(x: T.Leaf, v: Option<bv32>) {
    if v.Some? then x.Page? && x.rights == RightsOf(v.value) else x.NoPage?
  }

  ghost predicate Mirrors(rs: seq<R.Region>, root: T.Pml4) {
    T.Ok(root) && forall g: nat {:trigger T.At(root, g)} ::
        FIRST <= g < LAST ==> Shows(T.At(root, g), R.At(rs, Address(g)))
  }

  ghost predicate SamePages(was: T.Pml4, now: T.Pml4) {
    T.Ok(was) && T.Ok(now) && forall g: nat :: T.At(now, g) == T.At(was, g)
  }

  // ---------- populating ----------

  // What the allocator had for one page and for the tables on its way.
  datatype Grant = Grant(frame: Option<nat>, a: Option<nat>, b: Option<nat>, c: Option<nat>)

  function GrantAt(grants: seq<Grant>, k: nat): Grant {
    if k < |grants| then grants[k] else Grant(None, None, None, None)
  }

  function Worth(x: Grant): multiset<nat> { G.Offer(x.frame) + G.Offer(x.a) + G.Offer(x.b) + G.Offer(x.c) }

  function Granted(grants: seq<Grant>, n: nat): multiset<nat> {
    if n == 0 then multiset{} else Granted(grants, n - 1) + Worth(GrantAt(grants, n - 1))
  }

  // The n pages from lo on show the granted frames, the others are as before.
  ghost predicate FilledAt(was: T.Pml4, now: T.Pml4, lo: nat, n: nat, rights: T.Rights, grants: seq<Grant>, g: nat)
    requires T.Ok(was) && T.Ok(now)
  {
    if lo <= g < lo + n then GrantAt(grants, g - lo).frame.Some?
                             && T.At(now, g) == T.Page(GrantAt(grants, g - lo).frame.value, rights)
    else T.At(now, g) == T.At(was, g)
  }

  ghost predicate Filled(was: T.Pml4, now: T.Pml4, lo: nat, n: nat, rights: T.Rights, grants: seq<Grant>) {
    T.Ok(was) && T.Ok(now) && forall g: nat :: FilledAt(was, now, lo, n, rights, grants, g)
  }

  lemma FilledNone(root: T.Pml4, lo: nat, rights: T.Rights, grants: seq<Grant>)
    requires T.Ok(root)
    ensures Filled(root, root, lo, 0, rights, grants)
  {
    hide T.At, T.Ok;
  }

  lemma FilledMore(was: T.Pml4, mid: T.Pml4, now: T.Pml4, lo: nat, k: nat, rights: T.Rights, grants: seq<Grant>)
    requires Filled(was, mid, lo, k, rights, grants) && T.Ok(now) && GrantAt(grants, k).frame.Some?
    requires forall x: nat ::
             T.At(now, x) == if x == lo + k then T.Page(GrantAt(grants, k).frame.value, rights) else T.At(mid, x)
    ensures Filled(was, now, lo, k + 1, rights, grants)
  {
    hide T.At, T.Ok, GrantAt;
    var m := k + 1;
    forall g: nat ensures FilledAt(was, now, lo, m, rights, grants, g) {
      assert FilledAt(was, mid, lo, k, rights, grants, g);
      assert T.At(now, g) == if g == lo + k then T.Page(GrantAt(grants, k).frame.value, rights) else T.At(mid, g);
    }
  }

  // Taking the pages out again, with the one that failed, restores the map.
  lemma RolledBack(was: T.Pml4, mid: T.Pml4, full: T.Pml4, now: T.Pml4, lo: nat, k: nat, rights: T.Rights,
      grants: seq<Grant>)
    requires Filled(was, mid, lo, k, rights, grants) && SamePages(mid, full)
             && G.Done(full, now, lo, lo + k + 1, G.Drop)
    requires forall g: nat :: lo <= g < lo + k + 1 ==> T.At(was, g) == T.NoPage
    ensures SamePages(was, now)
  {
    hide T.At, T.Ok;
    forall g: nat ensures T.At(now, g) == T.At(was, g) {
      assert T.At(now, g) == if lo <= g < lo + k + 1 then T.NoPage else T.At(full, g);
      assert T.At(full, g) == T.At(mid, g) && FilledAt(was, mid, lo, k, rights, grants, g);
    }
  }

  lemma PagesOf(lo: nat, n: nat)
    requires lo + n <= T.USER_PAGES && n > 0
    ensures G.FirstPage(Address(lo)) == lo && G.EndPage(Address(lo), Address(n)) == lo + n && Address(n) > 0
  {
  }

  lemma GrantedMore(was: multiset<nat>, mid: multiset<nat>, now: multiset<nat>, grants: seq<Grant>, k: nat)
    requires mid <= was + Granted(grants, k) && now <= mid + Worth(GrantAt(grants, k))
    ensures now <= was + Granted(grants, k + 1)
  {
    hide Worth;
  }

  lemma WorthIs(mid: multiset<nat>, now: multiset<nat>, made: seq<nat>, page: multiset<nat>, x: Grant)
    requires now == mid + multiset(made) + page && page <= G.Offer(x.frame)
             && multiset(made) <= G.Offer(x.a) + G.Offer(x.b) + G.Offer(x.c)
    ensures now <= mid + Worth(x)
  {
    hide G.Offer;
  }

  lemma WorthNothing(mid: multiset<nat>, x: Grant)
    ensures mid <= mid + Worth(x)
  {
  }

  lemma {:induction false} GrantedGrows(grants: seq<Grant>, k: nat, n: nat)
    requires k <= n
    ensures Granted(grants, k) <= Granted(grants, n)
  {
    hide Worth;
    if k < n { GrantedGrows(grants, k, n - 1); }
  }

  lemma Below(was: multiset<nat>, more: multiset<nat>, all: multiset<nat>, now: multiset<nat>, freed: seq<nat>,
      mid: multiset<nat>)
    requires mid <= was + more && more <= all && now + multiset(freed) == mid
    ensures now <= was + all
  {
    assert now <= mid && was + more <= was + all;
  }

  /**
   populate: either every page of the range shows a granted frame with these rights, or the map is
   as it was, whichever page failed and for whatever reason; and no page table or page directory
   made on the way is left empty.
   */
  method Populate(tables: G.UserTables, lo: nat, n: nat, rights: T.Rights, grants: seq<Grant>) returns (ok: bool)
    requires tables.Valid() && lo + n <= T.USER_PAGES && forall g: nat ::
             lo <= g < lo + n ==> T.At(tables.root, g) == T.NoPage
    modifies tables
    ensures tables.Valid() && G.KeepsForeign(old(tables.root), tables.root)
    ensures ok ==> Filled(old(tables.root), tables.root, lo, n, rights, grants)
    ensures !ok ==> SamePages(old(tables.root), tables.root)
    ensures T.Held(tables.root) <= T.Held(old(tables.root)) + Granted(grants, n)
    ensures W.NoneEmptied(old(tables.root), tables.root)
    ensures Supplied(old(tables.root), lo, n, grants) ==> ok
  {
    hide *;
    tables.Whole();
    ghost var was := tables.root;
    W.SameBlocksSelf(was);
    W.SweptStart(was, lo);
    G.KeepsSelf(was);
    FilledNone(was, lo, rights, grants);
    NothingGranted(grants);
    for k := 0 to n
      invariant tables.Valid() && T.Ok(tables.root) && G.KeepsForeign(was, tables.root)
      invariant Filled(was, tables.root, lo, k, rights, grants)
                && T.Held(tables.root) <= T.Held(was) + Granted(grants, k)
      invariant W.NoneEmptied(was, tables.root) && W.SameBlocks(was, tables.root)
    {
      ghost var mid := tables.root;
      PageBound(lo, k + 1, n);
      SuppliedHere(was, mid, lo, n, k, rights, grants);
      var mapped := AddPage(tables, lo + k, rights, GrantAt(grants, k));
      W.SameBlocksTwice(was, mid, tables.root);
      G.KeepsChain(was, mid, tables.root);
      GrantedMore(T.Held(was), T.Held(mid), T.Held(tables.root), grants, k);
      if mapped {
        FilledMore(was, mid, tables.root, lo, k, rights, grants);
        W.TidiedLater(was, mid, tables.root);
      } else {
        ghost var full := tables.root;
        var freed := Undo(tables, lo, k + 1);
        G.KeepsChain(was, full, tables.root);
        RolledBack(was, mid, full, tables.root, lo, k, rights, grants);
        W.WaySwept(mid, full, tables.root, lo + k, lo, lo + (k + 1));
        W.TidiedLater(was, mid, tables.root);
        GrantedGrows(grants, k + 1, n);
        Below(T.Held(was), Granted(grants, k + 1), Granted(grants, n), T.Held(tables.root), freed, T.Held(full));
        return false;
      }
    }
    ok := true;
  }

  // A frame and tables for every page, and no table of somebody else on the way to any.
  ghost predicate Supplied(root: T.Pml4, lo: nat, n: nat, grants: seq<Grant>) {
    && T.Ok(root)
    && (forall k: nat :: k < n ==> Full(GrantAt(grants, k)))
    && (forall g: nat :: lo <= g < lo + n ==> !W.Blocked(root, g))
  }

  predicate Full(x: Grant) { x.frame.Some? && x.a.Some? && x.b.Some? && x.c.Some? }

  lemma SuppliedHere(was: T.Pml4, mid: T.Pml4, lo: nat, n: nat, k: nat, rights: T.Rights, grants: seq<Grant>)
    requires k < n && lo + n <= T.USER_PAGES && Filled(was, mid, lo, k, rights, grants) && W.SameBlocks(was, mid)
    requires forall g: nat :: lo <= g < lo + n ==> T.At(was, g) == T.NoPage
    ensures var x := GrantAt(grants, k);
            Supplied(was, lo, n, grants) ==>
              x.frame.Some? && lo + k < T.USER_PAGES && G.Open(mid, lo + k, x.a, x.b, x.c)
                  && T.At(mid, lo + k) == T.NoPage
  {
    hide T.At, T.Ok, W.Blocked, G.Open;
    assert FilledAt(was, mid, lo, k, rights, grants, lo + k);
    if Supplied(was, lo, n, grants) {
      var x := GrantAt(grants, k);
      assert Full(x) && !W.Blocked(was, lo + k);
      G.OpenUnlessBlocked(mid, lo + k, x.a, x.b, x.c);
    }
  }

  // One round of populate.
  method AddPage(tables: G.UserTables, g: nat, rights: T.Rights, x: Grant) returns (mapped: bool)
    requires tables.Valid() && T.Ok(tables.root)
    modifies tables
    ensures tables.Valid() && T.Ok(tables.root) && G.KeepsForeign(old(tables.root), tables.root)
            && W.OnTheWay(old(tables.root), tables.root, g) && W.SameBlocks(old(tables.root), tables.root)
    ensures mapped <==> x.frame.Some? && g < T.USER_PAGES && G.Open(old(tables.root), g, x.a, x.b, x.c)
                        && T.At(old(tables.root), g) == T.NoPage
    ensures mapped ==> x.frame.Some? && W.NoneEmptied(old(tables.root), tables.root)
    ensures mapped ==> forall y: nat ::
                       T.At(tables.root, y) == if y == g then T.Page(x.frame.value, rights)
                                                              else T.At(old(tables.root), y)
    ensures !mapped ==> SamePages(old(tables.root), tables.root)
    ensures T.Held(tables.root) <= T.Held(old(tables.root)) + Worth(x)
  {
    hide *;
    ghost var was := tables.root;
    mapped := false;
    G.KeepsSelf(was);
    W.OnTheWaySelf(was, g);
    W.SameBlocksSelf(was);
    SameFrom(was, was);
    WorthNothing(T.Held(was), x);
    if x.frame.Some? {
      var made;
      G.OfferIs(x.frame);
      mapped, made := tables.MapPage(g, x.frame.value, rights, x.a, x.b, x.c);
      tables.Whole();
      WorthIs(T.Held(was), T.Held(tables.root), made, if mapped then multiset{x.frame.value} else multiset{}, x);
      if !mapped { SameFrom(was, tables.root); }
    }
  }

  // The way back: the pages added so far and the one that failed.
  method Undo(tables: G.UserTables, lo: nat, n: nat) returns (freed: seq<nat>)
    requires tables.Valid() && n > 0 && lo + n <= T.USER_PAGES
    modifies tables
    ensures tables.Valid() && T.Ok(tables.root) && G.KeepsForeign(old(tables.root), tables.root)
    ensures G.Done(old(tables.root), tables.root, lo, lo + n, G.Drop)
            && W.Tidied(old(tables.root), tables.root, lo, lo + n)
    ensures T.Held(tables.root) + multiset(freed) == T.Held(old(tables.root))
  {
    hide *;
    PagesOf(lo, n);
    freed := tables.UnmapRange(Address(lo), Address(n));
    tables.Whole();
  }

  lemma NothingGranted(grants: seq<Grant>)
    ensures Granted(grants, 0) == multiset{}
  {
  }

  lemma SameFrom(was: T.Pml4, now: T.Pml4)
    requires T.Ok(was) && T.Ok(now) && forall g: nat :: T.At(now, g) == T.At(was, g)
    ensures SamePages(was, now)
  {
  }

  lemma PageBound(lo: nat, k: nat, n: nat)
    requires k <= n && lo + n <= T.USER_PAGES
    ensures lo + k <= T.USER_PAGES
  {
  }

  // ---------- one map ----------

  lemma MirrorsParts(rs: seq<R.Region>, root: T.Pml4, g: nat)
    requires Mirrors(rs, root) && FIRST <= g < LAST
    ensures T.Ok(root) && Shows(T.At(root, g), R.At(rs, Address(g)))
  {
    hide T.At, T.Ok, R.At;
    assert T.At(root, g) == T.At(root, g);
  }

  // Page-aligned bounds, in pages.
  lemma InPages(start: nat, end: nat)
    requires R.Aligned(start) && R.Aligned(end) && R.BASE <= start < end <= R.LIMIT
    ensures var lo, hi := start / R.PAGE, end / R.PAGE;
            && Address(lo) == start && Address(hi) == end && FIRST <= lo < hi <= LAST && end - start == Address(hi - lo)
            && forall g: nat {:trigger Address(g)} :: start <= Address(g) < end <==> lo <= g < hi
  {
    var lo, hi := start / R.PAGE, end / R.PAGE;
    assert start == lo * R.PAGE && end == hi * R.PAGE;
    forall g: nat ensures start <= Address(g) < end <==> lo <= g < hi {}
  }

  // A range no region meets shows no page.
  lemma FreeShowsNothing(rs: seq<R.Region>, root: T.Pml4, start: nat, end: nat)
    requires Mirrors(rs, root) && R.Aligned(start) && R.Aligned(end) && R.BASE <= start < end <= R.LIMIT
             && S.Free(rs, start, end)
    ensures forall g: nat :: start / R.PAGE <= g < end / R.PAGE ==> T.At(root, g) == T.NoPage
  {
    InPages(start, end);
    hide T.At, T.Ok, R.At;
    forall g: nat | start / R.PAGE <= g < end / R.PAGE ensures T.At(root, g) == T.NoPage {
      MirrorsParts(rs, root, g);
      assert start <= Address(g) < end;
      R.AtNone(rs, Address(g));
    }
  }

  // The list gives the range one value and the tables show it: still one map.
  lemma MirrorsUpdated(rs: seq<R.Region>, ts: seq<R.Region>, was: T.Pml4, now: T.Pml4, start: nat, end: nat,
      v: Option<bv32>)
    requires Mirrors(rs, was) && R.Aligned(start) && R.Aligned(end) && R.BASE <= start < end <= R.LIMIT
             && S.Updated(rs, ts, start, end, v) && T.Ok(now)
    requires forall g: nat {:trigger T.At(now, g)} ::
             if start / R.PAGE <= g < end / R.PAGE then Shows(T.At(now, g), v) else T.At(now, g) == T.At(was, g)
    ensures Mirrors(ts, now)
  {
    InPages(start, end);
    hide T.At, T.Ok, R.At, Shows;
    forall g: nat | FIRST <= g < LAST ensures Shows(T.At(now, g), R.At(ts, Address(g))) {
      MirrorsParts(rs, was, g);
      assert R.At(ts, Address(g)) == if start <= Address(g) < end then v else R.At(rs, Address(g));
    }
  }

  lemma FilledShows(was: T.Pml4, now: T.Pml4, lo: nat, n: nat, prot: bv32, grants: seq<Grant>)
    requires Filled(was, now, lo, n, RightsOf(prot), grants)
    ensures forall g: nat {:trigger T.At(now, g)} ::
            if lo <= g < lo + n then Shows(T.At(now, g), Some(prot)) else T.At(now, g) == T.At(was, g)
  {
    hide T.At, T.Ok, RightsOf;
    forall g: nat ensures if lo <= g < lo + n then Shows(T.At(now, g), Some(prot)) else T.At(now, g) == T.At(was, g) {
      assert FilledAt(was, now, lo, n, RightsOf(prot), grants, g);
    }
  }

  lemma SamePagesMirror(rs: seq<R.Region>, was: T.Pml4, now: T.Pml4)
    requires Mirrors(rs, was) && SamePages(was, now)
    ensures Mirrors(rs, now)
  {
    hide T.At, T.Ok, R.At, Shows;
    forall g: nat | FIRST <= g < LAST ensures Shows(T.At(now, g), R.At(rs, Address(g))) { MirrorsParts(rs, was, g); }
  }

  // Every page of a covered range is there, so new rights reach them all.
  lemma ProtectedShows(rs: seq<R.Region>, was: T.Pml4, now: T.Pml4, start: nat, end: nat, prot: bv32)
    requires Mirrors(rs, was) && R.Aligned(start) && R.Aligned(end) && R.BASE <= start < end <= R.LIMIT
             && A.Covered(rs, start, end)
    requires G.Done(was, now, start / R.PAGE, end / R.PAGE, G.Protect(RightsOf(prot)))
    ensures forall g: nat {:trigger T.At(now, g)} ::
            if start / R.PAGE <= g < end / R.PAGE then Shows(T.At(now, g), Some(prot)) else T.At(now, g) == T.At(was, g)
  {
    InPages(start, end);
    hide T.At, T.Ok, R.At, RightsOf;
    forall g: nat
        ensures if start / R.PAGE <= g < end / R.PAGE then Shows(T.At(now, g), Some(prot))
                                                           else T.At(now, g) == T.At(was, g) {
      if start / R.PAGE <= g < end / R.PAGE {
        MirrorsParts(rs, was, g);
        assert start <= Address(g) < end;
        assert R.At(rs, Address(g)).Some?;
      }
      assert T.At(now, g) == if start / R.PAGE <= g < end / R.PAGE
          then G.Apply(G.Protect(RightsOf(prot)), T.At(was, g)) else T.At(was, g);
    }
  }

  // ---------- taking regions out ----------

  // The part of a region inside a range.
  function From(r: R.Region, start: nat): nat { if r.start > start then r.start else start }

  function Upto(r: R.Region, end: nat): nat { if r.end < end then r.end else end }

  // The pages of the range that the first n regions cover are gone.
  ghost predicate ClearedAt(rs: seq<R.Region>, was: T.Pml4, now: T.Pml4, start: nat, end: nat, n: nat, g: nat)
    requires T.Ok(was) && T.Ok(now) && n <= |rs|
  {
    T.At(now, g) == if start <= Address(g) < end && R.At(rs[..n], Address(g)).Some? then T.NoPage else T.At(was, g)
  }

  ghost predicate Cleared(rs: seq<R.Region>, was: T.Pml4, now: T.Pml4, start: nat, end: nat, n: nat) {
    T.Ok(was) && T.Ok(now) && n <= |rs| && forall g: nat :: ClearedAt(rs, was, now, start, end, n, g)
  }

  lemma ClearedNone(rs: seq<R.Region>, root: T.Pml4, start: nat, end: nat)
    requires T.Ok(root)
    ensures Cleared(rs, root, root, start, end, 0)
  {
    hide T.At, T.Ok;
  }

  lemma NextRegion(rs: seq<R.Region>, n: nat, a: nat)
    requires n < |rs|
    ensures R.At(rs[..n + 1], a).Some? <==> R.At(rs[..n], a).Some? || R.Covers(rs[n], a)
  {
    assert rs[..n + 1] == rs[..n] + [rs[n]];
    R.AtConcat(rs[..n], [rs[n]], a);
    R.AtOne(rs[n], a);
  }

  lemma ClearedMore(rs: seq<R.Region>, was: T.Pml4, mid: T.Pml4, now: T.Pml4, start: nat, end: nat, n: nat)
    requires Cleared(rs, was, mid, start, end, n) && n < |rs| && T.Ok(now)
    requires forall g: nat ::
             T.At(now, g) == if From(rs[n], start) <= Address(g) < Upto(rs[n], end) then T.NoPage else T.At(mid, g)
    ensures Cleared(rs, was, now, start, end, n + 1)
  {
    hide T.At, T.Ok, R.At, Address;
    var m := n + 1;
    forall g: nat ensures ClearedAt(rs, was, now, start, end, m, g) {
      NextRegion(rs, n, Address(g));
      assert ClearedAt(rs, was, mid, start, end, n, g);
    }
  }

  // Past the range there is nothing left to clear.
  lemma {:induction false} NothingBelow(rs: seq<R.Region>, a: nat)
    requires forall i :: 0 <= i < |rs| ==> a < rs[i].start
    ensures R.At(rs, a).None?
  {
    hide R.At;
    R.AtNone(rs, a);
  }

  // Once all regions that meet the range were treated, the range shows nothing.
  lemma ClearedAll(rs: seq<R.Region>, was: T.Pml4, now: T.Pml4, start: nat, end: nat, n: nat)
    requires Mirrors(rs, was) && Cleared(rs, was, now, start, end, n) && R.Aligned(start) && R.Aligned(end)
             && R.BASE <= start < end <= R.LIMIT
    requires forall i :: n <= i < |rs| ==> rs[i].start >= end
    ensures forall g: nat {:trigger T.At(now, g)} ::
            if start / R.PAGE <= g < end / R.PAGE then Shows(T.At(now, g), None) else T.At(now, g) == T.At(was, g)
  {
    InPages(start, end);
    hide T.At, T.Ok, R.At, Address;
    forall g: nat
        ensures if start / R.PAGE <= g < end / R.PAGE then Shows(T.At(now, g), None) else T.At(now, g) == T.At(was, g) {
      assert ClearedAt(rs, was, now, start, end, n, g);
      if start <= Address(g) < end {
        MirrorsParts(rs, was, g);
        assert rs == rs[..n] + rs[n..];
        R.AtConcat(rs[..n], rs[n..], Address(g));
        NothingBelow(rs[n..], Address(g));
      }
    }
  }

  lemma DroppedPages(was: T.Pml4, now: T.Pml4, from: nat, upto: nat)
    requires R.Aligned(from) && R.Aligned(upto) && R.BASE <= from < upto <= R.LIMIT
             && G.Done(was, now, from / R.PAGE, upto / R.PAGE, G.Drop)
    ensures forall g: nat :: T.At(now, g) == if from <= Address(g) < upto then T.NoPage else T.At(was, g)
  {
    InPages(from, upto);
    hide T.At, T.Ok, Address;
    forall g: nat ensures T.At(now, g) == if from <= Address(g) < upto then T.NoPage else T.At(was, g) {
      assert T.At(now, g) == if from / R.PAGE <= g < upto / R.PAGE then G.Apply(G.Drop, T.At(was, g)) else T.At(was, g);
      assert from <= Address(g) < upto <==> from / R.PAGE <= g < upto / R.PAGE;
    }
  }

  lemma RangePages(from: nat, upto: nat)
    requires R.Aligned(from) && R.Aligned(upto) && R.BASE <= from < upto <= R.LIMIT
    ensures G.FirstPage(from) == from / R.PAGE && G.EndPage(from, upto - from) == upto / R.PAGE
            && from / R.PAGE < upto / R.PAGE
  {
    InPages(from, upto);
  }

  lemma RegionFits(rs: seq<R.Region>, n: nat, start: nat, end: nat)
    requires R.Sorted(rs) && n < |rs| && R.Aligned(start) && R.Aligned(end) && R.BASE <= start < end <= R.LIMIT
             && rs[n].start < end && rs[n].end > start
    ensures var from, upto := From(rs[n], start), Upto(rs[n], end);
            R.Aligned(from) && R.Aligned(upto) && R.BASE <= from < upto <= R.LIMIT
  {
    assert R.Fits(rs[n]);
  }

  lemma MissedRegion(root: T.Pml4, r: R.Region, start: nat, end: nat)
    requires T.Ok(root) && r.end <= start
    ensures forall g: nat ::
            T.At(root, g) == if From(r, start) <= Address(g) < Upto(r, end) then T.NoPage else T.At(root, g)
  {
    hide T.At, T.Ok;
  }

  /**
   The page-table side of vmm_user_unmap: unmapping the part of each region inside the range
   leaves no page in the range at all.
   */
  method ClearPages(tables: G.UserTables, rs: seq<R.Region>, start: nat, end: nat) returns (freed: seq<nat>)
    requires tables.Valid() && Mirrors(rs, tables.root) && R.Sorted(rs) && R.Aligned(start) && R.Aligned(end)
             && R.BASE <= start < end <= R.LIMIT
    modifies tables
    ensures tables.Valid() && G.KeepsForeign(old(tables.root), tables.root)
            && T.Held(tables.root) + multiset(freed) == T.Held(old(tables.root))
    ensures W.NoneEmptied(old(tables.root), tables.root)
    ensures forall g: nat {:trigger T.At(tables.root, g)} ::
              if start / R.PAGE <= g < end / R.PAGE then Shows(T.At(tables.root, g), None)
                                                         else T.At(tables.root, g) == T.At(old(tables.root), g)
  {
    hide *;
    tables.Whole();
    ghost var was := tables.root;
    G.KeepsSelf(was);
    ClearedNone(rs, was, start, end);
    W.SweptStart(was, start);
    freed := [];
    var n := 0;
    while n < |rs| && rs[n].start < end
      invariant n <= |rs| && tables.Valid() && T.Ok(tables.root) && G.KeepsForeign(was, tables.root)
      invariant Cleared(rs, was, tables.root, start, end, n) && T.Held(tables.root) + multiset(freed) == T.Held(was)
      invariant W.NoneEmptied(was, tables.root)
    {
      ghost var mid := tables.root;
      if rs[n].end > start {
        RegionFits(rs, n, start, end);
        var from, upto := From(rs[n], start), Upto(rs[n], end);
        RangePages(from, upto);
        var more := tables.UnmapRange(from, upto - from);
        W.TidiedLater(was, mid, tables.root);
        tables.Whole();
        G.KeepsChain(was, mid, tables.root);
        DroppedPages(mid, tables.root, from, upto);
        freed := freed + more;
      } else {
        MissedRegion(mid, rs[n], start, end);
      }
      ClearedMore(rs, was, mid, tables.root, start, end, n);
      n := n + 1;
    }
    A.RestBeyond(rs, n, end);
    ClearedAll(rs, was, tables.root, start, end, n);
  }

  // ---------- the calls ----------

  class Memory {
    const space: A.Space
    const tables: G.UserTables

    ghost predicate Valid()
      reads space, tables
    {
      space.Valid() && tables.Valid() && Mirrors(space.regions, tables.root)
    }

    lemma Parts()
      requires Valid()
      ensures space.Valid() && tables.Valid() && Mirrors(space.regions, tables.root) && T.Ok(tables.root)
      ensures R.Canonical(space.regions) && R.Sorted(space.regions)
    {
    }

    lemma Whole()
      requires space.Valid() && tables.Valid() && Mirrors(space.regions, tables.root)
      ensures Valid()
    {
    }

    /** A new process: no region, and tables that show no page in the window. */
    constructor (root: T.Pml4)
      requires T.Ok(root) && forall g: nat :: FIRST <= g < LAST ==> T.At(root, g) == T.NoPage
      ensures Valid() && fresh(space) && fresh(tables) && space.regions == [] && tables.root == root
    {
      space := new A.Space();
      tables := new G.UserTables(root);
      new;
    }

    /**
     vmm_user_map: exactly the chosen range gets pages with the rights of prot, all of them or
     none; a failed call leaves the list and every page as they were.  short says that populate
     ran out of frames, which it does only for lack of supply.
     */
    method Map(hint: nat, length: nat, prot: bv32, flags: bv32, totalPages: nat, nodeOk: bool, grants: seq<Grant>)
      returns (r: A.Result<nat>, short: bool)
      requires Valid()
      modifies space, tables
      ensures Valid() && G.KeepsForeign(old(tables.root), tables.root)
      ensures r.Err? ==> space.regions == old(space.regions) && SamePages(old(tables.root), tables.root)
      ensures r.Ok? ==> S.Updated(old(space.regions), space.regions, r.value, r.value + A.RoundUp(length), Some(prot))
                        && A.ProtCheck(prot, flags).None?
                        && R.BASE <= r.value && r.value + A.RoundUp(length) <= R.LIMIT
                           && S.Free(old(space.regions), r.value, r.value + A.RoundUp(length))
      ensures r.Ok? ==>
                Filled(old(tables.root), tables.root, r.value / R.PAGE, A.RoundUp(length) / R.PAGE, RightsOf(prot),
                       grants)
      ensures r.Ok? ==> forall g: nat :: r.value / R.PAGE <= g < (r.value + A.RoundUp(length)) / R.PAGE ==>
                                           Allows(T.At(tables.root, g), prot)
      ensures r.Ok? ==> A.Placed(old(space.regions), hint, A.RoundUp(length), r.value) && !short
      ensures r == A.Err(A.EINVAL) <==> A.Malformed(hint, length, prot, flags)
      ensures r == A.Err(A.EACCES) <==> length > 0 && A.ProtCheck(prot, flags) == Some(A.EACCES)
      ensures r == A.Err(A.ENOMEM) <==>
                length > 0 && A.ProtCheck(prot, flags).None? && R.Aligned(hint)
                && (A.NoPlace(old(space.regions), hint, length, prot, totalPages, nodeOk) || short)
      ensures short ==> exists start: nat ::
                          A.Placed(old(space.regions), hint, A.RoundUp(length), start)
                          && !Supplied(old(tables.root), start / R.PAGE, A.RoundUp(length) / R.PAGE, grants)
      ensures T.Held(tables.root) <= T.Held(old(tables.root)) + Granted(grants, A.RoundUp(length) / R.PAGE)
      ensures C.Once(T.Held(old(tables.root)) + Granted(grants, A.RoundUp(length) / R.PAGE)) ==>
                C.Exclusive(tables.root)
      ensures W.NoneEmptied(old(tables.root), tables.root)
    {
      hide *;
      Parts();
      W.SweptStart(tables.root, 0);
      StillOnce(T.Held(tables.root), tables.root, Granted(grants, A.RoundUp(length) / R.PAGE));
      SameFrom(tables.root, tables.root);
      G.KeepsSelf(tables.root);
      ghost var rs, was := space.regions, tables.root;
      var n: nat;
      short := false;
      A.MalformedIs(hint, length, prot, flags);
      r, n := space.Choose(hint, length, prot, flags, totalPages, nodeOk);
      if r.Err? { return; }
      var start := r.value;
      var end := start + A.RoundUp(length);
      EndAligned(start, length);
      InPages(start, end);
      Window();
      FreeShowsNothing(rs, was, start, end);
      var ok := Populate(tables, start / R.PAGE, A.RoundUp(length) / R.PAGE, RightsOf(prot), grants);
      StillOnce(T.Held(was), tables.root, Granted(grants, A.RoundUp(length) / R.PAGE));
      if !ok {
        SamePagesMirror(rs, was, tables.root);
        Whole();
        return A.Err(A.ENOMEM), true;
      }
      tables.Whole();
      space.Insert(n, start, end, prot);
      FilledShows(was, tables.root, start / R.PAGE, A.RoundUp(length) / R.PAGE, prot, grants);
      forall g: nat | start / R.PAGE <= g < end / R.PAGE ensures Allows(T.At(tables.root, g), prot) {
        RightsAllow(T.At(tables.root, g), prot);
      }
      MirrorsUpdated(rs, space.regions, was, tables.root, start, end, Some(prot));
      Whole();
    }

    /** vmm_user_unmap: exactly the pages of the range leave the list and the tables. */
    method Unmap(addr: nat, length: nat, spareOk: bool) returns (r: A.Result<()>, freed: seq<nat>)
      requires Valid()
      modifies space, tables
      ensures Valid() && G.KeepsForeign(old(tables.root), tables.root)
              && T.Held(tables.root) + multiset(freed) == T.Held(old(tables.root))
      ensures r.Err? ==> space.regions == old(space.regions) && tables.root == old(tables.root)
      ensures r == A.Err(A.EINVAL) <==> !A.GoodRange(addr, length)
      ensures r == A.Err(A.ENOMEM) <==>
                A.GoodRange(addr, length) && (|old(space.regions)| == R.MAX_REGIONS || !spareOk)
                && exists i :: 0 <= i < |old(space.regions)|
                               && S.Straddles(old(space.regions)[i], addr, addr + A.RoundUp(length))
      ensures r != A.Err(A.EACCES)
      ensures r.Ok? ==> S.Updated(old(space.regions), space.regions, addr, addr + A.RoundUp(length), None)
      ensures r.Ok? ==> Emptied(old(tables.root), tables.root, addr / R.PAGE, (addr + A.RoundUp(length)) / R.PAGE)
      ensures C.Exclusive(old(tables.root)) ==>
                C.Exclusive(tables.root) && C.NoRepeats(freed) && forall f :: f in freed ==> f !in T.Held(tables.root)
      ensures W.NoneEmptied(old(tables.root), tables.root)
    {
      hide *;
      Parts();
      W.SweptStart(tables.root, 0);
      G.Surrender(tables.root, tables.root, []);
      G.KeepsSelf(tables.root);
      freed := [];
      var rs := space.regions;
      ghost var was := tables.root;
      r := space.Unmap(addr, length, spareOk);
      if r.Err? {
        Whole();
        return;
      }
      var end := addr + A.RoundUp(length);
      GoodIs(addr, length);
      freed := ClearPages(tables, rs, addr, end);
      tables.Whole();
      MirrorsUpdated(rs, space.regions, was, tables.root, addr, end, None);
      EmptiedFrom(was, tables.root, addr / R.PAGE, end / R.PAGE);
      G.Surrender(was, tables.root, freed);
      Whole();
    }

    /** vmm_user_protect: exactly the pages of the range change their rights, on the same frames. */
    method Protect(addr: nat, length: nat, prot: bv32, flags: bv32, sparesOk: bool) returns (r: A.Result<()>)
      requires Valid()
      modifies space, tables
      ensures Valid() && G.KeepsForeign(old(tables.root), tables.root)
              && T.Held(tables.root) == T.Held(old(tables.root))
      ensures r.Err? ==> space.regions == old(space.regions) && tables.root == old(tables.root)
      ensures r == A.Err(A.EINVAL) <==> !A.GoodRange(addr, length) || A.ProtCheck(prot, flags) == Some(A.EINVAL)
      ensures r == A.Err(A.EACCES) <==> A.GoodRange(addr, length) && A.ProtCheck(prot, flags) == Some(A.EACCES)
      ensures r == A.Err(A.ENOMEM) <==>
                A.GoodRange(addr, length) && A.ProtCheck(prot, flags).None?
                && A.Unprotectable(old(space.regions), addr, addr + A.RoundUp(length), sparesOk)
      ensures r.Ok? ==> forall g: nat :: addr / R.PAGE <= g < (addr + A.RoundUp(length)) / R.PAGE ==>
                                           Allows(T.At(tables.root, g), prot)
      ensures r.Ok? ==> A.GoodRange(addr, length) && A.ProtCheck(prot, flags).None?
                        && A.Covered(old(space.regions), addr, addr + A.RoundUp(length))
                        && S.Updated(old(space.regions), space.regions, addr, addr + A.RoundUp(length), Some(prot))
      ensures r.Ok? ==>
                G.Done(old(tables.root), tables.root, addr / R.PAGE, (addr + A.RoundUp(length)) / R.PAGE,
                       G.Protect(RightsOf(prot)))
      ensures W.NoneEmptied(old(tables.root), tables.root)
    {
      hide *;
      Parts();
      W.SweptStart(tables.root, 0);
      G.KeepsSelf(tables.root);
      ghost var rs, was := space.regions, tables.root;
      A.CheckMeans(prot, flags);
      r := space.Protect(addr, length, prot, flags, sparesOk);
      if r.Err? {
        Whole();
        return;
      }
      var end := addr + A.RoundUp(length);
      GoodIs(addr, length);
      RangePages(addr, end);
      tables.ProtectRange(addr, end - addr, RightsOf(prot));
      tables.Whole();
      ProtectedShows(rs, was, tables.root, addr, end, prot);
      forall g: nat | addr / R.PAGE <= g < end / R.PAGE ensures Allows(T.At(tables.root, g), prot) {
        RightsAllow(T.At(tables.root, g), prot);
      }
      MirrorsUpdated(rs, space.regions, was, tables.root, addr, end, Some(prot));
      Whole();
    }

    /** vmm_user_release: no region and no page of the window is left. */
    method Release() returns (freed: seq<nat>)
      requires Valid()
      modifies space, tables
      ensures Valid() && space.regions == [] && T.Held(tables.root) + multiset(freed) == T.Held(old(tables.root))
      ensures Emptied(old(tables.root), tables.root, FIRST, LAST)
      ensures C.Exclusive(old(tables.root)) ==>
                C.Exclusive(tables.root) && C.NoRepeats(freed) && forall f :: f in freed ==> f !in T.Held(tables.root)
      ensures W.NoneEmptied(old(tables.root), tables.root)
    {
      hide *;
      Parts();
      W.SweptStart(tables.root, 0);
      WindowAligned();
      ghost var was := tables.root;
      freed := ClearPages(tables, space.regions, R.BASE, R.LIMIT);
      tables.Whole();
      space.Clear();
      EmptiedFrom(was, tables.root, FIRST, LAST);
      G.Surrender(was, tables.root, freed);
      NothingMirrors(was, tables.root);
      Whole();
    }
  }

  // ---------- histories of calls ----------

  datatype Call =
    | DoMap(hint: nat, length: nat, prot: bv32, flags: bv32, totalPages: nat, nodeOk: bool, grants: seq<Grant>)
    | DoUnmap(addr: nat, length: nat, spareOk: bool)
    | DoProtect(addr: nat, length: nat, prot: bv32, flags: bv32, sparesOk: bool)
    | DoRelease

  // What a call did: nothing, or one value for the addresses from start up to end.
  datatype Edit = Refused | Set(start: nat, end: nat, value: Option<bv32>)

  predicate Reaches(e: Edit, a: nat) { e.Set? && e.start <= a < e.end }

  // The protection the last edit of an address left there.
  function Value(edits: seq<Edit>, a: nat): Option<bv32> {
    if edits == [] then None
    else
      var last := edits[|edits| - 1];
      if Reaches(last, a) then last.value else Value(edits[..|edits| - 1], a)
  }

  // A call that was not refused edits its own range, with its own protection if prot_check lets that pass.
  predicate Fair(call: Call, e: Edit) {
    match call
    case DoMap(_, length, prot, flags, _, _, _) =>
      e.Set? ==> e.end == e.start + A.RoundUp(length) && e.value == Some(prot) && A.ProtCheck(prot, flags).None?
    case DoUnmap(addr, length, _) => e.Set? ==> e == Set(addr, addr + A.RoundUp(length), None)
    case DoProtect(addr, length, prot, flags, _) =>
      e.Set? ==> e == Set(addr, addr + A.RoundUp(length), Some(prot)) && A.ProtCheck(prot, flags).None?
    case DoRelease => e == Set(R.BASE, R.LIMIT, None)
  }

  predicate AllowsBoth(call: Call) { (call.DoMap? || call.DoProtect?) && call.flags & A.ALLOW_WX != 0 }

  predicate WritesAndRuns(x: T.Leaf) { x.Page? && x.rights.write && !x.rights.noexec }

  ghost predicate Replays(rs: seq<R.Region>, edits: seq<Edit>) {
    forall a: nat :: R.BASE <= a < R.LIMIT ==> R.At(rs, a) == Value(edits, a)
  }

  lemma ReplaysNothing()
    ensures Replays([], [])
  {
  }

  lemma ReplaysRefused(rs: seq<R.Region>, edits: seq<Edit>)
    requires Replays(rs, edits)
    ensures Replays(rs, edits + [Refused])
  {
    hide R.At;
    forall a: nat | R.BASE <= a < R.LIMIT ensures R.At(rs, a) == Value(edits + [Refused], a) {
      ValueNext(edits, Refused, a);
    }
  }

  lemma ReplaysSet(rs: seq<R.Region>, ts: seq<R.Region>, edits: seq<Edit>, start: nat, end: nat, v: Option<bv32>)
    requires Replays(rs, edits) && S.Updated(rs, ts, start, end, v)
    ensures Replays(ts, edits + [Set(start, end, v)])
  {
    hide R.At;
    forall a: nat | R.BASE <= a < R.LIMIT ensures R.At(ts, a) == Value(edits + [Set(start, end, v)], a) {
      ValueNext(edits, Set(start, end, v), a);
    }
  }

  lemma ReplaysReleased(edits: seq<Edit>)
    ensures Replays([], edits + [Set(R.BASE, R.LIMIT, None)])
  {
    forall a: nat | R.BASE <= a < R.LIMIT ensures R.At([], a) == Value(edits + [Set(R.BASE, R.LIMIT, None)], a) {
      ValueNext(edits, Set(R.BASE, R.LIMIT, None), a);
    }
  }

  lemma ValueNext(edits: seq<Edit>, e: Edit, a: nat)
    ensures Value(edits + [e], a) == if Reaches(e, a) then e.value else Value(edits, a)
  {
    assert (edits + [e])[..|edits|] == edits;
  }

  // A value is one that some edit set.
  lemma {:induction false} ValueWasSet(edits: seq<Edit>, a: nat) returns (i: nat)
    requires Value(edits, a).Some?
    ensures i < |edits| && edits[i].Set? && edits[i].value == Value(edits, a)
  {
    var n := |edits| - 1;
    if Reaches(edits[n], a) { return n; }
    i := ValueWasSet(edits[..n], a);
  }

  // Only a call with the flag leaves a protection with write and execute.
  lemma NeverBoth(call: Call, e: Edit, x: T.Leaf)
    requires Fair(call, e) && !AllowsBoth(call) && e.Set? && e.value.Some? && Shows(x, e.value)
    ensures !WritesAndRuns(x)
  {
    RightsAllow(x, e.value.value);
    if call.DoMap? || call.DoProtect? {
      A.CheckMeans(call.prot, call.flags);
      BothBits(call.prot, call.flags);
    }
  }

  lemma BothBits(prot: bv32, flags: bv32)
    requires A.ProtCheck(prot, flags).None? && flags & A.ALLOW_WX == 0
    ensures prot & 2 == 0 || prot & 4 == 0
  {
  }

  lemma WindowNeverBoth(calls: seq<Call>, edits: seq<Edit>, rs: seq<R.Region>, root: T.Pml4)
    requires |edits| == |calls| && (forall i :: 0 <= i < |calls| ==> Fair(calls[i], edits[i]) && !AllowsBoth(calls[i]))
    requires Mirrors(rs, root) && Replays(rs, edits)
    ensures forall g: nat :: FIRST <= g < LAST ==> !WritesAndRuns(T.At(root, g))
  {
    hide T.At, T.Ok, R.At, Fair, AllowsBoth;
    Window();
    forall g: nat | FIRST <= g < LAST ensures !WritesAndRuns(T.At(root, g)) {
      MirrorsParts(rs, root, g);
      assert R.BASE <= Address(g) < R.LIMIT;
      if Value(edits, Address(g)).Some? {
        var i := ValueWasSet(edits, Address(g));
        NeverBoth(calls[i], edits[i], T.At(root, g));
      }
    }
  }

  // One call and what it did.
  method Perform(m: Memory, call: Call) returns (e: Edit)
    requires m.Valid()
    modifies m.space, m.tables
    ensures m.Valid() && Fair(call, e)
    ensures forall edits :: Replays(old(m.space.regions), edits) ==> Replays(m.space.regions, edits + [e])
  {
    hide *;
    ghost var rs := m.space.regions;
    e := Refused;
    forall edits | Replays(rs, edits) ensures Replays(rs, edits + [Refused]) { ReplaysRefused(rs, edits); }
    match call {
      case DoMap(hint, length, prot, flags, totalPages, nodeOk, grants) =>
        var r, short := m.Map(hint, length, prot, flags, totalPages, nodeOk, grants);
        if r.Ok? {
          e := Set(r.value, r.value + A.RoundUp(length), Some(prot));
          forall edits | Replays(rs, edits) ensures Replays(m.space.regions, edits + [e]) {
            ReplaysSet(rs, m.space.regions, edits, e.start, e.end, e.value);
          }
        }
      case DoUnmap(addr, length, spareOk) =>
        var r, freed := m.Unmap(addr, length, spareOk);
        if r.Ok? {
          e := Set(addr, addr + A.RoundUp(length), None);
          forall edits | Replays(rs, edits) ensures Replays(m.space.regions, edits + [e]) {
            ReplaysSet(rs, m.space.regions, edits, e.start, e.end, e.value);
          }
        }
      case DoProtect(addr, length, prot, flags, sparesOk) =>
        var r := m.Protect(addr, length, prot, flags, sparesOk);
        if r.Ok? {
          e := Set(addr, addr + A.RoundUp(length), Some(prot));
          forall edits | Replays(rs, edits) ensures Replays(m.space.regions, edits + [e]) {
            ReplaysSet(rs, m.space.regions, edits, e.start, e.end, e.value);
          }
        }
      case DoRelease =>
        var freed := m.Release();
        e := Set(R.BASE, R.LIMIT, None);
        forall edits | Replays(rs, edits) ensures Replays(m.space.regions, edits + [e]) { ReplaysReleased(edits); }
    }
    FairIs(call, e);
  }

  lemma FairIs(call: Call, e: Edit)
    ensures e.Refused? && !call.DoRelease? ==> Fair(call, e)
    ensures call.DoRelease? && e == Set(R.BASE, R.LIMIT, None) ==> Fair(call, e)
    ensures (call.DoMap? && e.Set? && e.end == e.start + A.RoundUp(call.length) && e.value == Some(call.prot)
             && A.ProtCheck(call.prot, call.flags).None?) ==> Fair(call, e)
    ensures call.DoUnmap? && e == Set(call.addr, call.addr + A.RoundUp(call.length), None) ==> Fair(call, e)
    ensures (call.DoProtect? && e == Set(call.addr, call.addr + A.RoundUp(call.length), Some(call.prot))
             && A.ProtCheck(call.prot, call.flags).None?) ==> Fair(call, e)
  {
    hide A.RoundUp, A.ProtCheck;
  }

  /**
   Any history of calls on a new process: every page of the window is there exactly when the last
   call that reached it mapped or protected it, with the rights that call asked for; and if no
   call passed ALLOW_WX, no page of the window can be both written and executed.
   */
  method Session(m: Memory, calls: seq<Call>) returns (edits: seq<Edit>)
    requires m.Valid() && m.space.regions == []
    modifies m.space, m.tables
    ensures m.Valid() && |edits| == |calls| && forall i :: 0 <= i < |calls| ==> Fair(calls[i], edits[i])
    ensures forall g: nat :: FIRST <= g < LAST ==> Shows(T.At(m.tables.root, g), Value(edits, Address(g)))
    ensures (forall i :: 0 <= i < |calls| ==> !AllowsBoth(calls[i])) ==>
              forall g: nat :: FIRST <= g < LAST ==> !WritesAndRuns(T.At(m.tables.root, g))
  {
    hide *;
    edits := [];
    ReplaysNothing();
    for n := 0 to |calls|
      invariant m.Valid() && |edits| == n && (forall i :: 0 <= i < n ==> Fair(calls[i], edits[i]))
      invariant Replays(m.space.regions, edits)
    {
      var e := Perform(m, calls[n]);
      edits := edits + [e];
    }
    m.Parts();
    ShowsValues(edits, m.space.regions, m.tables.root);
    if forall i :: 0 <= i < |calls| ==> !AllowsBoth(calls[i]) {
      WindowNeverBoth(calls, edits, m.space.regions, m.tables.root);
    }
  }

  lemma ShowsValues(edits: seq<Edit>, rs: seq<R.Region>, root: T.Pml4)
    requires Mirrors(rs, root) && Replays(rs, edits)
    ensures T.Ok(root) && forall g: nat :: FIRST <= g < LAST ==> Shows(T.At(root, g), Value(edits, Address(g)))
  {
    hide T.At, T.Ok, R.At, Shows;
    Window();
    forall g: nat | FIRST <= g < LAST ensures Shows(T.At(root, g), Value(edits, Address(g))) {
      MirrorsParts(rs, root, g);
      assert R.BASE <= Address(g) < R.LIMIT;
    }
  }

  lemma StillOnce(was: multiset<nat>, root: T.Pml4, more: multiset<nat>)
    requires T.Held(root) <= was + more
    ensures C.Once(was + more) ==> C.Exclusive(root)
  {
    hide T.Held, C.Once;
    if C.Once(was + more) { C.OnceBelow(T.Held(root), was + more); }
  }

  // The pages from lo up to hi are gone, the others are as before.
  ghost predicate Emptied(was: T.Pml4, now: T.Pml4, lo: nat, hi: nat) {
    T.Ok(was) && T.Ok(now) && forall g: nat {:trigger T.At(now, g)} ::
        T.At(now, g) == if lo <= g < hi then T.NoPage else T.At(was, g)
  }

  lemma EmptiedFrom(was: T.Pml4, now: T.Pml4, lo: nat, hi: nat)
    requires T.Ok(was) && T.Ok(now)
    requires forall g: nat {:trigger T.At(now, g)} ::
             if lo <= g < hi then Shows(T.At(now, g), None) else T.At(now, g) == T.At(was, g)
    ensures Emptied(was, now, lo, hi)
  {
    hide T.At, T.Ok;
  }

  lemma NothingMirrors(was: T.Pml4, root: T.Pml4)
    requires Emptied(was, root, FIRST, LAST)
    ensures Mirrors([], root)
  {
    hide T.At, T.Ok;
    forall g: nat | FIRST <= g < LAST ensures Shows(T.At(root, g), R.At([], Address(g))) {}
  }

  lemma WindowAligned()
    ensures R.Aligned(R.BASE) && R.Aligned(R.LIMIT) && R.BASE < R.LIMIT && R.BASE / R.PAGE == FIRST
            && R.LIMIT / R.PAGE == LAST
  {
  }

  lemma EndAligned(start: nat, length: nat)
    requires R.Aligned(start)
    ensures R.Aligned(start + A.RoundUp(length))
            && (start + A.RoundUp(length)) / R.PAGE == start / R.PAGE + A.RoundUp(length) / R.PAGE
  {
  }

  lemma GoodIs(addr: nat, length: nat)
    requires A.GoodRange(addr, length)
    ensures R.Aligned(addr) && R.Aligned(addr + A.RoundUp(length))
            && R.BASE <= addr < addr + A.RoundUp(length) <= R.LIMIT
  {
    A.RangeEnd(addr, length);
  }
}
