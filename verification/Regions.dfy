/**
 The region list of kernel/mm/vmm_user.c as the run-length encoding of a partial map from
 addresses to protections.
 */
module Regions {
  import opened Wrappers

  datatype Region = Region(start: nat, end: nat, prot: bv32)

  const BASE: nat := 0x80_0000_0000
  const LIMIT: nat := 0x7000_0000_0000
  const PAGE: nat := 4096
  const MAX_REGIONS: nat := 4096

  // ---------- the map a list stands for ----------

  predicate Covers(r: Region, a: nat) { r.start <= a < r.end }

  function At(rs: seq<Region>, a: nat): Option<bv32> {
    if rs == [] then None else if Covers(rs[0], a) then Some(rs[0].prot) else At(rs[1..], a)
  }

  lemma {:induction false} AtConcat(xs: seq<Region>, ys: seq<Region>, a: nat)
    ensures At(xs + ys, a) == if At(xs, a).Some? then At(xs, a) else At(ys, a)
  {
    if xs == [] {
      assert xs + ys == ys;
    } else {
      assert (xs + ys)[1..] == xs[1..] + ys;
      AtConcat(xs[1..], ys, a);
    }
  }

  lemma AtOne(r: Region, a: nat)
    ensures At([r], a) == if Covers(r, a) then Some(r.prot) else None
  {
    assert [r][1..] == [];
  }

  lemma {:induction false} AtNone(rs: seq<Region>, a: nat)
    requires forall i :: 0 <= i < |rs| ==> !Covers(rs[i], a)
    ensures At(rs, a) == None
  {
    if rs != [] { AtNone(rs[1..], a); }
  }

  lemma {:induction false} AtMember(rs: seq<Region>, i: nat, a: nat)
    requires Sorted(rs) && i < |rs| && Covers(rs[i], a)
    ensures At(rs, a) == Some(rs[i].prot)
  {
    if i > 0 {
      SortedTail(rs);
      SortedApart(rs, 0, i);
      AtMember(rs[1..], i - 1, a);
    }
  }

  // ---------- canonical lists ----------

  predicate Aligned(a: nat) { a % PAGE == 0 }

  predicate Fits(r: Region) { BASE <= r.start < r.end <= LIMIT && Aligned(r.start) && Aligned(r.end) }

  // Non-empty, page-aligned regions inside the window, in address order without overlap.
  predicate Sorted(rs: seq<Region>) {
    && (forall i :: 0 <= i < |rs| ==> Fits(rs[i]))
    && (forall i, j :: 0 <= i < j < |rs| ==> rs[i].end <= rs[j].start)
  }

  // Neighbours that ought to be one region.
  predicate Joinable(r: Region, next: Region) { r.end == next.start && r.prot == next.prot }

  // The k-th region and its successor are not two halves of one.
  predicate Distinct(rs: seq<Region>, k: int) { 0 <= k < |rs| - 1 ==> !Joinable(rs[k], rs[k + 1]) }

  predicate Canonical(rs: seq<Region>) { Sorted(rs) && forall k :: 0 <= k < |rs| - 1 ==> Distinct(rs, k) }

  lemma SortedTail(rs: seq<Region>)
    requires Sorted(rs) && rs != []
    ensures Sorted(rs[1..])
  {
  }

  lemma SortedApart(rs: seq<Region>, i: nat, j: nat)
    requires Sorted(rs) && i < j < |rs|
    ensures rs[i].end <= rs[j].start && rs[i].start < rs[j].start
  {
  }

  lemma CanonicalTail(rs: seq<Region>)
    requires Canonical(rs) && rs != []
    ensures Canonical(rs[1..])
  {
    hide Joinable, Fits;
    var t := rs[1..];
    forall k | 0 <= k < |t| - 1 ensures Distinct(t, k) {
      var m := k + 1;
      assert Distinct(rs, m);
    }
  }

  // Below the first region nothing is mapped.
  lemma BeforeFirst(rs: seq<Region>, a: nat)
    requires Sorted(rs) && (rs == [] || a < rs[0].start)
    ensures At(rs, a) == None
  {
    hide At;
    forall i | 0 <= i < |rs| ensures !Covers(rs[i], a) { if i > 0 { SortedApart(rs, 0, i); } }
    AtNone(rs, a);
  }

  // What a list of at least one region maps at its first region's end.
  lemma AfterFirst(rs: seq<Region>)
    requires Canonical(rs) && rs != []
    ensures At(rs, rs[0].end) != Some(rs[0].prot)
  {
    hide Fits;
    var a, t := rs[0].end, rs[1..];
    SortedTail(rs);
    if t != [] {
      assert Distinct(rs, 0);
      SortedApart(rs, 0, 1);
      if rs[1].start == a {
        assert Fits(t[0]);
        FitsSize(t[0]);
        AtMember(t, 0, a);
      } else {
        BeforeFirst(t, a);
      }
    }
  }

  lemma FitsSize(r: Region)
    requires Fits(r)
    ensures r.start < r.end
  {
  }

  /** A map has one canonical list only. */
  lemma {:induction false} CanonicalUnique(xs: seq<Region>, ys: seq<Region>)
    requires Canonical(xs) && Canonical(ys) && forall a: nat :: At(xs, a) == At(ys, a)
    ensures xs == ys
  {
    hide At, Distinct;
    if xs == [] || ys == [] {
      if xs != [] { FitsSize(xs[0]); AtMember(xs, 0, xs[0].start); BeforeFirst(ys, xs[0].start); }
      if ys != [] { FitsSize(ys[0]); AtMember(ys, 0, ys[0].start); BeforeFirst(xs, ys[0].start); }
    } else {
      SameFirst(xs, ys);
      CanonicalTail(xs);
      CanonicalTail(ys);
      forall a: nat ensures At(xs[1..], a) == At(ys[1..], a) { SameTail(xs, ys, a); }
      CanonicalUnique(xs[1..], ys[1..]);
      assert xs == [xs[0]] + xs[1..] && ys == [ys[0]] + ys[1..];
    }
  }

  lemma SameFirst(xs: seq<Region>, ys: seq<Region>)
    requires Canonical(xs) && Canonical(ys) && xs != [] && ys != [] && forall a: nat :: At(xs, a) == At(ys, a)
    ensures xs[0] == ys[0]
  {
    hide At, Distinct;
    var x, y := xs[0], ys[0];
    FitsSize(x);
    FitsSize(y);
    AtMember(xs, 0, x.start);
    AtMember(ys, 0, y.start);
    if x.start < y.start { BeforeFirst(ys, x.start); }
    if y.start < x.start { BeforeFirst(xs, y.start); }
    if x.end < y.end {
      AfterFirst(xs);
      AtMember(ys, 0, x.end);
    }
    if y.end < x.end {
      AfterFirst(ys);
      AtMember(xs, 0, y.end);
    }
  }

  lemma SameTail(xs: seq<Region>, ys: seq<Region>, a: nat)
    requires Sorted(xs) && Sorted(ys) && xs != [] && ys != [] && xs[0] == ys[0] && At(xs, a) == At(ys, a)
    ensures At(xs[1..], a) == At(ys[1..], a)
  {
    SortedTail(xs);
    SortedTail(ys);
    if Covers(xs[0], a) {
      if |xs| > 1 { SortedApart(xs, 0, 1); }
      if |ys| > 1 { SortedApart(ys, 0, 1); }
      BeforeFirst(xs[1..], a);
      BeforeFirst(ys[1..], a);
    }
  }

  // ---------- replacing part of a list ----------

  // rs with the n regions from index i replaced.
  function Swap(rs: seq<Region>, i: nat, n: nat, mid: seq<Region>): seq<Region>
    requires i + n <= |rs|
  {
    rs[..i] + mid + rs[i + n..]
  }

  lemma SwapAt(rs: seq<Region>, i: nat, n: nat, mid: seq<Region>, a: nat)
    requires i + n <= |rs|
    ensures At(Swap(rs, i, n, mid), a) ==
            if At(rs[..i], a).Some? then At(rs[..i], a) else if At(mid, a).Some? then At(mid, a) else At(rs[i + n..], a)
    ensures At(rs, a) ==
            if At(rs[..i], a).Some? then At(rs[..i], a)
                                         else if At(rs[i..i + n], a).Some?
                                              then At(rs[i..i + n], a) else At(rs[i + n..], a)
  {
    AtConcat(rs[..i] + mid, rs[i + n..], a);
    AtConcat(rs[..i], mid, a);
    assert rs == rs[..i] + rs[i..i + n] + rs[i + n..];
    AtConcat(rs[..i] + rs[i..i + n], rs[i + n..], a);
    AtConcat(rs[..i], rs[i..i + n], a);
  }

  lemma JoinSorted(xs: seq<Region>, ps: seq<Region>)
    requires Sorted(xs) && Sorted(ps) && (xs != [] && ps != [] ==> xs[|xs| - 1].end <= ps[0].start)
    ensures Sorted(xs + ps)
  {
    hide Fits;
    var t := xs + ps;
    forall i, j | 0 <= i < j < |t| ensures t[i].end <= t[j].start {
      if i < |xs| <= j {
        if i < |xs| - 1 { SortedApart(xs, i, |xs| - 1); FitsSize(xs[|xs| - 1]); }
        if j > |xs| { SortedApart(ps, 0, j - |xs|); }
      }
    }
  }

  lemma SortedSlice(rs: seq<Region>, i: nat, j: nat)
    requires Sorted(rs) && i <= j <= |rs|
    ensures Sorted(rs[i..j])
  {
    hide Fits;
  }

  // The replacement lies between its neighbours.
  lemma SwapSorted(rs: seq<Region>, i: nat, n: nat, mid: seq<Region>)
    requires Sorted(rs) && Sorted(mid) && i + n <= |rs| && mid != []
    requires i > 0 ==> rs[i - 1].end <= mid[0].start
    requires i + n < |rs| ==> mid[|mid| - 1].end <= rs[i + n].start
    ensures Sorted(Swap(rs, i, n, mid))
  {
    hide Sorted;
    SortedSlice(rs, 0, i);
    SortedSlice(rs, i + n, |rs|);
    assert rs[0..i] == rs[..i] && rs[i + n..|rs|] == rs[i + n..];
    JoinSorted(rs[..i], mid);
    JoinSorted(rs[..i] + mid, rs[i + n..]);
  }
}
