/**
 The list edits behind mapping, unmapping and protecting (kernel/mm/vmm_user.c): what each does to
 the map, and that the list stays canonical.
 */
module RegionSteps {
  import opened Wrappers
  import opened Regions

  ghost predicate SameMap(rs: seq<Region>, ts: seq<Region>) { forall a: nat :: At(rs, a) == At(ts, a) }

  // ts maps [start, end) to v and the rest as rs does.
  ghost predicate Updated(rs: seq<Region>, ts: seq<Region>, start: nat, end: nat, v: Option<bv32>) {
    forall a: nat {:trigger At(ts, a)} :: At(ts, a) == if start <= a < end then v else At(rs, a)
  }

  predicate Free(rs: seq<Region>, start: nat, end: nat) {
    forall i :: 0 <= i < |rs| ==> rs[i].end <= start || end <= rs[i].start
  }

  // ---------- mapping ----------

  // n regions start below `start`.
  predicate Splitting(rs: seq<Region>, start: nat, n: nat) {
    n <= |rs| && (forall i :: 0 <= i < n ==> rs[i].start < start)
        && (forall i :: n <= i < |rs| ==> rs[i].start >= start)
  }

  predicate MergesPrev(rs: seq<Region>, n: nat, start: nat, prot: bv32) {
    0 < n <= |rs| && rs[n - 1].end == start && rs[n - 1].prot == prot
  }

  predicate MergesNext(rs: seq<Region>, n: nat, end: nat, prot: bv32) {
    n < |rs| && rs[n].start == end && rs[n].prot == prot
  }

  function Joined(rs: seq<Region>, n: nat, start: nat, end: nat, prot: bv32): Region {
    Region(if MergesPrev(rs, n, start, prot) then rs[n - 1].start
                                                  else start, if MergesNext(rs, n, end, prot)
                                                       then rs[n].end else end, prot)
  }

  // The list with [start, end) added, merged with the neighbours it continues.
  function Mapped(rs: seq<Region>, n: nat, start: nat, end: nat, prot: bv32): seq<Region>
    requires n <= |rs|
  {
    var i := if MergesPrev(rs, n, start, prot) then n - 1 else n;
    var j := if MergesNext(rs, n, end, prot) then n + 1 else n;
    Swap(rs, i, j - i, [Joined(rs, n, start, end, prot)])
  }

  // The new region, with what it absorbs, lies between the regions that stay.
  lemma JoinedBetween(rs: seq<Region>, n: nat, start: nat, end: nat, prot: bv32)
    requires Sorted(rs) && Splitting(rs, start, n) && Free(rs, start, end) && Fits(Region(start, end, prot))
    ensures var i := if MergesPrev(rs, n, start, prot) then n - 1 else n;
            var j := if MergesNext(rs, n, end, prot) then n + 1 else n;
            var r := Joined(rs, n, start, end, prot);
            Fits(r) && (i > 0 ==> rs[i - 1].end <= r.start) && (j < |rs| ==> r.end <= rs[j].start)
  {
    if n > 0 { assert Fits(rs[n - 1]) && rs[n - 1].start < start; }
    if n > 1 { SortedApart(rs, n - 2, n - 1); }
    if n < |rs| { assert Fits(rs[n]) && rs[n].start >= start; }
    if n + 1 < |rs| { SortedApart(rs, n, n + 1); }
  }

  lemma MappedSorted(rs: seq<Region>, n: nat, start: nat, end: nat, prot: bv32)
    requires Sorted(rs) && Splitting(rs, start, n) && Free(rs, start, end) && Fits(Region(start, end, prot))
    ensures Sorted(Mapped(rs, n, start, end, prot))
  {
    hide Splitting, Free, Joined, Fits, Sorted, Swap;
    SplittingSize(rs, start, n);
    JoinedBetween(rs, n, start, end, prot);
    var i := if MergesPrev(rs, n, start, prot) then n - 1 else n;
    var j := if MergesNext(rs, n, end, prot) then n + 1 else n;
    var r := Joined(rs, n, start, end, prot);
    SortedOne(r);
    SwapSorted(rs, i, j - i, [r]);
  }

  lemma SortedOne(r: Region)
    requires Fits(r)
    ensures Sorted([r])
  {
  }

  lemma SliceDistinct(rs: seq<Region>, i: nat, j: nat)
    requires i <= j <= |rs| && forall k :: 0 <= k < |rs| - 1 ==> Distinct(rs, k)
    ensures forall k :: 0 <= k < |rs[i..j]| - 1 ==> Distinct(rs[i..j], k)
  {
    hide Joinable;
    var t := rs[i..j];
    forall k | 0 <= k < |t| - 1 ensures Distinct(t, k) {
      var m := i + k;
      assert Distinct(rs, m);
    }
  }

  // Neither neighbour that stays continues the new region.
  lemma JoinedApart(rs: seq<Region>, n: nat, start: nat, end: nat, prot: bv32)
    requires (forall k :: 0 <= k < |rs| - 1 ==> Distinct(rs, k)) && n <= |rs|
    ensures var i := if MergesPrev(rs, n, start, prot) then n - 1 else n;
            var j := if MergesNext(rs, n, end, prot) then n + 1 else n;
            var r := Joined(rs, n, start, end, prot);
            (i > 0 ==> !Joinable(rs[i - 1], r)) && (j < |rs| ==> !Joinable(r, rs[j]))
  {
    if n > 1 { var m := n - 2; assert Distinct(rs, m); }
    if n < |rs| - 1 { assert Distinct(rs, n); }
  }

  lemma MergesIs(rs: seq<Region>, n: nat, start: nat, end: nat, prot: bv32)
    ensures MergesPrev(rs, n, start, prot) ==> 0 < n <= |rs|
    ensures MergesNext(rs, n, end, prot) ==> n < |rs|
  {
  }

  lemma MappedPairs(rs: seq<Region>, n: nat, start: nat, end: nat, prot: bv32)
    requires (forall k :: 0 <= k < |rs| - 1 ==> Distinct(rs, k)) && n <= |rs|
    ensures var t := Mapped(rs, n, start, end, prot); forall k :: 0 <= k < |t| - 1 ==> Distinct(t, k)
  {
    hide Distinct, Joinable, Joined, MergesPrev, MergesNext;
    MergesIs(rs, n, start, end, prot);
    JoinedApart(rs, n, start, end, prot);
    var i := if MergesPrev(rs, n, start, prot) then n - 1 else n;
    var j := if MergesNext(rs, n, end, prot) then n + 1 else n;
    var r := Joined(rs, n, start, end, prot);
    SliceDistinct(rs, 0, i);
    SliceDistinct(rs, j, |rs|);
    assert rs[0..i] == rs[..i] && rs[j..|rs|] == rs[j..];
    JoinDistinct(rs[..i], [r]);
    JoinDistinct(rs[..i] + [r], rs[j..]);
  }

  lemma MappedAt(rs: seq<Region>, n: nat, start: nat, end: nat, prot: bv32, a: nat)
    requires Sorted(rs) && n <= |rs| && start < end && Free(rs, start, end)
    ensures At(Mapped(rs, n, start, end, prot), a) == if start <= a < end then Some(prot) else At(rs, a)
  {
    hide At;
    var i := if MergesPrev(rs, n, start, prot) then n - 1 else n;
    var j := if MergesNext(rs, n, end, prot) then n + 1 else n;
    var r := Joined(rs, n, start, end, prot);
    var gone := rs[i..j];
    SwapAt(rs, i, j - i, [r], a);
    AtOne(r, a);
    if start <= a < end {
      forall m | 0 <= m < |rs[..i]| ensures !Covers(rs[..i][m], a) { assert rs[m].end <= start || end <= rs[m].start; }
      AtNone(rs[..i], a);
    } else {
      GoneAt(rs, n, start, end, prot, a);
    }
  }

  // The regions that the new one absorbs.
  lemma GoneAt(rs: seq<Region>, n: nat, start: nat, end: nat, prot: bv32, a: nat)
    requires Sorted(rs) && n <= |rs| && start < end && !(start <= a < end)
    ensures var i := if MergesPrev(rs, n, start, prot) then n - 1 else n;
            var j := if MergesNext(rs, n, end, prot) then n + 1 else n;
            At(rs[i..j], a) == if Covers(Joined(rs, n, start, end, prot), a) then Some(prot) else None
  {
    hide At;
    var i := if MergesPrev(rs, n, start, prot) then n - 1 else n;
    var j := if MergesNext(rs, n, end, prot) then n + 1 else n;
    var x := rs[i..n];
    var y := rs[n..j];
    assert rs[i..j] == x + y;
    AtConcat(x, y, a);
    if i < n { assert x == [rs[n - 1]]; AtOne(rs[n - 1], a); assert Fits(rs[n - 1]); } else { AtNone(x, a); }
    if n < j { assert y == [rs[n]]; AtOne(rs[n], a); assert Fits(rs[n]); } else { AtNone(y, a); }
  }

  /** Adding a free range keeps the list canonical and maps exactly that range. */
  lemma MappedKeeps(rs: seq<Region>, n: nat, start: nat, end: nat, prot: bv32)
    requires Canonical(rs) && Splitting(rs, start, n) && Free(rs, start, end) && Fits(Region(start, end, prot))
    ensures Canonical(Mapped(rs, n, start, end, prot))
            && Updated(rs, Mapped(rs, n, start, end, prot), start, end, Some(prot))
    ensures |Mapped(rs, n, start, end, prot)| <= |rs| + 1
    ensures |Mapped(rs, n, start, end, prot)| == |rs| + 1 <==>
              !MergesPrev(rs, n, start, prot) && !MergesNext(rs, n, end, prot)
  {
    hide At, Sorted, Distinct, Free, Splitting;
    MappedSorted(rs, n, start, end, prot);
    SplittingSize(rs, start, n);
    var t := Mapped(rs, n, start, end, prot);
    MappedPairs(rs, n, start, end, prot);
    forall a: nat ensures At(t, a) == if start <= a < end then Some(prot) else At(rs, a) {
      MappedAt(rs, n, start, end, prot, a);
    }
  }

  lemma SplittingSize(rs: seq<Region>, start: nat, n: nat)
    requires Splitting(rs, start, n)
    ensures n <= |rs|
  {
  }

  // ---------- unmapping ----------

  // What is left of a region when [start, end) is taken out.
  function Pieces(r: Region, start: nat, end: nat): seq<Region> {
    if r.end <= start || r.start >= end then [r]
    else (if r.start < start then [r.(end := start)] else []) + (if r.end > end then [r.(start := end)] else [])
  }

  function Cut(rs: seq<Region>, start: nat, end: nat): seq<Region> {
    if rs == [] then [] else Cut(rs[..|rs| - 1], start, end) + Pieces(rs[|rs| - 1], start, end)
  }

  lemma PiecesAt(r: Region, start: nat, end: nat, a: nat)
    requires start < end
    ensures At(Pieces(r, start, end), a) == if start <= a < end then None else At([r], a)
  {
    hide At;
    AtOne(r, a);
    AtOne(r.(end := start), a);
    AtOne(r.(start := end), a);
    AtConcat(if r.start < start then [r.(end := start)] else [], if r.end > end then [r.(start := end)] else [], a);
    AtNone([], a);
  }

  lemma {:induction false} CutAt(rs: seq<Region>, start: nat, end: nat, a: nat)
    requires start < end
    ensures At(Cut(rs, start, end), a) == if start <= a < end then None else At(rs, a)
  {
    hide At;
    if rs == [] {
      AtNone(rs, a);
    } else {
      var init, r := rs[..|rs| - 1], rs[|rs| - 1];
      CutAt(init, start, end, a);
      PiecesAt(r, start, end, a);
      AtConcat(Cut(init, start, end), Pieces(r, start, end), a);
      assert rs == init + [r];
      AtConcat(init, [r], a);
    }
  }

  // What the last piece left says about the last region.
  ghost predicate Ends(rs: seq<Region>, cut: seq<Region>) {
    cut != [] ==> rs != [] && var l, r := cut[|cut| - 1],
                  rs[|rs| - 1]; l.end <= r.end && (l.end == r.end ==> l.prot == r.prot)
  }

  lemma {:induction false} CutCanonical(rs: seq<Region>, start: nat, end: nat)
    requires Canonical(rs) && start < end && Aligned(start) && Aligned(end)
    ensures Canonical(Cut(rs, start, end)) && Ends(rs, Cut(rs, start, end)) && |Cut(rs, start, end)| <= |rs| + 1
  {
    hide Fits;
    if rs != [] {
      var init, r := rs[..|rs| - 1], rs[|rs| - 1];
      CanonicalInit(rs);
      CutCanonical(init, start, end);
      PiecesCanonical(r, start, end);
      CutJoins(rs, Cut(init, start, end), Pieces(r, start, end));
      CutSize(rs, start, end);
    }
  }

  lemma CanonicalInit(rs: seq<Region>)
    requires Canonical(rs) && rs != []
    ensures Canonical(rs[..|rs| - 1])
  {
    hide Fits, Joinable;
    var t := rs[..|rs| - 1];
    forall k | 0 <= k < |t| - 1 ensures Distinct(t, k) { assert Distinct(rs, k); }
  }

  lemma PiecesCanonical(r: Region, start: nat, end: nat)
    requires Fits(r) && start < end && Aligned(start) && Aligned(end)
    ensures Canonical(Pieces(r, start, end))
    ensures forall p <- Pieces(r, start, end) :: r.start <= p.start && p.end <= r.end && p.prot == r.prot
  {
    hide Aligned;
  }

  lemma CutJoins(rs: seq<Region>, xs: seq<Region>, ps: seq<Region>)
    requires Canonical(rs) && rs != [] && Canonical(xs) && Canonical(ps) && Ends(rs[..|rs| - 1], xs)
    requires forall p <- ps :: rs[|rs| - 1].start <= p.start && p.end <= rs[|rs| - 1].end && p.prot == rs[|rs| - 1].prot
    ensures Canonical(xs + ps) && Ends(rs, xs + ps)
  {
    hide Fits, Joinable, Sorted, Distinct, Ends;
    CutMeets(rs, xs, ps);
    JoinSorted(xs, ps);
    JoinDistinct(xs, ps);
  }

  lemma CutMeets(rs: seq<Region>, xs: seq<Region>, ps: seq<Region>)
    requires Canonical(rs) && rs != [] && Ends(rs[..|rs| - 1], xs)
    requires forall p <- ps :: rs[|rs| - 1].start <= p.start && p.end <= rs[|rs| - 1].end && p.prot == rs[|rs| - 1].prot
    ensures xs != [] && ps != [] ==> xs[|xs| - 1].end <= ps[0].start && !Joinable(xs[|xs| - 1], ps[0])
    ensures Ends(rs, xs + ps)
  {
    hide Fits;
    var last := |rs| - 1;
    var init := rs[..last];
    if ps != [] { assert ps[0] in ps && ps[|ps| - 1] in ps; }
    if xs != [] {
      assert init[last - 1] == rs[last - 1];
      SortedApart(rs, last - 1, last);
      FitsSize(rs[last]);
      assert Distinct(rs, last - 1);
    }
  }

  lemma JoinDistinct(xs: seq<Region>, ps: seq<Region>)
    requires (forall k :: 0 <= k < |xs| - 1 ==> Distinct(xs, k)) && (forall k :: 0 <= k < |ps| - 1 ==> Distinct(ps, k))
    requires xs != [] && ps != [] ==> !Joinable(xs[|xs| - 1], ps[0])
    ensures forall k :: 0 <= k < |xs + ps| - 1 ==> Distinct(xs + ps, k)
  {
    hide Joinable;
    var t := xs + ps;
    forall k | 0 <= k < |t| - 1 ensures Distinct(t, k) {
      if k < |xs| - 1 {
        assert Distinct(xs, k);
      } else if k >= |xs| {
        var m := k - |xs|;
        assert Distinct(ps, m);
      }
    }
  }

  predicate Straddles(r: Region, start: nat, end: nat) { r.start < start && end < r.end }

  // Only a region around the whole range leaves two pieces, and then every other region stays.
  lemma {:induction false} CutSize(rs: seq<Region>, start: nat, end: nat)
    requires Sorted(rs) && start < end
    ensures |Cut(rs, start, end)| <= |rs| + 1
    ensures (forall i :: 0 <= i < |rs| ==> !Straddles(rs[i], start, end)) ==> |Cut(rs, start, end)| <= |rs|
  {
    hide Fits, Pieces, Cut, Sorted;
    if rs == [] {
      CutOfNone(start, end);
    } else {
      var last := |rs| - 1;
      var init := rs[..last];
      SortedInit(rs);
      CutLast(rs, start, end);
      CutSize(init, start, end);
      PieceCount(rs[last], start, end);
      assert forall i :: 0 <= i < last ==> init[i] == rs[i];
      if Straddles(rs[last], start, end) {
        forall i | 0 <= i < last ensures !Straddles(init[i], start, end) { SortedApart(rs, i, last); }
      }
    }
  }

  lemma CutOfNone(start: nat, end: nat)
    ensures Cut([], start, end) == []
  {
  }

  lemma SortedInit(rs: seq<Region>)
    requires Sorted(rs) && rs != []
    ensures Sorted(rs[..|rs| - 1])
  {
  }

  lemma PieceCount(r: Region, start: nat, end: nat)
    requires start < end
    ensures |Pieces(r, start, end)| <= if Straddles(r, start, end) then 2 else 1
  {
  }

  lemma {:induction false} CutNone(rs: seq<Region>, start: nat, end: nat, n: nat)
    requires n <= |rs| && forall i :: n <= i < |rs| ==> rs[i].start >= end
    ensures Cut(rs, start, end) == Cut(rs[..n], start, end) + rs[n..]
  {
    hide Cut, Pieces;
    if n == |rs| {
      assert rs[..n] == rs && rs[n..] == [];
    } else {
      var last := |rs| - 1;
      var init := rs[..last];
      CutNone(init, start, end, n);
      assert init[..n] == rs[..n] && rs[n..] == init[n..] + [rs[last]];
      CutLast(rs, start, end);
      PiecesWhole(rs[last], start, end);
    }
  }

  lemma PiecesWhole(r: Region, start: nat, end: nat)
    requires r.start >= end || r.end <= start
    ensures Pieces(r, start, end) == [r]
  {
  }

  lemma CutLast(rs: seq<Region>, start: nat, end: nat)
    requires rs != []
    ensures Cut(rs, start, end) == Cut(rs[..|rs| - 1], start, end) + Pieces(rs[|rs| - 1], start, end)
  {
  }

  lemma CutNext(rs: seq<Region>, start: nat, end: nat, n: nat)
    requires n < |rs|
    ensures Cut(rs[..n + 1], start, end) == Cut(rs[..n], start, end) + Pieces(rs[n], start, end)
  {
    assert rs[..n + 1][..n] == rs[..n];
  }

  // ---------- protecting ----------

  // A region reaches across the point.
  predicate Crosses(r: Region, point: nat) { r.start < point < r.end }

  predicate Crossed(rs: seq<Region>, point: nat) { exists i :: 0 <= i < |rs| && Crosses(rs[i], point) }

  // Halves of one region meet between lo and hi only.
  predicate Quiet(rs: seq<Region>, lo: nat, hi: nat) {
    forall k :: 0 <= k < |rs| - 1 ==> Distinct(rs, k) || lo <= rs[k].end <= hi
  }

  lemma SplitKeeps(rs: seq<Region>, i: nat, point: nat, lo: nat, hi: nat)
    requires Sorted(rs) && i < |rs| && Crosses(rs[i], point) && Aligned(point) && Quiet(rs, lo, hi) && lo <= point <= hi
    ensures var t := Swap(rs, i, 1, [rs[i].(end := point), rs[i].(start := point)]);
            Sorted(t) && SameMap(rs, t) && Quiet(t, lo, hi) && !Crossed(t, point) && |t| == |rs| + 1
  {
    var mid := [rs[i].(end := point), rs[i].(start := point)];
    var t := Swap(rs, i, 1, mid);
    assert Fits(rs[i]);
    if i > 0 { SortedApart(rs, i - 1, i); }
    if i + 1 < |rs| { SortedApart(rs, i, i + 1); }
    assert Sorted(mid);
    SwapSorted(rs, i, 1, mid);
    hide Fits, At, Sorted;
    forall a: nat ensures At(rs, a) == At(t, a) { SplitAtSame(rs, i, point, a); }
    forall k | 0 <= k < |t| - 1 ensures Distinct(t, k) || lo <= t[k].end <= hi { SplitQuiet(rs, i, point, lo, hi, k); }
    SplitUncrossed(rs, i, point);
  }

  lemma SplitAtSame(rs: seq<Region>, i: nat, point: nat, a: nat)
    requires i < |rs| && Crosses(rs[i], point)
    ensures At(rs, a) == At(Swap(rs, i, 1, [rs[i].(end := point), rs[i].(start := point)]), a)
  {
    hide At;
    var lo, hi := rs[i].(end := point), rs[i].(start := point);
    SwapAt(rs, i, 1, [lo, hi], a);
    assert rs[i..i + 1] == [rs[i]] && [lo, hi] == [lo] + [hi];
    AtOne(rs[i], a);
    AtOne(lo, a);
    AtOne(hi, a);
    AtConcat([lo], [hi], a);
  }

  lemma SplitQuiet(rs: seq<Region>, i: nat, point: nat, lo: nat, hi: nat, k: nat)
    requires i < |rs| && Crosses(rs[i], point) && Quiet(rs, lo, hi) && lo <= point <= hi && k < |rs|
    ensures var t := Swap(rs, i, 1, [rs[i].(end := point), rs[i].(start := point)]);
            Distinct(t, k) || lo <= t[k].end <= hi
  {
    var mid := [rs[i].(end := point), rs[i].(start := point)];
    var t := Swap(rs, i, 1, mid);
    if k + 1 < i {
      assert Distinct(rs, k) || lo <= rs[k].end <= hi;
    } else if k + 1 == i {
      assert t[k] == rs[k] && t[k + 1] == mid[0];
      assert Distinct(rs, k) || lo <= rs[k].end <= hi;
    } else if k == i {
      assert t[k] == mid[0];
    } else {
      var m := k - 1;
      assert t[k].end == rs[m].end && t[k].prot == rs[m].prot && t[k + 1] == rs[m + 1];
      assert Distinct(rs, m) || lo <= rs[m].end <= hi;
    }
  }

  lemma SplitUncrossed(rs: seq<Region>, i: nat, point: nat)
    requires Sorted(rs) && i < |rs| && Crosses(rs[i], point)
    ensures !Crossed(Swap(rs, i, 1, [rs[i].(end := point), rs[i].(start := point)]), point)
  {
    var t := Swap(rs, i, 1, [rs[i].(end := point), rs[i].(start := point)]);
    forall k | 0 <= k < |t| ensures !Crosses(t[k], point) {
      if k < i { SortedApart(rs, k, i); }
      if k > i + 1 { SortedApart(rs, i, k - 1); }
    }
  }

  // A new protection for the regions that start inside the range.
  function Paint(rs: seq<Region>, start: nat, end: nat, prot: bv32): (t: seq<Region>)
    ensures |t| == |rs| && forall i :: 0 <= i < |rs| ==>
                                         t[i] == if start <= rs[i].start < end then rs[i].(prot := prot) else rs[i]
  {
    seq(|rs|, i requires 0 <= i < |rs| => if start <= rs[i].start < end then rs[i].(prot := prot) else rs[i])
  }

  lemma PaintAt(rs: seq<Region>, start: nat, end: nat, prot: bv32, a: nat)
    requires Sorted(rs) && !Crossed(rs, start) && !Crossed(rs, end)
    ensures Sorted(Paint(rs, start, end, prot))
    ensures At(Paint(rs, start, end, prot), a) == if start <= a < end && At(rs, a).Some? then Some(prot) else At(rs, a)
  {
    hide At, Paint;
    var t := Paint(rs, start, end, prot);
    assert Sorted(t);
    if i :| 0 <= i < |rs| && Covers(rs[i], a) {
      AtMember(rs, i, a);
      assert Covers(t[i], a);
      AtMember(t, i, a);
      assert !Crosses(rs[i], start) && !Crosses(rs[i], end);
    } else {
      AtNone(rs, a);
      assert forall i :: 0 <= i < |t| ==> !Covers(t[i], a);
      AtNone(t, a);
    }
  }

  lemma PaintQuiet(rs: seq<Region>, start: nat, end: nat, prot: bv32)
    requires Sorted(rs) && !Crossed(rs, end) && Quiet(rs, start, end)
    ensures Quiet(Paint(rs, start, end, prot), start, end)
  {
    hide Paint;
    var t := Paint(rs, start, end, prot);
    forall k | 0 <= k < |t| - 1 ensures Distinct(t, k) || start <= t[k].end <= end {
      assert Distinct(rs, k) || start <= rs[k].end <= end;
      assert !Crosses(rs[k], end) && Fits(rs[k]);
    }
  }

  lemma MergeKeeps(rs: seq<Region>, m: nat, lo: nat, hi: nat)
    requires Sorted(rs) && m + 1 < |rs| && Joinable(rs[m], rs[m + 1]) && Quiet(rs, lo, hi) && forall k ::
             0 <= k < m ==> Distinct(rs, k)
    ensures var t := Swap(rs, m, 2, [rs[m].(end := rs[m + 1].end)]);
            Sorted(t) && SameMap(rs, t) && Quiet(t, lo, hi) && (forall k :: 0 <= k < m ==> Distinct(t, k))
                && |t| == |rs| - 1 && t[m].start == rs[m].start
  {
    var r := rs[m].(end := rs[m + 1].end);
    var t := Swap(rs, m, 2, [r]);
    assert Fits(rs[m]) && Fits(rs[m + 1]);
    if m > 0 { SortedApart(rs, m - 1, m); }
    if m + 2 < |rs| { SortedApart(rs, m + 1, m + 2); }
    SwapSorted(rs, m, 2, [r]);
    hide Fits, At, Sorted;
    forall a: nat ensures At(rs, a) == At(t, a) { MergeAt(rs, m, a); }
    forall k | 0 <= k < |t| - 1 ensures (Distinct(t, k) || lo <= t[k].end <= hi) && (k < m ==> Distinct(t, k)) {
      MergePair(rs, m, lo, hi, k);
    }
  }

  lemma MergeAt(rs: seq<Region>, m: nat, a: nat)
    requires m + 1 < |rs| && Joinable(rs[m], rs[m + 1]) && rs[m].start < rs[m].end && rs[m + 1].start < rs[m + 1].end
    ensures At(rs, a) == At(Swap(rs, m, 2, [rs[m].(end := rs[m + 1].end)]), a)
  {
    hide At;
    SwapAt(rs, m, 2, [rs[m].(end := rs[m + 1].end)], a);
    assert rs[m..m + 2] == [rs[m]] + [rs[m + 1]];
    AtConcat([rs[m]], [rs[m + 1]], a);
    AtOne(rs[m], a);
    AtOne(rs[m + 1], a);
    AtOne(rs[m].(end := rs[m + 1].end), a);
  }

  // One region in the place of two.
  lemma SwapTwo(rs: seq<Region>, m: nat, r: Region, k: nat)
    requires m + 1 < |rs| && k < |rs| - 1
    ensures var t := Swap(rs, m, 2, [r]);
            |t| == |rs| - 1 && t[k] == if k < m then rs[k] else if k == m then r else rs[k + 1]
  {
  }

  lemma SameJoint(t: seq<Region>, k: nat, rs: seq<Region>, c: nat)
    requires k + 1 < |t| && c + 1 < |rs| && t[k].end == rs[c].end && t[k].prot == rs[c].prot
    requires t[k + 1].start == rs[c + 1].start && t[k + 1].prot == rs[c + 1].prot
    ensures Distinct(t, k) <==> Distinct(rs, c)
  {
  }

  lemma MergePair(rs: seq<Region>, m: nat, lo: nat, hi: nat, k: nat)
    requires m + 1 < |rs| && Joinable(rs[m], rs[m + 1]) && Quiet(rs, lo, hi)
             && (forall j :: 0 <= j < m ==> Distinct(rs, j)) && k < |rs| - 2
    ensures var t := Swap(rs, m, 2, [rs[m].(end := rs[m + 1].end)]);
            (Distinct(t, k) || lo <= t[k].end <= hi) && (k < m ==> Distinct(t, k))
  {
    var t := Swap(rs, m, 2, [rs[m].(end := rs[m + 1].end)]);
    SwapTwo(rs, m, rs[m].(end := rs[m + 1].end), k);
    SwapTwo(rs, m, rs[m].(end := rs[m + 1].end), k + 1);
    assert rs[m].prot == rs[m + 1].prot;
    hide Swap, Joinable, Distinct;
    var c := if k < m then k else k + 1;
    SameJoint(t, k, rs, c);
    assert Distinct(rs, c) || lo <= rs[c].end <= hi;
    if k < m { assert Distinct(rs, k); }
  }

  // With everything up to m joined and the rest beyond the changed range, the list is canonical.
  lemma MergedAll(rs: seq<Region>, m: nat, lo: nat, hi: nat)
    requires Sorted(rs) && Quiet(rs, lo, hi) && (forall k :: 0 <= k < m ==> Distinct(rs, k))
             && (m + 1 >= |rs| || rs[m].start > hi)
    ensures Canonical(rs)
  {
    forall k | 0 <= k < |rs| - 1 ensures Distinct(rs, k) {
      if k >= m {
        if k > m { SortedApart(rs, m, k); }
        assert Fits(rs[k]);
        assert Distinct(rs, k) || lo <= rs[k].end <= hi;
      }
    }
  }

  lemma CanonicalQuiet(rs: seq<Region>, lo: nat, hi: nat)
    requires Canonical(rs)
    ensures Quiet(rs, lo, hi)
  {
  }

  // Splitting at one point leaves other points as crossed as they were.
  lemma SplitCrossed(rs: seq<Region>, i: nat, point: nat, q: nat)
    requires Sorted(rs) && i < |rs| && Crosses(rs[i], point) && q != point
    ensures Crossed(Swap(rs, i, 1, [rs[i].(end := point), rs[i].(start := point)]), q) <==> Crossed(rs, q)
  {
    hide Fits;
    var lo, hi := rs[i].(end := point), rs[i].(start := point);
    var t := Swap(rs, i, 1, [lo, hi]);
    assert t[i] == lo && t[i + 1] == hi;
    if k :| 0 <= k < |rs| && Crosses(rs[k], q) {
      var m := if k < i || (k == i && q < point) then k else k + 1;
      assert Crosses(t[m], q);
    }
    if m :| 0 <= m < |t| && Crosses(t[m], q) {
      var k := if m <= i then m else m - 1;
      assert Crosses(rs[k], q);
    }
  }

  // The outcome of splitting, painting and merging.
  lemma ProtectedMap(rs: seq<Region>, xs: seq<Region>, ts: seq<Region>, start: nat, end: nat, prot: bv32)
    requires SameMap(rs, xs) && Sorted(xs) && !Crossed(xs, start) && !Crossed(xs, end)
             && SameMap(Paint(xs, start, end, prot), ts)
    requires forall a: nat :: start <= a < end ==> At(rs, a).Some?
    ensures Updated(rs, ts, start, end, Some(prot))
  {
    hide At, Paint, Crossed, Sorted;
    forall a: nat ensures At(ts, a) == if start <= a < end then Some(prot) else At(rs, a) {
      PaintAt(xs, start, end, prot, a);
      assert At(rs, a) == At(xs, a) && At(Paint(xs, start, end, prot), a) == At(ts, a);
    }
  }

  lemma SameMapChain(rs: seq<Region>, xs: seq<Region>, ts: seq<Region>)
    requires SameMap(rs, xs) && SameMap(xs, ts)
    ensures SameMap(rs, ts)
  {
    forall a: nat ensures At(rs, a) == At(ts, a) { assert At(rs, a) == At(xs, a); }
  }
}
