/**
 The region list behind vmm_user_map, vmm_user_unmap and vmm_user_protect of kernel/mm/vmm_user.c:
 updates of a partial map from addresses to protections.
 */
module AddressSpace {
  import opened Wrappers
  import opened Regions
  import opened RegionSteps

  datatype Errno = EINVAL | EACCES | ENOMEM

  datatype Result<T> = Ok(value: T) | Err(error: Errno)

  const PROT_READ: bv32 := 1
  const PROT_WRITE: bv32 := 2
  const PROT_EXEC: bv32 := 4
  const ALLOW_WX: bv32 := 2

  function ProtCheck(prot: bv32, flags: bv32): Option<Errno> {
    if flags & !ALLOW_WX != 0 || prot & !(PROT_READ | PROT_WRITE | PROT_EXEC) != 0 then Some(EINVAL)
    else if prot != 0 && prot & PROT_READ == 0 then Some(EINVAL)
    else if prot & PROT_WRITE != 0 && prot & PROT_EXEC != 0 && flags & ALLOW_WX == 0 then Some(EACCES)
    else None
  }

  function RoundUp(length: nat): (r: nat)
    ensures Aligned(r) && length <= r < length + PAGE
  {
    (length + (PAGE - 1)) / PAGE * PAGE
  }

  // A range inside the window, as vmm_user_unmap and vmm_user_protect demand.
  predicate GoodRange(addr: nat, length: nat) {
    length > 0 && Aligned(addr) && BASE <= addr < LIMIT && length <= LIMIT - addr
  }

  lemma RangeEnd(addr: nat, length: nat)
    requires GoodRange(addr, length)
    ensures addr < addr + RoundUp(length) <= LIMIT && Aligned(addr + RoundUp(length))
  {
    assert Aligned(LIMIT);
  }

  predicate Room(rs: seq<Region>, start: nat, length: nat) { Free(rs, start, start + length) }

  ghost predicate Covered(rs: seq<Region>, start: nat, end: nat) {
    forall a: nat :: start <= a < end ==> At(rs, a).Some?
  }

  predicate Hosts(rs: seq<Region>, start: nat, size: nat) {
    BASE <= start && start + size <= LIMIT && Room(rs, start, size)
  }

  // Where a mapping of this size goes: to the hint if it fits there, else to the lowest place where it does.
  ghost predicate Placed(rs: seq<Region>, hint: nat, size: nat, start: nat) {
    Hosts(rs, start, size) && if Hosts(rs, hint, size) then start == hint
                             else forall c: nat :: Hosts(rs, c, size) ==> start <= c
  }

  // No region with this protection ends where the range starts or starts where it ends.
  predicate Alone(rs: seq<Region>, start: nat, end: nat, prot: bv32) {
    forall i :: 0 <= i < |rs| ==> rs[i].prot != prot || (rs[i].end != start && rs[i].start != end)
  }

  /** Why a well-formed request finds no place. */
  ghost predicate NoPlace(rs: seq<Region>, hint: nat, length: nat, prot: bv32, totalPages: nat, nodeOk: bool) {
    || length > LIMIT - BASE
    || RoundUp(length) > totalPages * PAGE
    || (forall c: nat :: !Hosts(rs, c, RoundUp(length)))
    || (exists c: nat :: Placed(rs, hint, RoundUp(length), c) && Alone(rs, c, c + RoundUp(length), prot)
                         && (|rs| == MAX_REGIONS || !nodeOk))
  }

  lemma NoPlaceIs(rs: seq<Region>, hint: nat, length: nat, prot: bv32, totalPages: nat, nodeOk: bool, start: nat)
    requires Placed(rs, hint, RoundUp(length), start) && length <= LIMIT - BASE && RoundUp(length) <= totalPages * PAGE
    ensures NoPlace(rs, hint, length, prot, totalPages, nodeOk)
            <==> Alone(rs, start, start + RoundUp(length), prot) && (|rs| == MAX_REGIONS || !nodeOk)
  {
    hide Hosts, Alone, RoundUp;
    assert forall c: nat :: Placed(rs, hint, RoundUp(length), c) ==> c == start;
  }

  // The request itself is wrong, and not only for asking to write and execute.
  predicate Malformed(hint: nat, length: nat, prot: bv32, flags: bv32) {
    length == 0 || ProtCheck(prot, flags) == Some(EINVAL) || (ProtCheck(prot, flags).None? && !Aligned(hint))
  }

  lemma MalformedIs(hint: nat, length: nat, prot: bv32, flags: bv32)
    ensures length > 0 && ProtCheck(prot, flags).None? ==> (Malformed(hint, length, prot, flags) <==> !Aligned(hint))
  {
  }

  /** Why the protection of a range cannot change: a page of it is not mapped, or descriptors for the splits lack. */
  ghost predicate Unprotectable(rs: seq<Region>, start: nat, end: nat, sparesOk: bool) {
    var splits := One(Crossed(rs, start)) + One(Crossed(rs, end));
    !Covered(rs, start, end) || |rs| + splits > MAX_REGIONS || (splits > 0 && !sparesOk)
  }

  lemma UnprotectableIs(rs: seq<Region>, start: nat, end: nat, sparesOk: bool)
    ensures var splits := One(Crossed(rs, start)) + One(Crossed(rs, end));
            Unprotectable(rs, start, end, sparesOk)
            <==> !Covered(rs, start, end) || |rs| + splits > MAX_REGIONS || (splits > 0 && !sparesOk)
  {
  }

  // Only the neighbours of the place can touch the range.
  lemma AloneIs(rs: seq<Region>, n: nat, start: nat, end: nat, prot: bv32)
    requires Sorted(rs) && start < end && Splitting(rs, start, n) && Free(rs, start, end)
    ensures Alone(rs, start, end, prot) <==> !MergesPrev(rs, n, start, prot) && !MergesNext(rs, n, end, prot)
  {
    hide Fits;
    forall i | 0 <= i < |rs| ensures (rs[i].end == start ==> i == n - 1) && (rs[i].start == end ==> i == n) {
      if i < n - 1 { SortedApart(rs, i, n - 1); }
      if n < i { SortedApart(rs, n, i); }
      FitsSize(rs[i]);
      if n < |rs| { FitsSize(rs[n]); }
    }
  }

  // The range continues a neighbour, or there is room for one more region.
  predicate Addable(rs: seq<Region>, n: nat, start: nat, end: nat, prot: bv32) {
    MergesPrev(rs, n, start, prot) || MergesNext(rs, n, end, prot) || |rs| < MAX_REGIONS
  }

  class Space {
    var regions: seq<Region>
    var count: nat

    ghost predicate Valid()
      reads this
    {
      Canonical(regions) && count == |regions| <= MAX_REGIONS
    }

    /** vmm_user_init */
    constructor ()
      ensures Valid() && regions == []
    {
      regions, count := [], 0;
    }

    /** range_is_free */
    method RangeIsFree(start: nat, end: nat) returns (r: bool)
      requires Sorted(regions)
      ensures r <==> Free(regions, start, end)
    {
      hide Fits;
      var i := 0;
      while i < |regions| && regions[i].start < end
        invariant i <= |regions| && forall j :: 0 <= j < i ==> regions[j].end <= start
      {
        if regions[i].end > start { return false; }
        i := i + 1;
      }
      forall j | i <= j < |regions| ensures end <= regions[j].start {
        if j > i { SortedApart(regions, i, j); }
      }
      r := true;
    }

    /** find_free_range: the lowest address at which the length fits, if there is one. */
    method FindFree(length: nat) returns (r: Option<nat>)
      requires Sorted(regions) && length > 0 && Aligned(length)
      ensures r.Some? ==> BASE <= r.value && r.value + length <= LIMIT && Aligned(r.value)
                          && Free(regions, r.value, r.value + length)
      ensures forall c: nat :: BASE <= c && c + length <= LIMIT && (r.None? || c < r.value) ==>
                                 !Room(regions, c, length)
    {
      hide Free, Aligned, Room;
      var candidate, i := BASE, 0;
      BaseAligned();
      while i < |regions|
        invariant i <= |regions| && BASE <= candidate <= LIMIT && Aligned(candidate)
        invariant candidate == if i == 0 then BASE else regions[i - 1].end
        invariant forall c: nat :: BASE <= c < candidate ==> !Room(regions, c, length)
      {
        if i > 0 { SortedApart(regions, i - 1, i); }
        assert Fits(regions[i]);
        if regions[i].start - candidate >= length {
          FreeBetween(regions, i, candidate, candidate + length);
          return Some(candidate);
        }
        forall c: nat | candidate <= c < regions[i].end ensures !Room(regions, c, length) {
          NotFree(regions, i, c, length);
        }
        candidate := regions[i].end;
        i := i + 1;
      }
      if LIMIT - candidate >= length {
        FreeBetween(regions, i, candidate, candidate + length);
        return Some(candidate);
      }
      r := None;
    }

    /** find_neighbors, as the number of regions before the address. */
    method FindNeighbors(start: nat) returns (n: nat)
      requires Sorted(regions)
      ensures Splitting(regions, start, n)
    {
      hide Fits;
      n := 0;
      while n < |regions| && regions[n].start < start
        invariant n <= |regions| && forall j :: 0 <= j < n ==> regions[j].start < start
      {
        n := n + 1;
      }
      forall j | n <= j < |regions| ensures regions[j].start >= start {
        if j > n { SortedApart(regions, n, j); }
      }
    }

    /**
     vmm_user_map up to populate: a free hint is used as given, otherwise the lowest fit, and lack
     of address space is reported only when nothing fits.  n is the place in the list; nodeOk says
     whether the allocator had a descriptor.
     */
    method Choose(hint: nat, length: nat, prot: bv32, flags: bv32, totalPages: nat, nodeOk: bool)
        returns (r: Result<nat>, n: nat)
      requires Valid()
      ensures r.Ok? ==> BASE <= r.value < r.value + RoundUp(length) <= LIMIT && Aligned(r.value)
                        && ProtCheck(prot, flags).None? && length > 0
                        && Free(regions, r.value, r.value + RoundUp(length))
      ensures r.Ok? ==> Splitting(regions, r.value, n) && Addable(regions, n, r.value, r.value + RoundUp(length), prot)
      ensures r.Ok? ==> Placed(regions, hint, RoundUp(length), r.value)
      ensures r == Err(EINVAL) <==> Malformed(hint, length, prot, flags)
      ensures r == Err(EACCES) <==> length > 0 && ProtCheck(prot, flags) == Some(EACCES)
      ensures r == Err(ENOMEM) <==> length > 0 && ProtCheck(prot, flags).None? && Aligned(hint)
                                    && NoPlace(regions, hint, length, prot, totalPages, nodeOk)
    {
      hide Canonical, Free, Splitting, ProtCheck, Aligned, Sorted, Room, NoPlace, Alone, MergesPrev, MergesNext;
      CanonicalSorted(regions);
      CheckMeans(prot, flags);
      n := 0;
      if length == 0 { return Err(EINVAL), n; }
      var check := ProtCheck(prot, flags);
      if check.Some? { return Err(check.value), n; }
      if !Aligned(hint) { return Err(EINVAL), n; }
      TooLong(regions, hint, length, prot, totalPages, nodeOk);
      if length > LIMIT - BASE { return Err(ENOMEM), n; }
      var size := RoundUp(length);
      PagesNeeded(length, totalPages);
      if size / PAGE > totalPages { return Err(ENOMEM), n; }
      var start := hint;
      var free := false;
      RoomIs(regions, hint, size);
      if BASE <= hint < LIMIT && size <= LIMIT - hint { free := RangeIsFree(hint, hint + size); }
      if !free {
        var found := FindFree(size);
        if found.None? {
          Nowhere(regions, hint, length, prot, totalPages, nodeOk);
          return Err(ENOMEM), n;
        }
        start := found.value;
      }
      RoomIs(regions, start, size);
      PlacedFrom(regions, hint, size, start, free);
      n := FindNeighbors(start);
      SplittingSize(regions, start, n);
      AloneIs(regions, n, start, start + size, prot);
      NoPlaceIs(regions, hint, length, prot, totalPages, nodeOk, start);
      if !MergesPrev(regions, n, start, prot) && !MergesNext(regions, n, start + size, prot) {
        if count >= MAX_REGIONS || !nodeOk { return Err(ENOMEM), n; }
      }
      r := Ok(start);
    }

    /** The rest of vmm_user_map: exactly the range is added to the map. */
    method Insert(n: nat, start: nat, end: nat, prot: bv32)
      requires Valid() && BASE <= start < end <= LIMIT && Aligned(start) && Aligned(end) && Free(regions, start, end)
      requires Splitting(regions, start, n) && Addable(regions, n, start, end, prot)
      modifies this
      ensures Valid() && Updated(old(regions), regions, start, end, Some(prot))
    {
      hide Canonical, Updated, Free, Splitting, Mapped, Aligned, Sorted;
      CanonicalSorted(regions);
      SplittingSize(regions, start, n);
      var mergePrev := MergesPrev(regions, n, start, prot);
      var mergeNext := MergesNext(regions, n, end, prot);
      MappedKeeps(regions, n, start, end, prot);
      MappedIs(regions, n, start, end, prot);
      if mergePrev && mergeNext {
        regions := regions[..n - 1] + [regions[n - 1].(end := regions[n].end)] + regions[n + 1..];
        count := count - 1;
      } else if mergePrev {
        regions := regions[n - 1 := regions[n - 1].(end := end)];
      } else if mergeNext {
        regions := regions[n := regions[n].(start := start)];
      } else {
        regions := regions[..n] + [Region(start, end, prot)] + regions[n..];
        count := count + 1;
      }
    }

    /** vmm_user_release, on the list */
    method Clear()
      modifies this
      ensures Valid() && regions == []
    {
      regions, count := [], 0;
    }

    /**
     vmm_user_unmap: exactly the given range leaves the map.  It fails only for a malformed range,
     or when a region has to be split and no descriptor is left; then nothing has changed.
     */
    method Unmap(addr: nat, length: nat, spareOk: bool) returns (r: Result<()>)
      requires Valid()
      modifies this
      ensures Valid()
      ensures r.Err? ==> regions == old(regions)
      ensures r == Err(EINVAL) <==> !GoodRange(addr, length)
      ensures r == Err(ENOMEM) <==>
                GoodRange(addr, length) && (|old(regions)| == MAX_REGIONS || !spareOk)
                && exists i :: 0 <= i < |old(regions)| && Straddles(old(regions)[i], addr, addr + RoundUp(length))
      ensures r != Err(EACCES)
      ensures r.Ok? ==> Updated(old(regions), regions, addr, addr + RoundUp(length), None)
    {
      hide Canonical, Cut, Updated, Pieces, Sorted, RoundUp, Aligned;
      if !GoodRange(addr, length) { return Err(EINVAL); }
      RangeEnd(addr, length);
      var end := addr + RoundUp(length);
      CanonicalSorted(regions);
      var split := FindStraddle(addr, end);
      if split {
        if count >= MAX_REGIONS || !spareOk { return Err(ENOMEM); }
      }
      ghost var rs := regions;
      CutCanonical(rs, addr, end);
      CutSize(rs, addr, end);
      UnmappedAll(rs, Cut(rs, addr, end), addr, end);
      CutAll(addr, end);
      r := Ok(());
    }

    // The second loop of vmm_user_unmap
    method CutAll(addr: nat, end: nat)
      requires Sorted(regions) && addr < end && count == |regions|
      modifies this
      ensures regions == Cut(old(regions), addr, end) && count == |regions|
    {
      hide *;
      ghost var rs := regions;
      CutOfNone(addr, end);
      var i: nat := 0;
      ghost var j: nat := 0;
      ghost var before: seq<Region> := [];
      while i < |regions| && regions[i].start < end
        invariant j <= |rs| && before == Cut(rs[..j], addr, end) && i == |before| && regions == before + rs[j..]
        invariant count == |regions|
        decreases |rs| - j
      {
        assert regions[i] == rs[j] && regions[..i] == before && regions[i + 1..] == rs[j + 1..];
        CutNext(rs, addr, end, j);
        ghost var pieces := Pieces(rs[j], addr, end);
        var last, next := CutOne(i, addr, end);
        before := before + pieces;
        j := j + 1;
        i := next;
        if last {
          StraddlesPast(rs[j - 1], addr, end);
          AfterRegion(rs, j - 1, end);
          break;
        }
      }
      assert j < |rs| && i == |before| ==> regions[i] == rs[j];
      RestBeyond(rs, j, end);
      CutNone(rs, addr, end, j);
    }

    // One round of the second loop: what is left of the i-th region, and whether it was the last.
    method CutOne(i: nat, addr: nat, end: nat) returns (last: bool, next: nat)
      requires i < |regions| && regions[i].start < end && addr < end && count == |regions|
      modifies this
      ensures var pieces := Pieces(old(regions)[i], addr, end);
              regions == old(regions)[..i] + pieces + old(regions)[i + 1..] && count == |regions|
                  && (!last ==> |pieces| <= 1 && next == i + |pieces|)
      ensures last <==> Straddles(old(regions)[i], addr, end)
    {
      hide Pieces;
      var region := regions[i];
      PiecesCases(region, addr, end);
      last, next := false, i;
      if region.end <= addr {
        next := i + 1;
      } else if region.start >= addr && region.end <= end {
        regions := regions[..i] + regions[i + 1..];
        count := count - 1;
      } else if region.start < addr && region.end > end {
        regions := regions[..i] + [region.(end := addr), region.(start := end)] + regions[i + 1..];
        count := count + 1;
        last := true;
      } else {
        regions := if region.start < addr then regions[i := region.(end := addr)]
                                               else regions[i := region.(start := end)];
        next := i + 1;
      }
    }

    // The first loop of vmm_user_unmap: is there a region around the whole range?
    method FindStraddle(start: nat, end: nat) returns (r: bool)
      requires Sorted(regions) && start < end
      ensures r <==> exists i :: 0 <= i < |regions| && Straddles(regions[i], start, end)
    {
      hide Fits;
      var i := 0;
      while i < |regions| && regions[i].start < end
        invariant i <= |regions| && forall j :: 0 <= j < i ==> !Straddles(regions[j], start, end)
      {
        if Straddles(regions[i], start, end) { return true; }
        i := i + 1;
      }
      forall j | i <= j < |regions| ensures !Straddles(regions[j], start, end) {
        if j > i { SortedApart(regions, i, j); }
      }
      r := false;
    }

    // ---------- protecting ----------

    // The coverage loop of vmm_user_protect: is every page mapped, and how many splits are needed?
    method CheckCover(addr: nat, end: nat) returns (ok: bool, splits: nat)
      requires Sorted(regions) && addr < end
      ensures ok <==> Covered(regions, addr, end)
      ensures ok ==> splits == One(Crossed(regions, addr)) + One(Crossed(regions, end))
    {
      hide At, Fits, Covered, Crossed;
      var rs := regions;
      var covered, i := addr, 0;
      var gap := false;
      splits := 0;
      CrossedNone(rs[..0], addr);
      CrossedNone(rs[..0], end);
      CoveredNone(rs, addr);
      while i < |rs| && rs[i].start < end && !gap
        invariant i <= |rs| && addr <= covered && (covered == addr || (i > 0 && covered == rs[i - 1].end))
                  && (forall j :: 0 <= j < i ==> rs[j].end <= covered)
        invariant Covered(rs, addr, covered) && splits == One(Crossed(rs[..i], addr)) + One(Crossed(rs[..i], end))
        invariant gap ==> i < |rs| && covered < rs[i].start < end
        decreases |rs| - i, !gap
      {
        var r := rs[i];
        FitsSize(r);
        CrossedNext(rs, i, addr);
        CrossedNext(rs, i, end);
        if r.end > addr && r.start > covered {
          gap := true;
        } else {
          if r.end > addr {
            NotCrossedYet(rs, i, addr, end);
            if r.start < addr { splits := splits + 1; }
            if r.end > end { splits := splits + 1; }
            if i > 0 { SortedApart(rs, i - 1, i); }
            CoveredMore(rs, i, addr, covered);
            covered := r.end;
          }
          i := i + 1;
        }
      }
      if gap || covered < end {
        if i < |rs| { RestBeyond(rs, i, if gap then covered + 1 else end); }
        Uncovered(rs, addr, covered, end);
        return false, splits;
      }
      RestBeyond(rs, i, end);
      CrossedRest(rs, i, addr);
      CrossedRest(rs, i, end);
      CoveredLess(rs, addr, covered, end);
      ok := true;
    }

    /** split_at: the region across the point becomes two; says whether a descriptor was used. */
    method SplitAt(point: nat, ghost lo: nat, ghost hi: nat) returns (used: bool)
      requires Sorted(regions) && count == |regions| && Aligned(point) && Quiet(regions, lo, hi) && lo <= point <= hi
      modifies this
      ensures Sorted(regions) && count == |regions| == |old(regions)| + One(used) && Quiet(regions, lo, hi)
      ensures SameMap(old(regions), regions) && !Crossed(regions, point) && (used <==> Crossed(old(regions), point))
      ensures forall q: nat :: q != point ==> (Crossed(regions, q) <==> Crossed(old(regions), q))
    {
      hide At, Quiet, Aligned, SameMap, Sorted;
      var i := 0;
      ghost var rs := regions;
      while i < |regions| && regions[i].start < point
        invariant i <= |regions| && regions == rs && count == |rs| && forall j ::
                  0 <= j < i ==> !Crosses(regions[j], point)
      {
        var r := regions[i];
        if r.end > point {
          SplitKeeps(rs, i, point, lo, hi);
          forall q: nat | q != point
              ensures Crossed(Swap(rs, i, 1, [r.(end := point), r.(start := point)]), q) <==> Crossed(rs, q) {
            SplitCrossed(rs, i, point, q);
          }
          regions := regions[..i] + [r.(end := point), r.(start := point)] + regions[i + 1..];
          count := count + 1;
          return true;
        }
        i := i + 1;
      }
      RestBeyond(rs, i, point);
      SameMapSelf(rs);
      used := false;
    }

    // The loop that sets r->prot
    method SetProt(addr: nat, end: nat, prot: bv32)
      requires Sorted(regions) && addr < end && count == |regions|
      modifies this
      ensures regions == Paint(old(regions), addr, end, prot) && count == |regions|
    {
      hide Sorted, Paint;
      ghost var rs := regions;
      ghost var want := Paint(rs, addr, end, prot);
      var i := 0;
      while i < |regions| && regions[i].start < end
        invariant i <= |regions| == |rs| == count && regions[..i] == want[..i] && regions[i..] == rs[i..]
      {
        var r := regions[i];
        assert r == rs[i];
        if r.start >= addr { regions := regions[i := r.(prot := prot)]; }
        assert regions[i] == want[i];
        i := i + 1;
        assert regions[..i] == want[..i - 1] + [want[i - 1]];
      }
      assert i < |rs| ==> regions[i..][0] == rs[i];
      RestBeyond(rs, i, end);
      assert want[i..] == rs[i..];
      assert regions == regions[..i] + regions[i..] && want == want[..i] + want[i..];
    }

    /** merge_around: joins the halves that meet between start and end; the map does not change. */
    method MergeAround(start: nat, end: nat)
      requires Sorted(regions) && count == |regions| && start <= end && Quiet(regions, start, end)
      modifies this
      ensures Canonical(regions) && SameMap(old(regions), regions) && count == |regions| <= |old(regions)|
    {
      hide At, SameMap, Sorted, Splitting;
      ghost var rs := regions;
      var n := FindNeighbors(start);
      SplittingSize(rs, start, n);
      var m: nat := if n > 0 then n - 1 else 0;
      BeforeQuiet(rs, start, end, n);
      SameMapSelf(rs);
      while m + 1 < |regions| && regions[m].start <= end
        invariant Sorted(regions) && Quiet(regions, start, end) && SameMap(rs, regions) && count == |regions| <= |rs|
        invariant forall k :: 0 <= k < m ==> Distinct(regions, k)
        decreases |regions|, |regions| - m
      {
        var following := regions[m + 1];
        if Joinable(regions[m], following) {
          MergeKeeps(regions, m, start, end);
          ghost var was := regions;
          regions := regions[..m] + [regions[m].(end := following.end)] + regions[m + 2..];
          count := count - 1;
          SameMapChain(rs, was, regions);
        } else {
          assert Distinct(regions, m);
          m := m + 1;
        }
      }
      MergedAll(regions, m, start, end);
    }

    /**
     vmm_user_protect: exactly the given range changes its protection; the splits it makes are
     exactly the ones it counted before.  It fails only for a malformed request, a range that is
     not mapped throughout, or lack of descriptors, and then nothing has changed.
     */
    method Protect(addr: nat, length: nat, prot: bv32, flags: bv32, sparesOk: bool) returns (r: Result<()>)
      requires Valid()
      modifies this
      ensures Valid()
      ensures r.Err? ==> regions == old(regions)
      ensures r == Err(EINVAL) <==> !GoodRange(addr, length) || ProtCheck(prot, flags) == Some(EINVAL)
      ensures r == Err(EACCES) <==> GoodRange(addr, length) && ProtCheck(prot, flags) == Some(EACCES)
      ensures r == Err(ENOMEM) <==> GoodRange(addr, length) && ProtCheck(prot, flags).None?
                                    && Unprotectable(old(regions), addr, addr + RoundUp(length), sparesOk)
      ensures r.Ok? ==> Covered(old(regions), addr, addr + RoundUp(length))
                        && Updated(old(regions), regions, addr, addr + RoundUp(length), Some(prot))
    {
      hide *;
      CheckMeans(prot, flags);
      var good := IsGoodRange(addr, length);
      if !good { return Err(EINVAL); }
      var check := ProtCheck(prot, flags);
      if check.Some? { return Err(check.value); }
      RangeEnd(addr, length);
      var end := addr + RoundUp(length);
      Facts();
      var ok, splits := CheckCover(addr, end);
      UnprotectableIs(regions, addr, end, sparesOk);
      if !ok { return Err(ENOMEM); }
      if count + splits > MAX_REGIONS { return Err(ENOMEM); }
      if splits > 0 && !sparesOk { return Err(ENOMEM); }
      ghost var rs := regions;
      CanonicalQuiet(rs, addr, end);
      GoodFacts(addr, length);
      var first := SplitAt(addr, addr, end);
      ghost var xs := regions;
      var second := SplitAt(end, addr, end);
      assert One(first) + One(second) == splits;
      ghost var ys := regions;
      SameMapChain(rs, xs, ys);
      SetProt(addr, end, prot);
      PaintQuiet(ys, addr, end, prot);
      PaintAt(ys, addr, end, prot, 0);
      MergeAround(addr, end);
      CoveredIs(rs, addr, end);
      ProtectedMap(rs, ys, regions, addr, end, prot);
      Rebuild();
      r := Ok(());
    }

    lemma Facts()
      requires Valid()
      ensures Canonical(regions) && Sorted(regions) && count == |regions| <= MAX_REGIONS
    {
    }

    lemma Rebuild()
      requires Canonical(regions) && count == |regions| <= MAX_REGIONS
      ensures Valid()
    {
    }
  }

  function One(b: bool): nat { if b then 1 else 0 }

  method IsGoodRange(addr: nat, length: nat) returns (r: bool)
    ensures r <==> GoodRange(addr, length)
  {
    r := !(length == 0 || !Aligned(addr)) && !(addr < BASE || addr >= LIMIT || length > LIMIT - addr);
  }

  lemma GoodFacts(addr: nat, length: nat)
    requires GoodRange(addr, length)
    ensures Aligned(addr)
  {
  }

  lemma SameMapSelf(rs: seq<Region>)
    ensures SameMap(rs, rs)
  {
  }

  lemma CrossedNone(rs: seq<Region>, q: nat)
    requires rs == []
    ensures !Crossed(rs, q)
  {
  }

  lemma CrossedNext(rs: seq<Region>, i: nat, q: nat)
    requires i < |rs|
    ensures Crossed(rs[..i + 1], q) <==> Crossed(rs[..i], q) || Crosses(rs[i], q)
  {
    var xs, ys := rs[..i], rs[..i + 1];
    if k :| 0 <= k < |xs| && Crosses(xs[k], q) { assert Crosses(ys[k], q); }
    if Crosses(rs[i], q) { assert Crosses(ys[i], q); }
    if k :| 0 <= k < |ys| && Crosses(ys[k], q) {
      if k < i { assert Crosses(xs[k], q); }
    }
  }

  // Regions before one that ends past addr reach neither addr's nor end's far side.
  lemma NotCrossedYet(rs: seq<Region>, i: nat, addr: nat, end: nat)
    requires Sorted(rs) && i < |rs| && rs[i].start < end
    ensures !Crossed(rs[..i], end) && (rs[i].start < addr ==> !Crossed(rs[..i], addr))
  {
    hide Fits;
    forall k | 0 <= k < i ensures rs[..i][k].end <= rs[i].start { SortedApart(rs, k, i); }
  }

  lemma CrossedRest(rs: seq<Region>, i: nat, q: nat)
    requires i <= |rs| && forall j :: i <= j < |rs| ==> rs[j].start >= q
    ensures Crossed(rs, q) <==> Crossed(rs[..i], q)
  {
    if k :| 0 <= k < |rs| && Crosses(rs[k], q) { assert Crosses(rs[..i][k], q); }
  }

  lemma CoveredNone(rs: seq<Region>, a: nat)
    ensures Covered(rs, a, a)
  {
  }

  lemma CoveredMore(rs: seq<Region>, i: nat, addr: nat, covered: nat)
    requires Sorted(rs) && i < |rs| && Covered(rs, addr, covered) && rs[i].start <= covered
    ensures Covered(rs, addr, rs[i].end)
  {
    hide At;
    forall a: nat | addr <= a < rs[i].end ensures At(rs, a).Some? {
      if a >= covered { AtMember(rs, i, a); }
    }
  }

  lemma CoveredLess(rs: seq<Region>, addr: nat, covered: nat, end: nat)
    requires Covered(rs, addr, covered) && end <= covered
    ensures Covered(rs, addr, end)
  {
  }

  lemma CoveredIs(rs: seq<Region>, addr: nat, end: nat)
    requires Covered(rs, addr, end)
    ensures forall a: nat :: addr <= a < end ==> At(rs, a).Some?
  {
  }

  lemma Uncovered(rs: seq<Region>, addr: nat, covered: nat, end: nat)
    requires addr <= covered < end && forall j :: 0 <= j < |rs| ==> rs[j].end <= covered || rs[j].start > covered
    ensures !Covered(rs, addr, end)
  {
    AtNone(rs, covered);
  }

  // Before the range every pair was left alone.
  lemma BeforeQuiet(rs: seq<Region>, start: nat, end: nat, n: nat)
    requires Sorted(rs) && Splitting(rs, start, n) && Quiet(rs, start, end)
    ensures forall k :: 0 <= k < n - 1 ==> Distinct(rs, k)
  {
    forall k | 0 <= k < n - 1 ensures Distinct(rs, k) {
      var e := rs[k].end;
      assert Distinct(rs, k) || start <= e <= end;
      assert rs[k + 1].start < start;
      SortedApart(rs, k, k + 1);
    }
  }

  lemma BaseAligned()
    ensures Aligned(BASE)
  {
  }

  lemma CanonicalSorted(rs: seq<Region>)
    requires Canonical(rs)
    ensures Sorted(rs)
  {
  }

  /**
   What prot_check lets through: no access, or read access alone, with write or with execute; all
   three need the flag, and asking for them without it is the one request answered with EACCES.
   */
  lemma CheckMeans(prot: bv32, flags: bv32)
    ensures ProtCheck(prot, flags).None? <==> (flags == 0 && (prot == 0 || prot == 1 || prot == 3 || prot == 5))
                                              || (flags == 2 && (prot == 0 || prot == 1 || prot == 3 || prot == 5
                                                                 || prot == 7))
    ensures ProtCheck(prot, flags) == Some(EACCES) <==> flags == 0 && prot == 7
    ensures ProtCheck(prot, flags).None? || ProtCheck(prot, flags) == Some(EINVAL)
            || ProtCheck(prot, flags) == Some(EACCES)
  {
  }

  lemma RoomIs(rs: seq<Region>, start: nat, size: nat)
    ensures Room(rs, start, size) <==> Free(rs, start, start + size)
  {
  }

  lemma TooLong(rs: seq<Region>, hint: nat, length: nat, prot: bv32, totalPages: nat, nodeOk: bool)
    ensures length > LIMIT - BASE || RoundUp(length) > totalPages * PAGE ==>
              NoPlace(rs, hint, length, prot, totalPages, nodeOk)
  {
    hide RoundUp, Placed, Hosts;
  }

  lemma Nowhere(rs: seq<Region>, hint: nat, length: nat, prot: bv32, totalPages: nat, nodeOk: bool)
    requires forall c: nat :: BASE <= c && c + RoundUp(length) <= LIMIT ==> !Room(rs, c, RoundUp(length))
    ensures NoPlace(rs, hint, length, prot, totalPages, nodeOk)
  {
    hide RoundUp, Placed, Room;
  }

  lemma PlacedFrom(rs: seq<Region>, hint: nat, size: nat, start: nat, found: bool)
    requires Hosts(rs, start, size) && (if found then start == hint else !Hosts(rs, hint, size))
    requires !found ==> forall c: nat :: BASE <= c && c + size <= LIMIT && c < start ==> !Room(rs, c, size)
    ensures Placed(rs, hint, size, start)
  {
    hide Room;
  }

  lemma PagesNeeded(length: nat, totalPages: nat)
    requires 0 < length <= LIMIT - BASE
    ensures 0 < RoundUp(length) <= LIMIT - BASE
            && (RoundUp(length) <= totalPages * PAGE <==> RoundUp(length) / PAGE <= totalPages)
  {
    assert Aligned(LIMIT - BASE);
  }

  lemma FreeBetween(rs: seq<Region>, i: nat, start: nat, end: nat)
    requires Sorted(rs) && i <= |rs| && (i > 0 ==> rs[i - 1].end <= start) && (i < |rs| ==> end <= rs[i].start)
    ensures Free(rs, start, end)
  {
    hide Fits;
    forall j | 0 <= j < |rs| ensures rs[j].end <= start || end <= rs[j].start {
      if j < i - 1 { SortedApart(rs, j, i - 1); FitsSize(rs[i - 1]); }
      if j > i { SortedApart(rs, i, j); }
    }
  }

  lemma NotFree(rs: seq<Region>, i: nat, start: nat, length: nat)
    requires i < |rs| && start < rs[i].end && rs[i].start < start + length
    ensures !Room(rs, start, length)
  {
  }

  lemma MappedIs(rs: seq<Region>, n: nat, start: nat, end: nat, prot: bv32)
    requires n <= |rs|
    ensures var p, q, t := MergesPrev(rs, n, start, prot), MergesNext(rs, n, end, prot),
            Mapped(rs, n, start, end, prot);
            && (p && q ==> 0 < n < |rs| && t == rs[..n - 1] + [rs[n - 1].(end := rs[n].end)] + rs[n + 1..])
            && (p && !q ==> 0 < n && t == rs[n - 1 := rs[n - 1].(end := end)])
            && (!p && q ==> n < |rs| && t == rs[n := rs[n].(start := start)])
            && (!p && !q ==> t == rs[..n] + [Region(start, end, prot)] + rs[n..])
  {
  }

  lemma StraddlesPast(r: Region, start: nat, end: nat)
    requires Straddles(r, start, end)
    ensures r.end > end
  {
  }

  lemma PiecesCases(r: Region, start: nat, end: nat)
    requires r.start < end && start < end
    ensures var ps := Pieces(r, start, end);
            if r.end <= start then ps == [r]
            else if r.start >= start && r.end <= end then ps == []
            else if r.start < start && r.end > end then ps == [r.(end := start), r.(start := end)]
            else if r.start < start then ps == [r.(end := start)]
            else ps == [r.(start := end)]
  {
  }

  // Regions after one that reaches past a point lie past it.
  lemma AfterRegion(rs: seq<Region>, i: nat, end: nat)
    requires Sorted(rs) && i < |rs| && rs[i].end > end
    ensures i + 1 < |rs| ==> rs[i + 1].start >= end
  {
    if i + 1 < |rs| { SortedApart(rs, i, i + 1); }
  }

  lemma RestBeyond(rs: seq<Region>, j: nat, end: nat)
    requires Sorted(rs) && j <= |rs| && (j < |rs| ==> rs[j].start >= end)
    ensures forall i :: j <= i < |rs| ==> rs[i].start >= end
  {
    forall i | j <= i < |rs| ensures rs[i].start >= end { if i > j { SortedApart(rs, j, i); } }
  }

  lemma UnmappedAll(rs: seq<Region>, ts: seq<Region>, start: nat, end: nat)
    requires start < end && ts == Cut(rs, start, end)
    ensures Updated(rs, ts, start, end, None)
  {
    hide At;
    forall a: nat ensures At(ts, a) == if start <= a < end then None else At(rs, a) { CutAt(rs, start, end, a); }
  }
}
