/**
 The write-back sector cache of kernel/drivers/block_cache.c over a device that may fail, tear
 writes and lose whatever was not flushed.
 */
module BlockCache {
  import opened Wrappers
  import opened SectorTable
  import opened CacheInvariant

  const DIRTY_LIMIT: nat := ENTRIES * 3 / 4
  const FLUSH_INTERVAL_MS: nat := 1000
  const WRITE_RUN_SECTORS: nat := 64

  // A block device: `sectors` is what reads return, `stable` what survives a power loss.
  class Device {
    var sectors: seq<Sector>
    var stable: seq<Sector>
    const broken: bool          // requests may fail at any time

    ghost predicate Valid()
      reads this
    {
      |stable| == |sectors|
    }

    /** block_read of one sector. */
    method Read(lba: nat) returns (r: Option<Sector>)
      ensures r.Some? ==> lba < |sectors| && r.value == sectors[lba]
      ensures !broken && lba < |sectors| ==> r.Some?
    {
      var ok: bool := *;
      if (!ok && broken) || lba >= |sectors| { return None; }
      return Some(sectors[lba]);
    }

    /** block_write: a failed write may leave anything in the sectors it was to fill. */
    method Write(lba: nat, run: seq<Sector>) returns (ok: bool)
      requires Valid()
      modifies this
      ensures Valid() && |sectors| == old(|sectors|)
      ensures forall s :: 0 <= s < |sectors| && !(lba <= s < lba + |run|) ==>
                sectors[s] == old(sectors)[s] && (stable[s] == old(stable)[s] || stable[s] == old(sectors)[s])
      ensures ok ==> Holds(sectors, lba, run)
      ensures !broken && lba + |run| <= |sectors| ==> ok
    {
      ok := *;
      ok := ok || !broken;
      var torn: seq<Sector> := *;
      if lba + |run| > |sectors| { return false; }
      if ok || |torn| != |run| { torn := run; }
      sectors := sectors[..lba] + torn + sectors[lba + |run|..];
      var settled: set<nat> := *;
      stable := seq(|stable|, s requires 0 <= s < |stable|
                    && |stable| == |sectors| reads this => if s in settled then sectors[s] else stable[s]);
    }

    /** block_flush: a failed flush may have made some sectors durable. */
    method Flush() returns (ok: bool)
      requires Valid()
      modifies this`stable
      ensures Valid()
      ensures forall s :: 0 <= s < |sectors| ==> stable[s] == old(stable)[s] || stable[s] == sectors[s]
      ensures ok ==> stable == sectors
      ensures !broken ==> ok
    {
      ok := *;
      ok := ok || !broken;
      var settled: set<nat> := *;
      if ok { stable := sectors; return; }
      stable := seq(|stable|, s requires 0 <= s < |stable|
                    && |stable| == |sectors| reads this => if s in settled then sectors[s] else stable[s]);
    }
  }

  class Cache {
    const device: Device
    var entries: seq<Entry>
    var buckets: seq<nat>
    var ageCounter: nat
    var dirtyCount: nat
    var unflushed: bool           // device_unflushed
    var dirtySince: nat           // dirty_since_ms
    ghost var chains: seq<seq<nat>>
    ghost var flat: Flat
    ghost var pending: map<nat, nat>   // sector -> when its oldest write that may be lost was accepted
    ghost var clock: nat
    ghost var late: bool               // a tick failed since the last successful sync

    ghost predicate Valid()
      reads this, device
    {
      && device.Valid() && Index(entries, buckets, chains)
      && Coherent(entries, flat, device.sectors)
      && Safe(entries, flat, device.stable, pending, unflushed)
      && dirtyCount == |DirtySet(entries)| <= DIRTY_LIMIT
      && OnTime(pending, dirtySince, clock, late)
    }

    constructor (device: Device)
      requires device.Valid() && device.stable == device.sectors
      ensures Valid() && this.device == device && pending == map[] && !late && clock == 0
      ensures flat == FlatOf(device.sectors)
    {
      this.device := device;
      entries := EmptyTable();
      buckets := seq(BUCKETS, _ => NONE);
      ageCounter, dirtyCount, unflushed, dirtySince := 1, 0, false, 0;
      chains := seq(BUCKETS, _ => []);
      flat := FlatOf(device.sectors);
      pending, clock, late := map[], 0, false;
      new;
      NoDirty(entries);
    }

    /** cache_find: walks one chain; finds the entry of a sector exactly when it is cached. */
    method Find(lba: nat) returns (r: nat)
      requires Index(entries, buckets, chains)
      ensures r != NONE ==> r < ENTRIES && entries[r].valid && entries[r].lba == lba
      ensures r == NONE ==> !Cached(entries, lba)
    {
      hide Bucket, NextOf;
      ghost var chain := chains[Bucket(lba)];
      ghost var k := 0;
      ChainInRange(entries, buckets, chains, Bucket(lba));
      r := buckets[Bucket(lba)];
      NextIs(chain, 0);
      while r != NONE
        invariant k <= |chain| && r == NextOf(chain, k) && (r == NONE || (k < |chain| && r == chain[k]))
        invariant r == NONE ==> k == |chain|
        invariant forall j :: 0 <= j < k ==> entries[chain[j]].lba != lba
        decreases |chain| - k
      {
        if entries[r].lba == lba { return; }
        r := entries[r].next;
        k := k + 1;
        NextIs(chain, k);
      }
    }

    /** cache_link, with the two stores that precede it at both of its callers. */
    method Link(i: nat, lba: nat)
      requires Index(entries, buckets, chains) && i < ENTRIES && !entries[i].valid
      modifies this`entries, this`buckets, this`chains
      ensures Index(entries, buckets, chains)
      ensures entries == old(entries)[i := old(entries)[i].(valid := true, lba := lba, next := entries[i].next)]
    {
      hide Index, Bucket;
      IndexSize(entries, buckets, chains);
      var b := Bucket(lba);
      var e := entries[i].(valid := true, lba := lba, next := buckets[b]);
      LinkKeeps(entries, buckets, chains, i, e);
      entries := entries[i := e];
      buckets := buckets[b := i];
      chains := chains[b := [i] + chains[b]];
    }

    /** cache_unlink: the entry leaves its chain and becomes free. */
    method Unlink(i: nat)
      requires Index(entries, buckets, chains) && i < ENTRIES && entries[i].valid
      modifies this`entries, this`buckets, this`chains
      ensures Index(entries, buckets, chains) && SameElse(old(entries), entries, i)
      ensures entries[i] == old(entries)[i].(next := NONE, valid := false)
    {
      hide Bucket, NextOf, Index, Linked, Members, Bypassed, SameElse;
      IndexSize(entries, buckets, chains);
      var b := Bucket(entries[i].lba);
      ghost var chain, k := chains[b], 0;
      ChainInRange(entries, buckets, chains, b);
      ghost var m := OnChain(entries, buckets, chains, i);
      var prev: nat, cur := NONE, buckets[b];
      ChainStep(entries, cur, chain, 0);
      while cur != i
        invariant k <= m && entries == old(entries) && buckets == old(buckets) && chains == old(chains)
                  && cur == chain[k]
        invariant (k == 0 ==> prev == NONE) && (k > 0 ==> prev == chain[k - 1] && prev < ENTRIES)
        decreases m - k
      {
        ChainStep(entries, buckets[b], chain, k);
        prev, cur := cur, entries[cur].next;
        k := k + 1;
      }
      UnlinkKeeps(entries, buckets, chains, b, k);
      BypassedIs(entries, chain, b, k, prev);
      BypassedRest(entries, chain, b, k);
      if prev == NONE {
        buckets := buckets[b := entries[i].next];
      } else {
        entries := entries[prev := entries[prev].(next := entries[i].next)];
      }
      entries := entries[i := entries[i].(next := NONE, valid := false)];
      chains := chains[b := Without(chain, k)];
    }

    /**
     cache_take_victim: some entry is always available, because the dirty count is bounded; if all
     are in use it is clean and none of the clean ones was used longer ago.
     */
    method TakeVictim() returns (i: nat)
      requires Valid()
      modifies this`entries, this`buckets, this`chains
      ensures Valid() && i < ENTRIES && |entries| == ENTRIES && !entries[i].valid && !entries[i].dirty
      ensures SameElse(old(entries), entries, i)
      ensures old(entries)[i].valid ==> old(LeastRecent(i))
    {
      hide Coherent, Safe, Index, DirtySet;
      IndexSize(entries, buckets, chains);
      var best: nat := NONE;
      i := 0;
      while i < ENTRIES
        invariant Valid() && entries == old(entries) && ageCounter == old(ageCounter)
        invariant i <= ENTRIES && (forall j :: 0 <= j < i ==> entries[j].valid)
        invariant best == NONE ==> forall j :: 0 <= j < i ==> entries[j].dirty
        invariant best != NONE ==> best < i && !entries[best].dirty && OldestOf(best, i)
      {
        if !entries[i].valid {
          FreeIsClean(entries, flat, device.sectors, i);
          return;
        }
        if !entries[i].dirty {
          if best == NONE || Older(entries[i].age, entries[best].age) {
            if best != NONE { OldestNext(best, i); }
            best := i;
          } else {
            OldestNext(best, i);
          }
        }
        i := i + 1;
      }
      CleanExists(entries);
      i := best;
      ghost var es := entries;
      Unlink(i);
      CleanStep(es, entries, i, flat, device.sectors, device.stable, pending, unflushed);
      DirtySame(es, entries);
    }

    // Among the first n entries no clean one was used earlier, as far as the wrapping ages can tell.
    ghost predicate OldestOf(i: nat, n: nat)
      reads this
      requires i < n <= |entries|
    {
      (forall j :: 0 <= j < n ==> Elapsed(ageCounter, entries[j].age) < 0x8000_0000) ==>
        forall j ::
            0 <= j < n && !entries[j].dirty ==>
                  Elapsed(ageCounter, entries[j].age) <= Elapsed(ageCounter, entries[i].age)
    }

    ghost predicate LeastRecent(i: nat)
      reads this
    {
      |entries| == ENTRIES && i < ENTRIES && (forall j :: 0 <= j < ENTRIES ==> entries[j].valid) && !entries[i].dirty
          && OldestOf(i, ENTRIES)
    }

    lemma OldestNext(best: nat, i: nat)
      requires best < i < |entries| && OldestOf(best, i) && !entries[i].dirty
      ensures OldestOf(if Older(entries[i].age, entries[best].age) then i else best, i + 1)
    {
      hide Elapsed, Older;
      if forall j :: 0 <= j < i + 1 ==> Elapsed(ageCounter, entries[j].age) < 0x8000_0000 {
        OlderIsEarlier(ageCounter, entries[i].age, entries[best].age);
      }
    }

    function NextAge(): nat
      reads this
    {
      (ageCounter + 1) % (U32 as nat)
    }

    // The entry gets the next age and is the youngest now.
    method Touch(i: nat)
      requires Valid() && i < ENTRIES && |entries| == ENTRIES
      modifies this`entries, this`ageCounter
      ensures Valid() && entries == old(entries)[i := old(entries)[i].(age := old(ageCounter))]
              && ageCounter == old(NextAge())
    {
      hide Coherent, Safe, Index, DirtySet;
      ghost var es := entries;
      entries := entries[i := entries[i].(age := ageCounter)];
      ageCounter := NextAge();
      FreshOrSame(es, entries, i, flat, device.sectors, device.stable, pending, unflushed);
      IndexSame(es, entries, buckets, chains);
      DirtySame(es, entries);
    }

    /** One sector of block_read_cached. */
    method ReadSector(cur: nat) returns (r: Option<Sector>)
      requires Valid()
      modifies this`entries, this`buckets, this`chains, this`ageCounter
      ensures Valid()
      ensures r.Some? ==> cur in flat && r.value == flat[cur]
      ensures r.None? ==> old(!Cached(entries, cur))
      ensures r.None? ==> device.broken || cur >= |device.sectors|
    {
      hide Coherent, Safe, Index, DirtySet;
      IndexSize(entries, buckets, chains);
      var i := Find(cur);
      if i == NONE {
        i := TakeVictim();
        StillAbsent(old(entries), entries, i, cur);
        var got := device.Read(cur);
        if got.None? { return None; }
        ghost var es := entries;
        Install(i, cur, got.value);
      }
      Touch(i);
      EntryIsFlat(entries, flat, device.sectors, i);
      return Some(entries[i].data);
    }

    // A free entry takes the sector's contents from the device.
    method Install(i: nat, cur: nat, data: Sector)
      requires Valid() && i < ENTRIES && |entries| == ENTRIES && !entries[i].valid && !entries[i].dirty
               && !Cached(entries, cur)
      requires cur < |device.sectors| && data == device.sectors[cur]
      modifies this`entries, this`buckets, this`chains
      ensures Valid() && |entries| == ENTRIES && entries[i].valid && entries[i].lba == cur
    {
      hide Coherent, Safe, Index, DirtySet, Cached;
      ghost var es0 := entries;
      entries := entries[i := entries[i].(data := data)];
      IndexSame(es0, entries, buckets, chains);
      Link(i, cur);
      CleanStep(es0, entries, i, flat, device.sectors, device.stable, pending, unflushed);
      DirtySame(es0, entries);
    }

    /** block_read_cached: what it returns is the flat disk's contents; reading changes nothing. */
    method ReadCached(lba: nat, count: nat) returns (ok: bool, out: seq<Sector>)
      requires Valid()
      modifies this`entries, this`buckets, this`chains, this`ageCounter
      ensures Valid() && |out| <= count && (ok <==> |out| == count)
      ensures forall k :: 0 <= k < |out| ==> Nth(lba, k) in flat && out[k] == flat[Nth(lba, k)]
      ensures !ok ==> device.broken || Nth(lba, |out|) >= |device.sectors|
    {
      hide Nth, Index, Coherent, Safe, DirtySet;
      out := [];
      for i := 0 to count
        invariant Valid() && |out| == i
        invariant forall k :: 0 <= k < i ==> Nth(lba, k) in flat && out[k] == flat[Nth(lba, k)]
      {
        var r := ReadSector(Nth(lba, i));
        if r.None? { return false, out; }
        out := out + [r.value];
      }
      ok := true;
    }

    // ---------- writing back ----------

    // The inner loop of cache_collect_dirty: one step of an insertion sort.
    method InsertSlot(slots: array<nat>, n: nat, i: nat)
      requires Coherent(entries, flat, device.sectors) && n < slots.Length && i < |entries| && entries[i].dirty
      requires InOrder(entries, slots[..n]) && i !in slots[..n]
      modifies slots
      ensures InOrder(entries, slots[..n + 1])
      ensures forall j: nat :: j in slots[..n + 1] <==> j == i || j in old(slots[..n])
    {
      hide Coherent, InOrder, Inserted;
      InOrderFacts(entries, slots[..n]);
      ghost var was := slots[..n];
      var pos := ShiftUp(slots, n, i);
      if pos > 0 {
        ghost var left := was[pos - 1];
        assert left in was;
        OtherSector(entries, flat, device.sectors, left, i);
      }
      slots[pos] := i;
      InsertedIs(slots[..n + 1], was, pos, i);
      InsertedInOrder(entries, was, pos, i);
      InsertedMembers(was, pos, i);
    }

    // Larger sectors move one place up.
    method ShiftUp(slots: array<nat>, n: nat, i: nat) returns (pos: nat)
      requires n < slots.Length && i < |entries| && forall k :: 0 <= k < n ==> slots[k] < |entries|
      modifies slots
      ensures pos <= n && (forall k :: 0 <= k < pos ==> slots[k] == old(slots[k]))
      ensures forall k :: pos < k <= n ==> slots[k] == old(slots[..n])[k - 1]
      ensures pos > 0 ==> entries[old(slots[..n])[pos - 1]].lba <= entries[i].lba
      ensures pos < n ==> entries[i].lba < entries[old(slots[..n])[pos]].lba
    {
      ghost var was := slots[..n];
      pos := n;
      while pos > 0 && entries[slots[pos - 1]].lba > entries[i].lba
        invariant pos <= n && (forall k :: 0 <= k < pos ==> slots[k] == was[k])
        invariant forall k :: pos < k <= n ==> slots[k] == was[k - 1]
        invariant pos < n ==> entries[i].lba < entries[was[pos]].lba
      {
        slots[pos] := slots[pos - 1];
        pos := pos - 1;
      }
    }

    /** cache_collect_dirty: every dirty entry, ascending by sector number. */
    method CollectDirty() returns (order: seq<nat>)
      requires Valid()
      ensures InOrder(entries, order) && AllIn(entries, order)
    {
      hide Index, Safe, DirtySet, Coherent, InOrder, AllIn, Below;
      IndexSize(entries, buckets, chains);
      var slots := new nat[ENTRIES];
      var n: nat := 0;
      InOrderEmpty(entries, slots[..0]);
      AllInNone(entries[..0], slots[..0]);
      BelowNone(slots[..0]);
      for i := 0 to ENTRIES
        invariant n <= i && InOrder(entries, slots[..n])
        invariant AllIn(entries[..i], slots[..n]) && Below(slots[..n], i)
      {
        if entries[i].dirty { ValidDirty(entries, flat, device.sectors, i); } else {
          AllInSkip(entries, slots[..n], i); BelowMore(slots[..n], slots[..n], i);
        }
        if entries[i].valid && entries[i].dirty {
          ghost var was := slots[..n];
          BelowNot(was, i);
          InsertSlot(slots, n, i);
          AllInMore(entries, was, slots[..n + 1], i);
          BelowMore(was, slots[..n + 1], i);
          n := n + 1;
        }
      }
      assert entries[..ENTRIES] == entries;
      order := slots[..n];
    }

    // cache_mark_clean
    method MarkClean(i: nat)
      requires i < |entries| && dirtyCount == |DirtySet(entries)|
      modifies this`entries, this`dirtyCount
      ensures dirtyCount == |DirtySet(entries)| <= old(dirtyCount)
              && entries == old(entries)[i := old(entries)[i].(dirty := false)]
    {
      hide DirtySet;
      DirtyUpdate(entries, i, entries[i].(dirty := false));
      if entries[i].dirty {
        entries := entries[i := entries[i].(dirty := false)];
        dirtyCount := dirtyCount - 1;
      }
    }

    // The longest run of neighbouring sectors at the head of the write order, staged for the device.
    method GatherRun(rest: seq<nat>) returns (lba: nat, run: seq<Sector>)
      requires rest != [] && InOrder(entries, rest)
      ensures 0 < |run| <= |rest| && RunOf(entries, rest, lba, run)
      ensures forall s :: lba <= s < lba + |run| ==> DirtyAt(entries, s)
    {
      hide InOrder, DirtyAt;
      InOrderFacts(entries, rest);
      lba, run := entries[rest[0]].lba, [];
      while |run| < |rest| && |run| < WRITE_RUN_SECTORS && entries[rest[|run|]].lba == lba + |run|
        invariant |run| <= |rest| && (run == [] ==> lba == entries[rest[0]].lba) && RunOf(entries, rest, lba, run)
        decreases |rest| - |run|
      {
        run := run + [entries[rest[|run|]].data];
      }
      RunIsDirty(entries, rest, lba, run);
    }

    // The device holds the run: its entries become clean.
    method CleanRun(rest: seq<nat>, lba: nat, run: seq<Sector>)
      requires device.Valid() && Index(entries, buckets, chains) && InOrder(entries, rest) && |run| <= |rest|
      requires Coherent(entries, flat, device.sectors) && Safe(entries, flat, device.stable, pending, true)
      requires RunOf(entries, rest, lba, run) && Holds(device.sectors, lba, run) && dirtyCount == |DirtySet(entries)|
      modifies this`entries, this`dirtyCount
      ensures Index(entries, buckets, chains) && SameButDirty(old(entries), entries) && InOrder(entries, rest[|run|..])
      ensures Coherent(entries, flat, device.sectors) && Safe(entries, flat, device.stable, pending, true)
      ensures dirtyCount == |DirtySet(entries)| <= old(dirtyCount)
      ensures old(AllIn(entries, rest)) ==> AllIn(entries, rest[|run|..])
    {
      hide Index, Safe, DirtySet, Coherent, InOrder, AllIn;
      InOrderFacts(entries, rest);
      ghost var es := entries;
      for i := 0 to |run|
        invariant |entries| == |es| && SameButDirty(es, entries)
        invariant Coherent(entries, flat, device.sectors) && Safe(entries, flat, device.stable, pending, true)
        invariant dirtyCount == |DirtySet(entries)| <= old(dirtyCount)
        invariant forall j :: 0 <= j < |es| ==> (entries[j].dirty <==> es[j].dirty && j !in rest[..i])
      {
        ValidDirty(es, flat, device.sectors, rest[i]);
        CleanedStep(entries, rest[i], flat, device.sectors, device.stable, pending);
        MarkClean(rest[i]);
        assert rest[..i + 1] == rest[..i] + [rest[i]];
      }
      IndexSame(es, entries, buckets, chains);
      RestInOrder(es, entries, rest, |run|);
    }

    /**
     cache_write_back: hands the dirty sectors to the device in sorted runs.  Whether or not a
     write fails, no accepted contents are lost; on success nothing is dirty.
     */
    method WriteBack() returns (ok: bool)
      requires Valid()
      modifies this`entries, this`dirtyCount, this`unflushed, device
      ensures Valid() && |device.sectors| == old(|device.sectors|) && SameButDirty(old(entries), entries)
              && dirtyCount <= old(dirtyCount)
      ensures ok ==> dirtyCount == 0 && forall i :: 0 <= i < |entries| ==> !entries[i].dirty
      ensures !ok ==> device.broken || !Within(flat, |device.sectors|)
    {
      hide Index, Safe, DirtySet, Coherent, InOrder, AllIn, DirtyAt;
      IndexSize(entries, buckets, chains);
      var order := CollectDirty();
      var first: nat := 0;
      assert order[0..] == order;
      while first < |order|
        invariant Valid() && first <= |order| && InOrder(entries, order[first..]) && AllIn(entries, order[first..])
        invariant |device.sectors| == old(|device.sectors|) && SameButDirty(old(entries), entries)
                  && dirtyCount <= old(dirtyCount)
      {
        ghost var sectors, stable := device.sectors, device.stable;
        var lba, run := GatherRun(order[first..]);
        RunWithin(entries, flat, device.sectors, lba, |run|);
        var written := device.Write(lba, run);
        DeviceWriteStep(entries, flat, sectors, device.sectors, stable, device.stable, pending, unflushed, lba, |run|);
        if !written { return false; }
        SafeUnflushed(entries, flat, device.stable, pending, unflushed);
        ghost var es := entries;
        CleanRun(order[first..], lba, run);
        unflushed := true;
        assert order[first..][|run|..] == order[first + |run|..];
        first := first + |run|;
      }
      NoneLeft(entries, order[first..]);
      NoDirty(entries);
      ok := true;
    }

    /**
     block_cache_sync: success means that everything accepted so far is durable, whatever failed
     before.
     */
    method Sync() returns (ok: bool)
      requires Valid()
      modifies this`entries, this`dirtyCount, this`unflushed, this`pending, this`late, device
      ensures Valid() && |device.sectors| == old(|device.sectors|) && dirtyCount <= old(dirtyCount)
      ensures ok ==> (forall s <- flat :: s < |device.stable| && device.stable[s] == flat[s])
      ensures ok ==> pending == map[] && dirtyCount == 0 && !unflushed && !late && forall i ::
                     0 <= i < |entries| ==> !entries[i].dirty
      ensures !ok ==> pending == old(pending) && late == old(late)
      ensures !ok ==> device.broken || !Within(flat, |device.sectors|)
    {
      hide Index, Safe, DirtySet, Coherent;
      var written := WriteBack();
      if !written { return false; }
      if unflushed {
        ghost var stable := device.stable;
        var flushed := device.Flush();
        DeviceFlushStep(entries, flat, device.sectors, stable, device.stable, pending, unflushed);
        if !flushed { return false; }
      }
      AllDurable(entries, flat, device.sectors, device.stable, pending, unflushed);
      pending, late := map[], false;
      unflushed := false;
      ok := true;
    }

    /** block_cache_invalidate: on success the cache is empty and every accepted write durable. */
    method Invalidate() returns (ok: bool)
      requires Valid()
      modifies this, device
      ensures Valid() && flat == old(flat) && clock == old(clock) && |device.sectors| == old(|device.sectors|)
      ensures ok ==> (forall s <- flat :: s < |device.stable| && device.stable[s] == flat[s]) && pending == map[]
      ensures ok ==> forall i :: 0 <= i < |entries| ==> !entries[i].valid
      ensures !ok ==> pending == old(pending)
      ensures !ok ==> device.broken || !Within(flat, |device.sectors|)
    {
      hide Safe, DirtySet, Coherent, Index, OnTime;
      ok := Sync();
      if !ok { return; }
      ghost var es := entries;
      entries := EmptyTable();
      buckets := seq(BUCKETS, _ => NONE);
      chains := seq(BUCKETS, _ => []);
      ageCounter, dirtyCount, unflushed, dirtySince := 1, 0, false, 0;
      EmptyIndex(entries, buckets, chains);
      EmptyOnTime(clock, late);
      EmptiedStep(es, entries, flat, device.sectors, device.stable);
      NoDirty(entries);
    }

    /**
     block_cache_tick: while the device works, after every tick whatever could still be lost was
     accepted less than one flush interval ago.
     */
    method Tick(now: nat)
      requires Valid() && clock <= now
      modifies this`entries, this`dirtyCount, this`unflushed, this`dirtySince, this`pending, this`late, this`clock,
               device
      ensures Valid() && clock == now && |device.sectors| == old(|device.sectors|)
      ensures !late ==> forall s <- pending :: now - pending[s] < FLUSH_INTERVAL_MS
      ensures late ==> now - dirtySince < FLUSH_INTERVAL_MS
      ensures pending == old(pending)
              || (pending == map[] && forall s <- flat :: s < |device.stable| && device.stable[s] == flat[s])
      ensures !device.broken && Within(flat, |device.sectors|) && !old(late) ==> !late
      ensures var due := old(dirtyCount > 0 || unflushed) && now - old(dirtySince) >= FLUSH_INTERVAL_MS;
              if due then !device.broken && Within(flat, |device.sectors|) ==> pending == map[]
              else device.sectors == old(device.sectors) && device.stable == old(device.stable)
    {
      hide Index, Safe, DirtySet, Coherent;
      clock := now;
      if dirtyCount == 0 && !unflushed {
        NoDirty(entries);
        NothingPending(entries, flat, device.stable, pending);
        late := false;
        return;
      }
      if now - dirtySince < FLUSH_INTERVAL_MS { return; }
      var ok := Sync();
      if !ok {
        dirtySince := now;
        late := true;
      }
    }

    // ---------- writing ----------

    // A sector's new contents go into entry i, which is its own or a free one.
    method Store(i: nat, cur: nat, data: Sector, now: nat)
      requires Valid() && clock <= now && dirtyCount < DIRTY_LIMIT && i < ENTRIES && |entries| == ENTRIES
      requires if entries[i].valid then entries[i].lba == cur else !Cached(entries, cur) && !entries[i].dirty
      modifies this`entries, this`buckets, this`chains, this`dirtyCount, this`dirtySince, this`flat, this`pending,
               this`clock
      ensures Valid() && clock == now && flat == old(flat)[cur := data] && |entries| == ENTRIES && entries[i].valid
              && entries[i].lba == cur
      ensures pending == Noted(old(pending), cur, now)
    {
      hide *;
      Parts();
      ghost var es, flat0, pending0 := entries, flat, pending;
      OnTimeStore(es, flat, device.stable, pending, unflushed, dirtySince, clock, late, cur, now, entries[i].dirty);
      Occupy(i, cur, data);
      ghost var es1 := entries;
      MarkDirty(i, now);
      ghost var e := entries[i];
      StoreStep(es, es1, i, e, buckets, chains);
      flat := flat[cur := data];
      pending := Noted(pending, cur, now);
      clock := now;
      WriteStep(es, i, e, flat0, device.sectors, device.stable, pending0, pending, unflushed);
      Whole();
    }

    // The entry is on the sector's chain and holds the data.
    method Occupy(i: nat, cur: nat, data: Sector)
      requires Index(entries, buckets, chains) && i < ENTRIES && |entries| == ENTRIES
               && (entries[i].valid ==> entries[i].lba == cur)
      modifies this`entries, this`buckets, this`chains
      ensures Index(entries, buckets, chains) && |entries| == ENTRIES && entries == old(entries)[i := entries[i]]
      ensures entries[i].valid && entries[i].lba == cur && entries[i].data == data
              && entries[i].dirty == old(entries)[i].dirty
    {
      hide Index;
      if !entries[i].valid { Link(i, cur); }
      ghost var es := entries;
      entries := entries[i := entries[i].(data := data)];
      IndexSame(es, entries, buckets, chains);
    }

    lemma Parts()
      requires Valid()
      ensures device.Valid() && Index(entries, buckets, chains) && |entries| == ENTRIES
      ensures Coherent(entries, flat, device.sectors) && Safe(entries, flat, device.stable, pending, unflushed)
      ensures dirtyCount == |DirtySet(entries)| <= DIRTY_LIMIT && OnTime(pending, dirtySince, clock, late)
    {
      hide Safe, Coherent, DirtySet, OnTime;
    }

    lemma Whole()
      requires device.Valid() && Index(entries, buckets, chains)
      requires Coherent(entries, flat, device.sectors) && Safe(entries, flat, device.stable, pending, unflushed)
      requires dirtyCount == |DirtySet(entries)| <= DIRTY_LIMIT && OnTime(pending, dirtySince, clock, late)
      ensures Valid()
    {
      hide Index, Safe, Coherent, DirtySet, OnTime;
    }

    /**
     One sector of block_write_cached.  It fails only when the dirty limit was reached and writing
     back failed, and then nothing was accepted.
     */
    method WriteSector(cur: nat, data: Sector, now: nat) returns (ok: bool)
      requires Valid() && clock <= now
      modifies this, device
      ensures Valid() && clock <= now && late == old(late) && |device.sectors| == old(|device.sectors|)
      ensures ok ==> flat == old(flat)[cur := data]
                     && (pending == old(pending) || pending == Noted(old(pending), cur, now))
      ensures !ok ==> flat == old(flat) && pending == old(pending) && old(dirtyCount) >= DIRTY_LIMIT
      ensures !ok ==> device.broken || !Within(flat, |device.sectors|)
    {
      hide Within, Index, Safe, DirtySet, Coherent, Cached, OnTime, Noted, SameElse;
      if dirtyCount >= DIRTY_LIMIT {
        var written := WriteBack();
        if !written { return false; }
      }
      IndexSize(entries, buckets, chains);
      var i := Find(cur);
      if i == NONE {
        ghost var es := entries;
        i := TakeVictim();
        StillAbsent(es, entries, i, cur);
        Store(i, cur, data, now);
      } else if entries[i].data != data {
        Store(i, cur, data, now);
      } else {
        EntryIsFlat(entries, flat, device.sectors, i);
        assert flat == flat[cur := data];
      }
      IndexSize(entries, buckets, chains);
      Touch(i);
      ok := true;
    }

    /** block_write_cached: the sectors before a failure, and only those, are on the flat disk. */
    method WriteCached(lba: nat, data: seq<Sector>, now: nat) returns (ok: bool, done: nat)
      requires Valid() && clock <= now
      modifies this, device
      ensures Valid() && clock <= now && late == old(late) && |device.sectors| == old(|device.sectors|)
      ensures done <= |data| && (ok <==> done == |data|) && flat == Written(old(flat), lba, data[..done])
      ensures forall s <- pending :: (s in old(pending) && pending[s] == old(pending)[s]) || pending[s] == now
      ensures forall s <- old(pending) :: s in pending
      ensures !ok ==> device.broken || !Within(flat, |device.sectors|)
    {
      hide Within, Index, Safe, DirtySet, Coherent, OnTime, Nth, Written, Device.Valid;
      done := 0;
      WrittenNone(flat, lba, data[..0]);
      while done < |data|
        invariant Valid() && clock <= now && late == old(late) && |device.sectors| == old(|device.sectors|)
        invariant done <= |data| && flat == Written(old(flat), lba, data[..done])
        invariant forall s <- pending :: (s in old(pending) && pending[s] == old(pending)[s]) || pending[s] == now
        invariant forall s <- old(pending) :: s in pending
      {
        var accepted := WriteSector(Nth(lba, done), data[done], now);
        if !accepted { return false, done; }
        WrittenNext(old(flat), lba, data, done);
        done := done + 1;
      }
      assert data[..done] == data;
      ok := true;
    }

    // cache_mark_dirty
    method MarkDirty(i: nat, now: nat)
      requires i < |entries|
      modifies this`entries, this`dirtyCount, this`dirtySince
      ensures entries == old(entries)[i := old(entries)[i].(dirty := true)]
      ensures dirtyCount == old(dirtyCount) + (if old(entries)[i].dirty then 0 else 1)
      ensures dirtySince == if !old(entries)[i].dirty && old(dirtyCount) == 0
              && !unflushed then now else old(dirtySince)
    {
      if entries[i].dirty { return; }
      if dirtyCount == 0 && !unflushed { dirtySince := now; }
      entries := entries[i := entries[i].(dirty := true)];
      dirtyCount := dirtyCount + 1;
    }
  }

  // Sectors stored one after the other from lba.
  function Written(flat: Flat, lba: nat, data: seq<Sector>): Flat {
    if data == [] then flat
    else Written(flat, lba, data[..|data| - 1])[Nth(lba, |data| - 1) := data[|data| - 1]]
  }

  lemma WrittenNone(flat: Flat, lba: nat, data: seq<Sector>)
    requires data == []
    ensures Written(flat, lba, data) == flat
  {
  }

  lemma WrittenNext(flat: Flat, lba: nat, data: seq<Sector>, n: nat)
    requires n < |data|
    ensures Written(flat, lba, data[..n + 1]) == Written(flat, lba, data[..n])[Nth(lba, n) := data[n]]
  {
    assert data[..n + 1][..n] == data[..n];
  }

  lemma StoreStep(es: seq<Entry>, es1: seq<Entry>, i: nat, e: Entry, buckets: seq<nat>, chains: seq<seq<nat>>)
    requires Index(es1, buckets, chains) && i < |es| == |es1| && es1 == es[i := es1[i]] && es1[i].dirty == es[i].dirty
    requires e.lba == es1[i].lba && e.next == es1[i].next && e.valid == es1[i].valid && e.dirty
    ensures Index(es1[i := e], buckets, chains) && es1[i := e] == es[i := e]
    ensures |DirtySet(es[i := e])| == |DirtySet(es)| + (if es[i].dirty then 0 else 1)
  {
    hide Index, DirtySet;
    IndexSame(es1, es1[i := e], buckets, chains);
    DirtyUpdate(es, i, e);
  }

  // lba + i in 32 bits
  function Nth(lba: nat, i: nat): nat { (lba + i) % (U32 as nat) }

  ghost predicate OnTime(pending: map<nat, nat>, dirtySince: nat, clock: nat, late: bool) {
    dirtySince <= clock && forall s <- pending :: pending[s] <= clock && (!late ==> dirtySince <= pending[s])
  }

  // pending once a write to `cur` was accepted: the oldest time stays.
  ghost function Noted(pending: map<nat, nat>, cur: nat, now: nat): (r: map<nat, nat>)
    ensures r.Keys == pending.Keys + {cur}
  {
    if cur in pending then pending else pending[cur := now]
  }

  lemma OnTimeWrite(pending: map<nat, nat>, dirtySince: nat, clock: nat, late: bool, cur: nat, now: nat)
    requires OnTime(pending, dirtySince, clock, late) && clock <= now
    ensures OnTime(Noted(pending, cur, now), dirtySince, now, late)
    ensures pending == map[] ==> OnTime(Noted(pending, cur, now), now, now, late)
  {
  }

  lemma OnTimeStore(es: seq<Entry>, flat: Flat, stable: seq<Sector>, pending: map<nat, nat>, unflushed: bool,
                    dirtySince: nat, clock: nat, late: bool, cur: nat, now: nat, wasDirty: bool)
    requires OnTime(pending, dirtySince, clock, late) && clock <= now && Safe(es, flat, stable, pending, unflushed)
    ensures OnTime(Noted(pending, cur, now), if !wasDirty && |DirtySet(es)| == 0
                   && !unflushed then now else dirtySince, now, late)
  {
    hide DirtySet, Safe, OnTime, Noted;
    OnTimeWrite(pending, dirtySince, clock, late, cur, now);
    NoDirty(es);
    if |DirtySet(es)| == 0 && !unflushed { NothingPending(es, flat, stable, pending); }
  }

  lemma EmptyIndex(es: seq<Entry>, buckets: seq<nat>, chains: seq<seq<nat>>)
    requires es == EmptyTable() && |buckets| == |chains| == BUCKETS
    requires forall b :: 0 <= b < BUCKETS ==> buckets[b] == NONE && chains[b] == []
    ensures Index(es, buckets, chains)
  {
  }

  lemma EmptyOnTime(clock: nat, late: bool)
    ensures OnTime(map[], 0, clock, late)
  {
  }

  function EmptyTable(): (es: seq<Entry>)
    ensures |es| == ENTRIES && forall i :: 0 <= i < ENTRIES ==> !es[i].valid && !es[i].dirty && es[i].next == NONE
  {
    seq(ENTRIES, _ => Entry(0, 0, NONE, false, false, []))
  }

  function FlatOf(sectors: seq<Sector>): Flat {
    map s: nat | s < |sectors| :: sectors[s]
  }

  lemma IndexSize(es: seq<Entry>, buckets: seq<nat>, chains: seq<seq<nat>>)
    requires Index(es, buckets, chains)
    ensures |es| == ENTRIES && |buckets| == |chains| == BUCKETS
  {
  }

  // The position of a valid entry on its chain.
  lemma OnChain(es: seq<Entry>, buckets: seq<nat>, chains: seq<seq<nat>>, i: nat) returns (m: nat)
    requires Index(es, buckets, chains) && i < ENTRIES && es[i].valid
    ensures m < |chains[Bucket(es[i].lba)]| && chains[Bucket(es[i].lba)][m] == i
  {
    m :| m < |chains[Bucket(es[i].lba)]| && chains[Bucket(es[i].lba)][m] == i;
  }

  lemma ChainStep(es: seq<Entry>, start: nat, chain: seq<nat>, k: nat)
    requires Linked(es, start, chain) && k < |chain|
    ensures start == chain[0] && chain[k] < |es|
    ensures es[chain[k]].next == if k + 1 < |chain| then chain[k + 1] else NONE
  {
  }

  // What leaving a chain does to the entries.
  lemma BypassedRest(es: seq<Entry>, chain: seq<nat>, b: nat, k: nat)
    requires Members(es, chain, b) && k < |chain| && chain[k] < |es| && forall j :: 0 <= j < |chain| ==> chain[j] < |es|
    ensures var r := Bypassed(es, chain, k);
            && SameElse(es, r, chain[k]) && |r| == |es|
            && r[chain[k]] == es[chain[k]].(next := NONE, valid := false)
  {
  }

  lemma BypassedIs(es: seq<Entry>, chain: seq<nat>, b: nat, k: nat, prev: nat)
    requires Members(es, chain, b) && k < |chain| && (if k == 0 then true else prev == chain[k - 1])
    ensures chain[k] < |es|
    ensures k == 0 ==> Bypassed(es, chain, k) == es[chain[k] := es[chain[k]].(next := NONE, valid := false)]
    ensures k > 0 ==> prev < |es|
    ensures k > 0 ==>
              var past := es[prev := es[prev].(next := es[chain[k]].next)];
              Bypassed(es, chain, k) == past[chain[k] := es[chain[k]].(next := NONE, valid := false)]
  {
    if k > 0 { assert chain[k - 1] != chain[k]; }
  }

  lemma FreeIsClean(es: seq<Entry>, flat: Flat, sectors: seq<Sector>, i: nat)
    requires Coherent(es, flat, sectors) && i < |es| && !es[i].valid
    ensures !es[i].dirty
  {
  }

  lemma DirtySame(es: seq<Entry>, es': seq<Entry>)
    requires |es| == |es'| && forall i :: 0 <= i < |es| ==> es[i].dirty == es'[i].dirty
    ensures DirtySet(es) == DirtySet(es')
  {
  }

  lemma FreshOrSame(es: seq<Entry>, es': seq<Entry>, i: nat, flat: Flat, sectors: seq<Sector>, stable: seq<Sector>,
      pending: map<nat, nat>, unflushed: bool)
    requires Coherent(es, flat, sectors) && Safe(es, flat, stable, pending, unflushed) && i < |es| == |es'|
    requires es' == es[i := es'[i]] && es'[i] == es[i].(age := es'[i].age)
    ensures Coherent(es', flat, sectors) && Safe(es', flat, stable, pending, unflushed)
  {
    CleanStep(es, es', i, flat, sectors, stable, pending, unflushed);
  }

  lemma StillAbsent(es: seq<Entry>, es': seq<Entry>, i: nat, cur: nat)
    requires SameElse(es, es', i) && i < |es| && !es'[i].valid && !Cached(es, cur)
    ensures !Cached(es', cur)
  {
  }

  lemma EntryIsFlat(es: seq<Entry>, flat: Flat, sectors: seq<Sector>, i: nat)
    requires Coherent(es, flat, sectors) && i < |es| && es[i].valid
    ensures es[i].lba in flat && flat[es[i].lba] == es[i].data
  {
  }

  ghost predicate SameButDirty(es: seq<Entry>, es': seq<Entry>) {
    |es| == |es'| && forall i :: 0 <= i < |es| ==> es'[i].(dirty := es[i].dirty) == es[i]
  }

  lemma InOrderEmpty(es: seq<Entry>, order: seq<nat>)
    requires order == []
    ensures InOrder(es, order)
  {
  }

  ghost predicate Below(s: seq<nat>, i: nat) { forall j <- s :: j < i }

  lemma BelowNone(s: seq<nat>)
    requires s == []
    ensures Below(s, 0)
  {
  }

  lemma BelowNot(s: seq<nat>, i: nat)
    requires Below(s, i)
    ensures i !in s
  {
  }

  lemma BelowMore(was: seq<nat>, now: seq<nat>, i: nat)
    requires Below(was, i) && forall j <- now :: j == i || j in was
    ensures Below(now, i + 1)
  {
  }

  lemma AllInNone(es: seq<Entry>, order: seq<nat>)
    requires es == []
    ensures AllIn(es, order)
  {
  }

  lemma AllInSkip(es: seq<Entry>, order: seq<nat>, i: nat)
    requires i < |es| && AllIn(es[..i], order) && !es[i].dirty
    ensures AllIn(es[..i + 1], order)
  {
    var t, u := es[..i], es[..i + 1];
    forall j | 0 <= j < |u| && u[j].dirty ensures j in order { assert t[j].dirty; }
  }

  lemma AllInMore(es: seq<Entry>, was: seq<nat>, now: seq<nat>, i: nat)
    requires i < |es| && AllIn(es[..i], was) && i in now && forall j <- was :: j in now
    ensures AllIn(es[..i + 1], now)
  {
    forall j | 0 <= j < i + 1 && es[..i + 1][j].dirty ensures j in now {
      if j < i { assert es[..i][j].dirty; }
    }
  }

  lemma InsertedIs(now: seq<nat>, was: seq<nat>, pos: nat, i: nat)
    requires |now| == |was| + 1 && pos <= |was| && now[pos] == i && (forall k :: 0 <= k < pos ==> now[k] == was[k])
    requires forall k :: pos < k <= |was| ==> now[k] == was[k - 1]
    ensures now == Inserted(was, pos, i)
  {
  }

  lemma InOrderFacts(es: seq<Entry>, order: seq<nat>)
    requires InOrder(es, order)
    ensures forall k :: 0 <= k < |order| ==> order[k] < |es| && es[order[k]].dirty
  {
  }

  // Two cached sectors are never the same one.
  lemma OtherSector(es: seq<Entry>, flat: Flat, sectors: seq<Sector>, j: nat, i: nat)
    requires Coherent(es, flat, sectors) && i < |es| && j < |es| && es[i].dirty && es[j].dirty && i != j
    ensures es[j].lba != es[i].lba
  {
  }

  // run is the data of the first entries of rest, whose sectors follow each other from lba.
  ghost predicate RunOf(es: seq<Entry>, rest: seq<nat>, lba: nat, run: seq<Sector>) {
    |run| <= |rest| && forall k ::
        0 <= k < |run| ==> rest[k] < |es| && es[rest[k]].lba == lba + k && es[rest[k]].data == run[k]
  }

  // Every sector written so far is one the device has.
  ghost predicate Within(flat: Flat, n: nat) { forall s <- flat :: s < n }

  lemma RunWithin(es: seq<Entry>, flat: Flat, sectors: seq<Sector>, lba: nat, n: nat)
    requires Coherent(es, flat, sectors) && n > 0 && forall s :: lba <= s < lba + n ==> DirtyAt(es, s)
    ensures Within(flat, |sectors|) ==> lba + n <= |sectors|
  {
    assert DirtyAt(es, lba + n - 1);
  }

  ghost predicate Holds(sectors: seq<Sector>, lba: nat, run: seq<Sector>) {
    lba + |run| <= |sectors| && forall k :: 0 <= k < |run| ==> sectors[lba + k] == run[k]
  }

  ghost predicate AllIn(es: seq<Entry>, order: seq<nat>) {
    forall i :: 0 <= i < |es| && es[i].dirty ==> i in order
  }

  lemma NoneLeft(es: seq<Entry>, order: seq<nat>)
    requires AllIn(es, order) && order == []
    ensures forall i :: 0 <= i < |es| ==> !es[i].dirty
  {
  }

  lemma RunIsDirty(es: seq<Entry>, rest: seq<nat>, lba: nat, run: seq<Sector>)
    requires InOrder(es, rest) && RunOf(es, rest, lba, run)
    ensures forall s :: lba <= s < lba + |run| ==> DirtyAt(es, s)
  {
    forall s | lba <= s < lba + |run| ensures DirtyAt(es, s) {
      var k := s - lba;
      assert es[rest[k]].dirty;
    }
  }

  lemma SafeUnflushed(es: seq<Entry>, flat: Flat, stable: seq<Sector>, pending: map<nat, nat>, unflushed: bool)
    requires Safe(es, flat, stable, pending, unflushed)
    ensures Safe(es, flat, stable, pending, true)
  {
  }

  lemma ValidDirty(es: seq<Entry>, flat: Flat, sectors: seq<Sector>, i: nat)
    requires Coherent(es, flat, sectors) && i < |es| && es[i].dirty
    ensures es[i].valid
  {
  }

  lemma RestInOrder(es: seq<Entry>, es': seq<Entry>, rest: seq<nat>, n: nat)
    requires InOrder(es, rest) && SameButDirty(es, es') && n <= |rest|
    requires forall j :: 0 <= j < |es| ==> (es'[j].dirty <==> es[j].dirty && j !in rest[..n])
    ensures InOrder(es', rest[n..])
    ensures AllIn(es, rest) ==> AllIn(es', rest[n..])
  {
    var left := rest[n..];
    forall k | 0 <= k < |left| ensures left[k] < |es'| && es'[left[k]].dirty { NotBefore(es, rest, n, n + k); }
    if AllIn(es, rest) {
      forall i | 0 <= i < |es'| && es'[i].dirty ensures i in left { assert i in rest && rest == rest[..n] + left; }
    }
  }

  lemma NotBefore(es: seq<Entry>, rest: seq<nat>, n: nat, k: nat)
    requires InOrder(es, rest) && n <= k < |rest|
    ensures rest[k] !in rest[..n]
  {
    var front := rest[..n];
    assert forall j :: 0 <= j < |front| ==> front[j] != rest[k];
  }

  lemma NothingPending(es: seq<Entry>, flat: Flat, stable: seq<Sector>, pending: map<nat, nat>)
    requires Safe(es, flat, stable, pending, false) && forall i :: 0 <= i < |es| ==> !es[i].dirty
    ensures pending == map[]
  {
    assert pending.Keys == {};
  }

  // ---------- whole sessions ----------

  datatype Call = Reads(lba: nat, count: nat) | Writes(lba: nat, data: seq<Sector>,
                                                       now: nat) | Syncs | Invalidates | Ticks(now: nat)

  // The flat disk after the calls, given the number of sectors each write accepted.
  function Accepted(flat: Flat, calls: seq<Call>, done: seq<nat>): Flat
    requires |calls| == |done|
  {
    if calls == [] then flat
    else
      var last := |calls| - 1;
      var before := Accepted(flat, calls[..last], done[..last]);
      match calls[last]
      case Writes(lba, data, _) => Written(before, lba, if done[last] <= |data| then data[..done[last]] else data)
      case _ => before
  }

  lemma AcceptedNext(flat: Flat, calls: seq<Call>, i: nat, done: seq<nat>, n: nat)
    requires i < |calls| && |done| == i && (calls[i].Writes? ==> n <= |calls[i].data|)
    ensures Accepted(flat, calls[..i + 1], done + [n]) ==
            var before := Accepted(flat, calls[..i], done); if calls[i].Writes?
                                                            then Written(before, calls[i].lba, calls[i].data[..n])
                                                                else before
  {
    assert calls[..i + 1][..i] == calls[..i] && (done + [n])[..i] == done;
  }

  lemma AcceptedNone(flat: Flat, calls: seq<Call>)
    ensures Accepted(flat, calls[..0], []) == flat
  {
  }

  ghost predicate Durable(c: Cache)
    reads c, c.device
  {
    forall s <- c.flat :: s < |c.device.stable| && c.device.stable[s] == c.flat[s]
  }

  // Times given to the calls never go back.
  ghost predicate Forward(calls: seq<Call>, now: nat) {
    calls == []
        || (var t := if calls[0].Writes?
            || calls[0].Ticks? then calls[0].now else now; t >= now && Forward(calls[1..], t))
  }

  /**
   For any sequence of calls, whatever fails on the way, the cache is the flat disk that received
   the accepted writes, every read returns what that disk held at its moment, and if the last call
   is a successful sync, the disk is durable.  done has the sectors each read or write completed.
   */
  method Session(c: Cache, calls: seq<Call>) returns (done: seq<nat>, got: seq<seq<Sector>>)
    requires c.Valid() && Forward(calls, c.clock)
    modifies c, c.device
    ensures c.Valid() && |done| == |calls| && c.flat == Accepted(old(c.flat), calls, done)
    ensures |got| == |calls| && forall i :: 0 <= i < |calls| && calls[i].Reads? ==>
              done[i] == |got[i]| <= calls[i].count
                  && Shown(Accepted(old(c.flat), calls[..i], done[..i]), calls[i].lba, got[i])
    ensures calls != [] && (calls[|calls| - 1].Syncs? || calls[|calls| - 1].Invalidates?) && done[|calls| - 1] == 1 ==>
              Durable(c)
  {
    hide *;
    ghost var flat0, time := c.flat, c.clock;
    done, got := [], [];
    AcceptedNone(flat0, calls);
    assert calls[0..] == calls;
    for i := 0 to |calls|
      invariant c.Valid() && |done| == i && c.flat == Accepted(flat0, calls[..i], done)
      invariant c.clock <= time && Forward(calls[i..], time)
      invariant |got| == i && forall k :: 0 <= k < i && calls[k].Reads? ==>
                  done[k] == |got[k]| <= calls[k].count
                      && Shown(Accepted(flat0, calls[..k], done[..k]), calls[k].lba, got[k])
      invariant i > 0 && (calls[i - 1].Syncs? || calls[i - 1].Invalidates?) && done[i - 1] == 1 ==> Durable(c)
    {
      ForwardNext(calls, i, time);
      var n: nat, out: seq<Sector> := 0, [];
      match calls[i] {
        case Reads(lba, count) =>
          var ok;
          ok, out := c.ReadCached(lba, count);
          n := |out|;
          ShownFrom(c.flat, lba, out);
        case Writes(lba, data, now) =>
          var ok;
          ok, n := c.WriteCached(lba, data, now);
          time := now;
        case Syncs =>
          var ok := c.Sync();
          if ok { n := 1; DurableFrom(c); }
        case Invalidates =>
          var ok := c.Invalidate();
          if ok { n := 1; DurableFrom(c); }
        case Ticks(now) =>
          c.Tick(now);
          time := now;
      }
      AcceptedNext(flat0, calls, i, done, n);
      Earlier(done, n);
      done, got := done + [n], got + [out];
    }
    assert calls[..|calls|] == calls;
  }

  // What a read of consecutive sectors returned is what the disk holds.
  ghost predicate Shown(flat: Flat, lba: nat, out: seq<Sector>) {
    forall k :: 0 <= k < |out| ==> Nth(lba, k) in flat && out[k] == flat[Nth(lba, k)]
  }

  lemma ShownFrom(flat: Flat, lba: nat, out: seq<Sector>)
    requires forall k :: 0 <= k < |out| ==> Nth(lba, k) in flat && out[k] == flat[Nth(lba, k)]
    ensures Shown(flat, lba, out)
  {
  }

  lemma Earlier(done: seq<nat>, n: nat)
    ensures forall k :: 0 <= k <= |done| ==> (done + [n])[..k] == done[..k]
  {
  }

  lemma DurableFrom(c: Cache)
    requires forall s <- c.flat :: s < |c.device.stable| && c.device.stable[s] == c.flat[s]
    ensures Durable(c)
  {
  }

  lemma ForwardNext(calls: seq<Call>, i: nat, time: nat)
    requires i < |calls| && Forward(calls[i..], time)
    ensures var t := if calls[i].Writes?
            || calls[i].Ticks? then calls[i].now else time; t >= time && Forward(calls[i + 1..], t)
  {
    assert calls[i..][1..] == calls[i + 1..];
  }
}
