/**
 What the sector cache of kernel/drivers/block_cache.c promises, as predicates on values, and
 the small steps that keep them.
 */
module CacheInvariant {
  import opened SectorTable

  // The flat disk: every sector number with its latest accepted contents.
  type Flat = map<nat, Sector>

  ghost predicate DirtyAt(es: seq<Entry>, s: nat) {
    exists i :: 0 <= i < |es| && es[i].dirty && es[i].lba == s
  }

  // Cached copies, else the device, give the flat disk.
  ghost predicate Coherent(es: seq<Entry>, flat: Flat, sectors: seq<Sector>) {
    && (forall i :: 0 <= i < |es| && es[i].valid ==> es[i].lba in flat && flat[es[i].lba] == es[i].data)
    && (forall i, j ::
        0 <= i < |es| && 0 <= j < |es| && es[i].valid && es[j].valid && es[i].lba == es[j].lba ==> i == j)
    && (forall i :: 0 <= i < |es| && es[i].dirty ==> es[i].valid)
    && (forall i :: 0 <= i < |es| && es[i].valid && !es[i].dirty ==> es[i].lba < |sectors|)
    && (forall s :: 0 <= s < |sectors| ==> s in flat && (sectors[s] == flat[s] || DirtyAt(es, s)))
    && (forall s <- flat :: s < |sectors| || DirtyAt(es, s))
  }

  // pending holds the sectors whose latest contents may not survive a power loss.
  ghost predicate Safe(es: seq<Entry>, flat: Flat, stable: seq<Sector>, pending: map<nat, nat>, unflushed: bool) {
    && (forall s :: 0 <= s < |stable| && s !in pending ==> s in flat && stable[s] == flat[s])
    && (forall i :: 0 <= i < |es| && es[i].dirty ==> es[i].lba in pending)
    && (!unflushed ==> forall s <- pending :: DirtyAt(es, s))
  }

  ghost predicate Cached(es: seq<Entry>, lba: nat) {
    exists i :: 0 <= i < |es| && es[i].valid && es[i].lba == lba
  }

  // Tables that agree on everything but the links and the entry i.
  ghost predicate SameElse(es: seq<Entry>, es': seq<Entry>, i: nat) {
    && |es| == |es'|
    && forall j :: 0 <= j < |es| && j != i ==> es'[j].(next := es[j].next) == es[j]
  }

  // ---------- steps on one entry ----------

  lemma DirtyAtSame(es: seq<Entry>, es': seq<Entry>, s: nat)
    requires |es| == |es'| && forall j :: 0 <= j < |es| ==>
                                            (es[j].dirty <==> es'[j].dirty) && (es[j].dirty ==> es[j].lba == es'[j].lba)
    ensures DirtyAt(es, s) <==> DirtyAt(es', s)
  {
    if DirtyAt(es, s) {
      var i :| 0 <= i < |es| && es[i].dirty && es[i].lba == s;
      assert es'[i].dirty;
    }
    if DirtyAt(es', s) {
      var i :| 0 <= i < |es| && es'[i].dirty && es'[i].lba == s;
      assert es[i].dirty;
    }
  }

  // A clean entry is dropped or refilled, or only ages.
  lemma CleanStep(es: seq<Entry>, es': seq<Entry>, i: nat, flat: Flat, sectors: seq<Sector>, stable: seq<Sector>,
      pending: map<nat, nat>, unflushed: bool)
    requires Coherent(es, flat, sectors) && Safe(es, flat, stable, pending, unflushed) && SameElse(es, es', i)
             && i < |es|
    requires es'[i].dirty == es[i].dirty
    requires !es'[i].valid || (es'[i].lba == es[i].lba && es'[i].data == es[i].data && es[i].valid)
             || (es'[i].lba < |sectors| && es'[i].data == sectors[es'[i].lba] && !Cached(es, es'[i].lba))
    requires es[i].dirty ==> es'[i].valid && es'[i].lba == es[i].lba
    ensures Coherent(es', flat, sectors) && Safe(es', flat, stable, pending, unflushed)
  {
    hide DirtyAt;
    forall s: nat ensures DirtyAt(es, s) <==> DirtyAt(es', s) { DirtyAtSame(es, es', s); }
    if es'[i].valid && !(es'[i].lba == es[i].lba && es[i].valid) { DirtyIsCached(es, es'[i].lba); }
  }

  lemma DirtyIsCached(es: seq<Entry>, s: nat)
    requires DirtyAt(es, s) ==> forall i :: 0 <= i < |es| && es[i].dirty ==> es[i].valid
    ensures DirtyAt(es, s) ==> Cached(es, s)
  {
  }

  // New contents for a sector, in its own entry or a free one; the entry becomes dirty.
  lemma WriteStep(es: seq<Entry>, i: nat, e: Entry, flat: Flat, sectors: seq<Sector>, stable: seq<Sector>,
                  pending: map<nat, nat>, pending': map<nat, nat>, unflushed: bool)
    requires Coherent(es, flat, sectors) && Safe(es, flat, stable, pending, unflushed) && i < |es|
    requires e.valid && e.dirty
    requires if es[i].valid then es[i].lba == e.lba else !Cached(es, e.lba)
    requires pending'.Keys == pending.Keys + {e.lba}
    ensures Coherent(es[i := e], flat[e.lba := e.data], sectors)
            && Safe(es[i := e], flat[e.lba := e.data], stable, pending', unflushed)
  {
    hide DirtyAt;
    var es' := es[i := e];
    forall s: nat ensures DirtyAt(es', s) <==> DirtyAt(es, s) || s == e.lba { DirtyAtMore(es, i, e, s); }
  }

  lemma DirtyAtMore(es: seq<Entry>, i: nat, e: Entry, s: nat)
    requires i < |es| && e.dirty && (es[i].dirty ==> es[i].lba == e.lba)
    ensures DirtyAt(es[i := e], s) <==> DirtyAt(es, s) || s == e.lba
  {
    var es' := es[i := e];
    assert es'[i].dirty && es'[i].lba == e.lba;
    if DirtyAt(es, s) {
      var j :| 0 <= j < |es| && es[j].dirty && es[j].lba == s;
      assert es'[j].dirty && es'[j].lba == s;
    }
    if DirtyAt(es', s) {
      var j :| 0 <= j < |es'| && es'[j].dirty && es'[j].lba == s;
      if j != i { assert es[j].dirty && es[j].lba == s; }
    }
  }

  // The device has the entry's contents: it may be marked clean.
  lemma CleanedStep(es: seq<Entry>, i: nat, flat: Flat, sectors: seq<Sector>, stable: seq<Sector>, pending: map<nat,
      nat>)
    requires Coherent(es, flat, sectors) && Safe(es, flat, stable, pending, true) && i < |es|
    requires es[i].valid && es[i].lba < |sectors| && sectors[es[i].lba] == es[i].data
    ensures Coherent(es[i := es[i].(dirty := false)], flat, sectors)
            && Safe(es[i := es[i].(dirty := false)], flat, stable, pending, true)
  {
    hide DirtyAt;
    var es' := es[i := es[i].(dirty := false)];
    forall s: nat ensures DirtyAt(es, s) ==> DirtyAt(es', s) || s == es[i].lba { DirtyAtLess(es, i, s); }
  }

  lemma DirtyAtLess(es: seq<Entry>, i: nat, s: nat)
    requires i < |es|
    ensures DirtyAt(es, s) ==> DirtyAt(es[i := es[i].(dirty := false)], s) || s == es[i].lba
  {
    var es' := es[i := es[i].(dirty := false)];
    if DirtyAt(es, s) {
      var j :| 0 <= j < |es| && es[j].dirty && es[j].lba == s;
      if j != i { assert es'[j].dirty && es'[j].lba == s; }
    }
  }

  // ---------- steps of the device ----------

  // A write, whole, torn or failed, touches only sectors whose contents are safe in dirty entries.
  lemma DeviceWriteStep(es: seq<Entry>, flat: Flat, sectors: seq<Sector>, sectors': seq<Sector>, stable: seq<Sector>,
      stable': seq<Sector>,
                        pending: map<nat, nat>, unflushed: bool, lba: nat, n: nat)
    requires Coherent(es, flat, sectors) && Safe(es, flat, stable, pending, unflushed)
    requires |sectors| == |sectors'| == |stable| == |stable'|
    requires forall s :: lba <= s < lba + n ==> DirtyAt(es, s)
    requires forall s :: 0 <= s < |sectors| && !(lba <= s < lba + n) ==>
                           sectors'[s] == sectors[s] && (stable'[s] == stable[s] || stable'[s] == sectors[s])
    ensures Coherent(es, flat, sectors') && Safe(es, flat, stable', pending, unflushed)
  {
    hide DirtyAt;
    forall s | 0 <= s < |stable'| && s !in pending ensures s in flat && stable'[s] == flat[s] {
      NotPending(es, pending, s);
      assert stable[s] == flat[s] && sectors[s] == flat[s];
    }
  }

  lemma NotPending(es: seq<Entry>, pending: map<nat, nat>, s: nat)
    requires s !in pending && forall i :: 0 <= i < |es| && es[i].dirty ==> es[i].lba in pending
    ensures !DirtyAt(es, s)
  {
  }

  // A flush that fails may still have made some sectors durable.
  lemma DeviceFlushStep(es: seq<Entry>, flat: Flat, sectors: seq<Sector>, stable: seq<Sector>, stable': seq<Sector>,
      pending: map<nat, nat>, unflushed: bool)
    requires Coherent(es, flat, sectors) && Safe(es, flat, stable, pending, unflushed)
    requires |sectors| == |stable| == |stable'|
    requires forall s :: 0 <= s < |sectors| ==> stable'[s] == stable[s] || stable'[s] == sectors[s]
    ensures Safe(es, flat, stable', pending, unflushed)
  {
    hide DirtyAt;
    forall s | 0 <= s < |stable'| && s !in pending ensures s in flat && stable'[s] == flat[s] {
      NotPending(es, pending, s);
      assert stable[s] == flat[s] && sectors[s] == flat[s];
    }
  }

  /** With nothing dirty and the device flushed, the durable layer is the flat disk. */
  lemma AllDurable(es: seq<Entry>, flat: Flat, sectors: seq<Sector>, stable: seq<Sector>, pending: map<nat, nat>,
      unflushed: bool)
    requires Coherent(es, flat, sectors) && Safe(es, flat, stable, pending, unflushed) && |sectors| == |stable|
    requires forall i :: 0 <= i < |es| ==> !es[i].dirty
    requires !unflushed || stable == sectors
    ensures forall s <- flat :: s < |stable| && stable[s] == flat[s]
    ensures Safe(es, flat, stable, map[], false)
    ensures !unflushed ==> pending == map[]
  {
    forall s: nat ensures !DirtyAt(es, s) {}
    assert !unflushed ==> pending.Keys == {};
  }

  // An empty table over the same device.
  lemma EmptiedStep(es: seq<Entry>, es': seq<Entry>, flat: Flat, sectors: seq<Sector>, stable: seq<Sector>)
    requires Coherent(es, flat, sectors) && Safe(es, flat, stable, map[], false)
    requires forall i :: 0 <= i < |es| ==> !es[i].dirty
    requires forall i :: 0 <= i < |es'| ==> !es'[i].valid && !es'[i].dirty
    ensures Coherent(es', flat, sectors) && Safe(es', flat, stable, map[], false)
  {
    forall s: nat ensures !DirtyAt(es, s) && !DirtyAt(es', s) {}
  }

  // ---------- write order ----------

  // Dirty entries in ascending sector order.
  ghost predicate InOrder(es: seq<Entry>, order: seq<nat>) {
    && (forall k :: 0 <= k < |order| ==> order[k] < |es| && es[order[k]].dirty)
    && (forall j, k :: 0 <= j < k < |order| ==> es[order[j]].lba < es[order[k]].lba)
  }

  function Inserted(order: seq<nat>, pos: nat, i: nat): (r: seq<nat>)
    requires pos <= |order|
    ensures |r| == |order| + 1
    ensures forall k :: 0 <= k < |r| ==> r[k] == if k < pos then order[k] else if k == pos then i else order[k - 1]
  {
    order[..pos] + [i] + order[pos..]
  }

  lemma InsertedInOrder(es: seq<Entry>, order: seq<nat>, pos: nat, i: nat)
    requires InOrder(es, order) && pos <= |order| && i < |es| && es[i].dirty
    requires pos > 0 ==> es[order[pos - 1]].lba < es[i].lba
    requires pos < |order| ==> es[i].lba < es[order[pos]].lba
    ensures InOrder(es, Inserted(order, pos, i))
  {
    var r := Inserted(order, pos, i);
    forall j, k | 0 <= j < k < |r| ensures es[r[j]].lba < es[r[k]].lba {
      if j == pos && k > pos + 1 { assert es[order[pos]].lba < es[order[k - 1]].lba; }
      if k == pos && j < pos - 1 { assert es[order[j]].lba < es[order[pos - 1]].lba; }
    }
  }

  lemma InsertedMembers(order: seq<nat>, pos: nat, i: nat)
    requires pos <= |order|
    ensures forall j: nat :: j in Inserted(order, pos, i) <==> j == i || j in order
  {
    assert order == order[..pos] + order[pos..];
  }

  // ---------- ages ----------

  const U32: int := 0x1_0000_0000

  // The signed 32-bit difference of the ages is negative.
  predicate Older(a: nat, b: nat) { (a as int - b as int) % U32 >= 0x8000_0000 }

  // How long ago an age was handed out.
  function Elapsed(counter: nat, age: nat): nat { (counter as int - age as int) % U32 }

  /** The wrapping comparison orders ages correctly while they span less than half of the counter's range. */
  lemma OlderIsEarlier(counter: nat, a: nat, b: nat)
    requires Elapsed(counter, a) < 0x8000_0000 && Elapsed(counter, b) < 0x8000_0000
    ensures Older(a, b) <==> Elapsed(counter, a) > Elapsed(counter, b)
  {
    var x, y := Elapsed(counter, a), Elapsed(counter, b);
    var m, n := (counter as int - a as int) / U32, (counter as int - b as int) / U32;
    assert a as int - b as int == (y - x) + (n - m) * U32;
    assert (a as int - b as int) % U32 == (y - x) % U32;
  }
}
