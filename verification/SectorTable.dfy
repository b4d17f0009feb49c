/**
 The table of kernel/drivers/block_cache.c: 256 entries, each valid one on the hash chain of its
 sector number.
 */
module SectorTable {
  type Sector = seq<bv8>

  const ENTRIES: nat := 256
  const BUCKETS: nat := 256
  const NONE: nat := 0xFFFF

  datatype Entry = Entry(lba: nat, age: nat, next: nat, valid: bool, dirty: bool, data: Sector)

  function Bucket(lba: nat): (b: nat)
    ensures b < BUCKETS
  {
    lba % BUCKETS
  }

  // ---------- hash chains ----------

  function NextOf(chain: seq<nat>, k: nat): nat {
    if k < |chain| then chain[k] else NONE
  }

  lemma NextIs(chain: seq<nat>, k: nat)
    ensures NextOf(chain, k) == if k < |chain| then chain[k] else NONE
  {
  }

  // Following `next` from `start` visits exactly the chain.
  ghost predicate Linked(es: seq<Entry>, start: nat, chain: seq<nat>) {
    && start == NextOf(chain, 0)
    && forall k :: 0 <= k < |chain| ==> chain[k] < |es| && es[chain[k]].next == NextOf(chain, k + 1)
  }

  ghost predicate Members(es: seq<Entry>, chain: seq<nat>, b: nat) {
    && (forall k :: 0 <= k < |chain| ==> chain[k] < |es| && es[chain[k]].valid && Bucket(es[chain[k]].lba) == b)
    && (forall j, k :: 0 <= j < k < |chain| ==> chain[j] != chain[k])
  }

  ghost predicate Index(es: seq<Entry>, buckets: seq<nat>, chains: seq<seq<nat>>) {
    && |es| == ENTRIES && |buckets| == |chains| == BUCKETS
    && (forall b :: 0 <= b < BUCKETS ==> Linked(es, buckets[b], chains[b]) && Members(es, chains[b], b))
    && (forall i :: 0 <= i < ENTRIES && es[i].valid ==> i in chains[Bucket(es[i].lba)])
  }

  // Chains look only at sector numbers, links and validity.
  lemma IndexSame(es: seq<Entry>, es': seq<Entry>, buckets: seq<nat>, chains: seq<seq<nat>>)
    requires Index(es, buckets, chains) && |es'| == |es|
    requires forall i :: 0 <= i < |es| ==>
                           es'[i].lba == es[i].lba && es'[i].next == es[i].next && es'[i].valid == es[i].valid
    ensures Index(es', buckets, chains)
  {
    forall b | 0 <= b < BUCKETS ensures Linked(es', buckets[b], chains[b]) && Members(es', chains[b], b) {
      assert Linked(es, buckets[b], chains[b]) && Members(es, chains[b], b);
    }
  }

  // A free entry is on no chain.
  lemma FreeOffChains(es: seq<Entry>, buckets: seq<nat>, chains: seq<seq<nat>>, i: nat, b: nat)
    requires Index(es, buckets, chains) && i < ENTRIES && b < BUCKETS && (!es[i].valid || Bucket(es[i].lba) != b)
    ensures i !in chains[b]
  {
    assert Members(es, chains[b], b);
  }

  lemma HeadLinked(es: seq<Entry>, start: nat, chain: seq<nat>, i: nat, e: Entry, b: nat)
    requires Linked(es, start, chain) && Members(es, chain, b) && i < |es| && i !in chain
    requires e.valid && e.next == start && Bucket(e.lba) == b
    ensures Linked(es[i := e], i, [i] + chain) && Members(es[i := e], [i] + chain, b)
  {
    hide Bucket, NextOf;
    var es', c := es[i := e], [i] + chain;
    NextIs(c, 0);
    forall k | 0 <= k < |c| ensures c[k] < |es'| && es'[c[k]].next == NextOf(c, k + 1) {
      NextIs(c, k + 1);
      NextIs(chain, k);
      if k > 0 { assert c[k] == chain[k - 1]; }
    }
  }

  lemma OthersLinked(es: seq<Entry>, start: nat, chain: seq<nat>, i: nat, e: Entry, b: nat)
    requires Linked(es, start, chain) && Members(es, chain, b) && i < |es| && i !in chain
    ensures Linked(es[i := e], start, chain) && Members(es[i := e], chain, b)
  {
    hide Bucket, NextOf;
  }

  /** cache_link: a free entry goes to the head of the chain of its sector number. */
  lemma LinkKeeps(es: seq<Entry>, buckets: seq<nat>, chains: seq<seq<nat>>, i: nat, e: Entry)
    requires Index(es, buckets, chains) && i < ENTRIES && !es[i].valid && e.valid && e.next == buckets[Bucket(e.lba)]
    ensures var b := Bucket(e.lba); Index(es[i := e], buckets[b := i], chains[b := [i] + chains[b]])
  {
    hide Bucket, Linked, Members;
    var h := Bucket(e.lba);
    var es', bs', cs' := es[i := e], buckets[h := i], chains[h := [i] + chains[h]];
    forall b | 0 <= b < BUCKETS ensures Linked(es', bs'[b], cs'[b]) && Members(es', cs'[b], b) {
      FreeOffChains(es, buckets, chains, i, b);
      if b == h { HeadLinked(es, buckets[b], chains[b], i, e, b); } else {
        OthersLinked(es, buckets[b], chains[b], i, e, b);
      }
    }
    forall j | 0 <= j < ENTRIES && es'[j].valid ensures j in cs'[Bucket(es'[j].lba)] {
      if j == i { assert cs'[h][0] == i; }
    }
  }

  // A chain without its k-th member.
  function Without(chain: seq<nat>, k: nat): (r: seq<nat>)
    requires k < |chain|
    ensures |r| == |chain| - 1 && forall j :: 0 <= j < |r| ==> r[j] == if j < k then chain[j] else chain[j + 1]
  {
    chain[..k] + chain[k + 1..]
  }

  // The table once the link that led to entry i leads past it.
  function Bypassed(es: seq<Entry>, chain: seq<nat>, k: nat): seq<Entry>
    requires k < |chain| && forall j :: 0 <= j < |chain| ==> chain[j] < |es|
  {
    var i := chain[k];
    var es1 := if k == 0 then es else es[chain[k - 1] := es[chain[k - 1]].(next := es[i].next)];
    es1[i := es1[i].(next := NONE, valid := false)]
  }

  lemma ChainInRange(es: seq<Entry>, buckets: seq<nat>, chains: seq<seq<nat>>, b: nat)
    requires Index(es, buckets, chains) && b < BUCKETS
    ensures Linked(es, buckets[b], chains[b]) && Members(es, chains[b], b)
    ensures forall j :: 0 <= j < |chains[b]| ==> chains[b][j] < |es|
  {
  }

  lemma BypassOne(es: seq<Entry>, start: nat, chain: seq<nat>, b: nat, k: nat)
    requires Linked(es, start, chain) && Members(es, chain, b) && k < |chain|
    ensures k == 0 ==> start < |es|
    ensures Linked(Bypassed(es, chain, k), if k == 0 then es[start].next else start, Without(chain, k))
    ensures Members(Bypassed(es, chain, k), Without(chain, k), b)
  {
    hide Bucket, NextOf;
    var es', c := Bypassed(es, chain, k), Without(chain, k);
    NextIs(chain, 0);
    NextIs(chain, 1);
    NextIs(c, 0);
    assert forall j :: 0 <= j < |c| ==> c[j] != chain[k];
    forall j | 0 <= j < |c| ensures c[j] < |es| && es'[c[j]].next == NextOf(c, j + 1) {
      NextIs(c, j + 1);
      NextIs(chain, j + 1);
      NextIs(chain, j + 2);
      BypassedNext(es, chain, b, k, if j < k then j else j + 1);
    }
  }

  lemma BypassedNext(es: seq<Entry>, chain: seq<nat>, b: nat, k: nat, m: nat)
    requires Members(es, chain, b) && k < |chain| && m < |chain| && m != k
    ensures Bypassed(es, chain, k)[chain[m]].next == if m + 1 == k then es[chain[k]].next else es[chain[m]].next
  {
    hide Bucket;
    assert chain[m] != chain[k];
    if k > 0 && m != k - 1 { assert chain[m] != chain[k - 1]; }
  }

  lemma BypassedElse(es: seq<Entry>, chain: seq<nat>, b: nat, k: nat, i: nat)
    requires Members(es, chain, b) && k < |chain| && i < |es|
    ensures var e := Bypassed(es, chain, k)[i];
            && e == es[i].(next := e.next, valid := e.valid) && (e.valid <==> es[i].valid && i != chain[k])
  {
  }

  /** cache_unlink: taking one entry off its chain keeps every chain. */
  lemma UnlinkKeeps(es: seq<Entry>, buckets: seq<nat>, chains: seq<seq<nat>>, b: nat, k: nat)
    requires Index(es, buckets, chains) && b < BUCKETS && k < |chains[b]|
    requires forall j :: 0 <= j < |chains[b]| ==> chains[b][j] < |es|
    requires k == 0 ==> buckets[b] < |es|
    ensures Index(Bypassed(es, chains[b], k),
                  if k == 0 then buckets[b := es[buckets[b]].next] else buckets, chains[b := Without(chains[b], k)])
  {
    hide Bucket, Linked, Members, Bypassed;
    var chain := chains[b];
    var es' := Bypassed(es, chain, k);
    var bs' := if k == 0 then buckets[b := es[buckets[b]].next] else buckets;
    var cs' := chains[b := Without(chain, k)];
    BypassOne(es, buckets[b], chain, b, k);
    BypassedSize(es, chain, k);
    forall d | 0 <= d < BUCKETS ensures Linked(es', bs'[d], cs'[d]) && Members(es', cs'[d], d) {
      if d != b { OtherChain(es, buckets[d], chain, chains[d], b, d, k); }
    }
    forall j | 0 <= j < ENTRIES && es'[j].valid ensures j in cs'[Bucket(es'[j].lba)] {
      BypassedElse(es, chain, b, k, j);
      if Bucket(es[j].lba) == b {
        var m :| 0 <= m < |chain| && chain[m] == j;
        assert Without(chain, k)[if m < k then m else m - 1] == j;
      }
    }
  }

  lemma BypassedSize(es: seq<Entry>, chain: seq<nat>, k: nat)
    requires k < |chain| && forall j :: 0 <= j < |chain| ==> chain[j] < |es|
    ensures |Bypassed(es, chain, k)| == |es|
  {
  }

  lemma OtherChain(es: seq<Entry>, start: nat, chain: seq<nat>, other: seq<nat>, b: nat, d: nat, k: nat)
    requires Members(es, chain, b) && k < |chain| && b != d && Linked(es, start, other) && Members(es, other, d)
    ensures Linked(Bypassed(es, chain, k), start, other) && Members(Bypassed(es, chain, k), other, d)
  {
    hide Bucket, NextOf;
    var es' := Bypassed(es, chain, k);
    assert forall j :: 0 <= j < |other| ==> other[j] != chain[k] && (k > 0 ==> other[j] != chain[k - 1]);
  }

  // ---------- dirty entries ----------

  function DirtySet(es: seq<Entry>): set<nat> {
    set i | 0 <= i < |es| && es[i].dirty
  }

  lemma DirtyUpdate(es: seq<Entry>, i: nat, e: Entry)
    requires i < |es|
    ensures DirtySet(es[i := e]) == if e.dirty then DirtySet(es) + {i} else DirtySet(es) - {i}
    ensures |DirtySet(es[i := e])| == |DirtySet(es)| + (if e.dirty then 1 else 0) - (if es[i].dirty then 1 else 0)
  {
    assert DirtySet(es[i := e]) == if e.dirty then DirtySet(es) + {i} else DirtySet(es) - {i};
    if e.dirty && es[i].dirty { assert DirtySet(es) + {i} == DirtySet(es); }
    if !e.dirty && !es[i].dirty { assert DirtySet(es) - {i} == DirtySet(es); }
  }

  lemma {:induction false} SizeAll(es: seq<Entry>)
    requires forall i :: 0 <= i < |es| ==> es[i].dirty
    ensures |DirtySet(es)| == |es|
  {
    if es != [] {
      var last := |es| - 1;
      SizeAll(es[..last]);
      assert DirtySet(es) == DirtySet(es[..last]) + {last};
    }
  }

  /** Fewer dirty entries than entries leaves a clean one. */
  lemma CleanExists(es: seq<Entry>)
    requires |DirtySet(es)| < |es|
    ensures exists i :: 0 <= i < |es| && !es[i].dirty
  {
    if forall i :: 0 <= i < |es| ==> es[i].dirty { SizeAll(es); }
  }

  lemma NoDirty(es: seq<Entry>)
    ensures |DirtySet(es)| == 0 <==> forall i :: 0 <= i < |es| ==> !es[i].dirty
  {
    if i :| 0 <= i < |es| && es[i].dirty { assert i in DirtySet(es); }
    if forall i :: 0 <= i < |es| ==> !es[i].dirty { assert DirtySet(es) == {}; }
  }
}
