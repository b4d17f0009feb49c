/**
 The slot pool of kernel/fs/dcache.c: every slot is on the free list or on the bucket chain of its
 key, and the slots in use are threaded from the most to the least recently used.
 */
module DentryTable {
  const SLOTS: nat := 256
  const BUCKETS: nat := 128
  const FREE: nat := 128        // the free list is one more list beside the buckets
  const LISTS: nat := 129
  const NIL: nat := 0xFFFF
  const NOBODY: int := -1

  datatype Key = Key(fs: nat, parent: nat, name: seq<char>)

  // newer and older are lru_prev and lru_next.
  datatype Slot = Slot(key: Key, child: nat, negative: bool, used: bool, next: nat, newer: nat, older: nat)

  // hash_key: FNV-1a over the key, in 32 bits.
  function HashStep(h: bv32, x: bv32): bv32 { (h ^ x) * 16777619 }

  function HashName(h: bv32, name: seq<char>): bv32 {
    if name == [] then h else HashStep(HashName(h, name[..|name| - 1]), (name[|name| - 1] as int % 256) as bv32)
  }

  function Hash(key: Key): (b: nat)
    ensures b < BUCKETS
  {
    (HashName(HashStep(HashStep(2166136261, (key.fs % 0x1_0000_0000) as bv32), (key.parent % 0x1_0000_0000) as bv32),
              key.name) & 127) as nat
  }

  // The list a slot belongs to.
  function Home(s: Slot): (b: nat)
    ensures b < LISTS
  {
    if s.used then Hash(s.key) else FREE
  }

  function Nth(s: seq<nat>, k: int): nat { if 0 <= k < |s| then s[k] else NIL }

  lemma NthIs(s: seq<nat>, k: int)
    ensures Nth(s, k) == if 0 <= k < |s| then s[k] else NIL
  {
  }

  predicate Distinct(s: seq<nat>) { forall i, j :: 0 <= i < j < |s| ==> s[i] != s[j] }

  function Without<T>(s: seq<T>, k: nat): (r: seq<T>)
    requires k < |s|
    ensures |r| == |s| - 1 && forall j :: 0 <= j < |r| ==> r[j] == if j < k then s[j] else s[j + 1]
  {
    s[..k] + s[k + 1..]
  }

  lemma WithoutDistinct(s: seq<nat>, k: nat)
    requires Distinct(s) && k < |s|
    ensures Distinct(Without(s, k)) && s[k] !in Without(s, k) && forall x :: x in Without(s, k) <==> x in s && x != s[k]
  {
    var r := Without(s, k);
    forall x ensures x in r <==> x in s && x != s[k] {
      if x in r {
        var j :| 0 <= j < |r| && r[j] == x;
        assert s[if j < k then j else j + 1] == x;
      }
      if x in s && x != s[k] {
        var j :| 0 <= j < |s| && s[j] == x;
        assert r[if j < k then j else j - 1] == x;
      }
    }
  }

  // ---------- bucket chains and the free list ----------

  // Following hash_next from `start` visits exactly the list.
  ghost predicate Linked(slots: seq<Slot>, start: nat, list: seq<nat>) {
    && start == Nth(list, 0)
    && forall k :: 0 <= k < |list| ==> list[k] < |slots| && slots[list[k]].next == Nth(list, k + 1)
  }

  ghost predicate Members(slots: seq<Slot>, list: seq<nat>, b: nat, skip: int) {
    Distinct(list) && forall k :: 0 <= k < |list| ==> list[k] < |slots| && list[k] != skip && Home(slots[list[k]]) == b
  }

  // Every slot but `skip` is on exactly the list it belongs to.
  ghost predicate Lists(slots: seq<Slot>, heads: seq<nat>, lists: seq<seq<nat>>, skip: int) {
    && |slots| == SLOTS && |heads| == |lists| == LISTS
    && (forall b :: 0 <= b < LISTS ==> Linked(slots, heads[b], lists[b]) && Members(slots, lists[b], b, skip))
    && (forall i :: 0 <= i < SLOTS && i != skip ==> i in lists[Home(slots[i])])
  }

  lemma ListsSame(slots: seq<Slot>, slots': seq<Slot>, heads: seq<nat>, lists: seq<seq<nat>>, skip: int)
    requires Lists(slots, heads, lists, skip) && |slots'| == |slots|
    requires forall i :: 0 <= i < |slots| && i != skip ==>
                           slots'[i].key == slots[i].key && slots'[i].used == slots[i].used
                               && slots'[i].next == slots[i].next
    ensures Lists(slots', heads, lists, skip)
  {
    hide Hash, Nth;
    forall b | 0 <= b < LISTS ensures Linked(slots', heads[b], lists[b]) && Members(slots', lists[b], b, skip) {
      assert Linked(slots, heads[b], lists[b]) && Members(slots, lists[b], b, skip);
    }
  }

  lemma ListFacts(slots: seq<Slot>, heads: seq<nat>, lists: seq<seq<nat>>, skip: int, b: nat)
    requires Lists(slots, heads, lists, skip) && b < LISTS
    ensures |slots| == SLOTS && |heads| == |lists| == LISTS && Linked(slots, heads[b], lists[b])
            && Members(slots, lists[b], b, skip)
    ensures forall k :: 0 <= k < |lists[b]| ==> lists[b][k] < SLOTS
  {
  }

  lemma OnList(slots: seq<Slot>, heads: seq<nat>, lists: seq<seq<nat>>, i: nat) returns (k: nat)
    requires Lists(slots, heads, lists, NOBODY) && i < SLOTS
    ensures k < |lists[Home(slots[i])]| && lists[Home(slots[i])][k] == i
  {
    k :| k < |lists[Home(slots[i])]| && lists[Home(slots[i])][k] == i;
  }

  // Past the k-th member of a list.
  function Past(slots: seq<Slot>, list: seq<nat>, k: nat): seq<Slot>
    requires k < |list| && forall j :: 0 <= j < |list| ==> list[j] < |slots|
  {
    if k == 0 then slots else slots[list[k - 1] := slots[list[k - 1]].(next := slots[list[k]].next)]
  }

  lemma PastLinked(slots: seq<Slot>, start: nat, list: seq<nat>, b: nat, k: nat)
    requires Linked(slots, start, list) && Members(slots, list, b, NOBODY) && k < |list|
    ensures k == 0 ==> start < |slots|
    ensures Linked(Past(slots, list, k), if k == 0 then slots[start].next else start, Without(list, k))
    ensures Members(Past(slots, list, k), Without(list, k), b, list[k])
  {
    hide Hash, Nth;
    var s', c := Past(slots, list, k), Without(list, k);
    WithoutDistinct(list, k);
    NthIs(list, 0);
    NthIs(list, 1);
    NthIs(c, 0);
    forall j | 0 <= j < |c| ensures c[j] < |slots| && s'[c[j]].next == Nth(c, j + 1) {
      NthIs(c, j + 1);
      NthIs(list, j + 1);
      NthIs(list, j + 2);
      PastNext(slots, list, k, if j < k then j else j + 1);
    }
  }

  lemma PastNext(slots: seq<Slot>, list: seq<nat>, k: nat, m: nat)
    requires Distinct(list) && k < |list| && m < |list| && m != k && forall j :: 0 <= j < |list| ==> list[j] < |slots|
    ensures Past(slots, list, k)[list[m]].next == if m + 1 == k then slots[list[k]].next else slots[list[m]].next
    ensures Home(Past(slots, list, k)[list[m]]) == Home(slots[list[m]])
  {
    hide Hash;
    if k > 0 && m != k - 1 { assert list[m] != list[k - 1]; }
  }

  /** Taking one slot off its list keeps every list. */
  lemma DetachKeeps(slots: seq<Slot>, heads: seq<nat>, lists: seq<seq<nat>>, b: nat, k: nat)
    requires Lists(slots, heads, lists, NOBODY) && b < LISTS && k < |lists[b]|
    requires forall j :: 0 <= j < |lists[b]| ==> lists[b][j] < |slots|
    requires k == 0 ==> heads[b] < |slots|
    ensures Lists(Past(slots, lists[b], k),
                  if k == 0 then heads[b := slots[heads[b]].next]
                                 else heads, lists[b := Without(lists[b], k)], lists[b][k])
  {
    hide Hash, Linked, Members, Past;
    var i, list := lists[b][k], lists[b];
    var s', h', l' := Past(slots, list, k),
        if k == 0 then heads[b := slots[heads[b]].next] else heads, lists[b := Without(list, k)];
    ListFacts(slots, heads, lists, NOBODY, b);
    PastLinked(slots, heads[b], list, b, k);
    PastSize(slots, list, k, b);
    forall d | 0 <= d < LISTS ensures Linked(s', h'[d], l'[d]) && Members(s', l'[d], d, i) {
      if d != b { OtherList(slots, heads[d], list, lists[d], b, d, k); }
    }
    forall x | 0 <= x < SLOTS && x != i ensures x in l'[Home(s'[x])] {
      if Home(slots[x]) == b { MembersWithout(list, k, x); }
    }
  }

  lemma MembersWithout(list: seq<nat>, k: nat, x: nat)
    requires k < |list| && x in list && x != list[k]
    ensures x in Without(list, k)
  {
    var j :| 0 <= j < |list| && list[j] == x;
    assert Without(list, k)[if j < k then j else j - 1] == x;
  }

  lemma PastSize(slots: seq<Slot>, list: seq<nat>, k: nat, b: nat)
    requires k < |list| && forall j :: 0 <= j < |list| ==> list[j] < |slots|
    ensures |Past(slots, list, k)| == |slots|
    ensures forall x :: 0 <= x < |slots| ==> Past(slots, list, k)[x] == slots[x].(next := Past(slots, list, k)[x].next)
    ensures forall x :: 0 <= x < |slots| ==> Home(Past(slots, list, k)[x]) == Home(slots[x])
  {
    hide Hash;
  }

  lemma OtherList(slots: seq<Slot>, start: nat, list: seq<nat>, other: seq<nat>, b: nat, d: nat, k: nat)
    requires Members(slots, list, b, NOBODY) && k < |list| && b != d && Linked(slots, start, other)
             && Members(slots, other, d, NOBODY)
    ensures Linked(Past(slots, list, k), start, other) && Members(Past(slots, list, k), other, d, list[k])
  {
    hide Hash, Nth;
    var s' := Past(slots, list, k);
    assert forall j :: 0 <= j < |other| ==> other[j] != list[k] && (k > 0 ==> other[j] != list[k - 1]);
  }

  /** A slot that is on no list goes to the head of the list it belongs to. */
  lemma AttachKeeps(slots: seq<Slot>, heads: seq<nat>, lists: seq<seq<nat>>, i: nat, s: Slot)
    requires Lists(slots, heads, lists, i) && i < SLOTS && s.next == heads[Home(s)]
    ensures var b := Home(s); Lists(slots[i := s], heads[b := i], lists[b := [i] + lists[b]], NOBODY)
  {
    hide Hash, Linked, Members;
    var h := Home(s);
    var s', h', l' := slots[i := s], heads[h := i], lists[h := [i] + lists[h]];
    forall b | 0 <= b < LISTS ensures Linked(s', h'[b], l'[b]) && Members(s', l'[b], b, NOBODY) {
      ListFacts(slots, heads, lists, i, b);
      if b == h { HeadLinked(slots, heads[b], lists[b], i, s, b); } else {
        RestLinked(slots, heads[b], lists[b], i, s, b);
      }
    }
    forall x | 0 <= x < SLOTS ensures x in l'[Home(s'[x])] {
      if x == i { assert l'[h][0] == i; }
    }
  }

  lemma HeadLinked(slots: seq<Slot>, start: nat, list: seq<nat>, i: nat, s: Slot, b: nat)
    requires Linked(slots, start, list) && Members(slots, list, b, i) && i < |slots| && s.next == start && Home(s) == b
    ensures Linked(slots[i := s], i, [i] + list) && Members(slots[i := s], [i] + list, b, NOBODY)
  {
    hide Hash, Nth;
    var s', c := slots[i := s], [i] + list;
    NthIs(c, 0);
    forall k | 0 <= k < |c| ensures c[k] < |s'| && s'[c[k]].next == Nth(c, k + 1) {
      NthIs(c, k + 1);
      NthIs(list, k);
      if k > 0 { assert c[k] == list[k - 1]; }
    }
  }

  lemma RestLinked(slots: seq<Slot>, start: nat, list: seq<nat>, i: nat, s: Slot, b: nat)
    requires Linked(slots, start, list) && Members(slots, list, b, i) && i < |slots|
    ensures Linked(slots[i := s], start, list) && Members(slots[i := s], list, b, NOBODY)
  {
    hide Hash, Nth;
  }

  // ---------- the order of use ----------

  // lru is the slots in use from lru_head to lru_tail.
  ghost predicate Threaded(slots: seq<Slot>, head: nat, tail: nat, lru: seq<nat>) {
    && head == Nth(lru, 0) && tail == Nth(lru, |lru| - 1) && Distinct(lru) && |slots| < NIL
    && forall k :: 0 <= k < |lru| ==> lru[k] < |slots| && ThreadedAt(slots, lru, k)
  }

  ghost predicate ThreadedAt(slots: seq<Slot>, lru: seq<nat>, k: int)
    requires 0 <= k < |lru| && lru[k] < |slots|
  {
    slots[lru[k]].newer == Nth(lru, k - 1) && slots[lru[k]].older == Nth(lru, k + 1)
  }

  lemma ThreadSame(slots: seq<Slot>, slots': seq<Slot>, head: nat, tail: nat, lru: seq<nat>)
    requires Threaded(slots, head, tail, lru) && |slots'| == |slots|
    requires forall i <- lru :: i < |slots| ==> slots'[i].newer == slots[i].newer && slots'[i].older == slots[i].older
    ensures Threaded(slots', head, tail, lru)
  {
    hide Nth;
    forall k | 0 <= k < |lru| ensures lru[k] < |slots'| && ThreadedAt(slots', lru, k) {
      assert ThreadedAt(slots, lru, k) && lru[k] in lru;
    }
  }

  // lru_unlink
  function Unthreaded(slots: seq<Slot>, i: nat): seq<Slot>
    requires i < |slots|
  {
    var e := slots[i];
    var a := if e.newer < |slots| then slots[e.newer := slots[e.newer].(older := e.older)] else slots;
    if e.older < |slots| then a[e.older := a[e.older].(newer := e.newer)] else a
  }

  lemma UnthreadKeeps(slots: seq<Slot>, head: nat, tail: nat, lru: seq<nat>, k: nat)
    requires Threaded(slots, head, tail, lru) && k < |lru|
    ensures lru[k] < |slots|
    ensures var e := slots[lru[k]];
            Threaded(Unthreaded(slots, lru[k]),
                     if e.newer == NIL then e.older else head,
                                                         if e.older == NIL then e.newer else tail, Without(lru, k))
  {
    hide Nth;
    assert lru[k] < |slots| && ThreadedAt(slots, lru, k);
    var e, s', r := slots[lru[k]], Unthreaded(slots, lru[k]), Without(lru, k);
    WithoutDistinct(lru, k);
    Neighbours(slots, lru, k);
    ThreadEnds(lru, k);
    forall j | 0 <= j < |r| ensures r[j] < |s'| && ThreadedAt(s', r, j) { UnthreadAt(slots, lru, k, j); }
  }

  lemma Neighbours(slots: seq<Slot>, lru: seq<nat>, k: nat)
    requires k < |lru| && (forall j :: 0 <= j < |lru| ==> lru[j] < |slots|) && |slots| < NIL
             && ThreadedAt(slots, lru, k)
    ensures var e := slots[lru[k]];
            && (k > 0 ==> e.newer == lru[k - 1] && e.newer < |slots|) && (k == 0 ==> e.newer == NIL)
            && (k + 1 < |lru| ==> e.older == lru[k + 1] && e.older < |slots|) && (k + 1 == |lru| ==> e.older == NIL)
  {
  }

  lemma ThreadEnds(lru: seq<nat>, k: nat)
    requires k < |lru|
    ensures var r := Without(lru, k);
            && Nth(r, 0) == (if k == 0 then Nth(lru, 1) else Nth(lru, 0))
            && Nth(r, |r| - 1) == if k == |lru| - 1 then Nth(lru, k - 1) else Nth(lru, |lru| - 1)
  {
  }

  lemma UnthreadAt(slots: seq<Slot>, lru: seq<nat>, k: nat, j: nat)
    requires k < |lru| && Distinct(lru) && |slots| < NIL
             && (forall m :: 0 <= m < |lru| ==> lru[m] < |slots| && ThreadedAt(slots, lru, m)) && j < |lru| - 1
    ensures var r := Without(lru, k);
            r[j] < |slots| && |Unthreaded(slots, lru[k])| == |slots| && ThreadedAt(Unthreaded(slots, lru[k]), r, j)
  {
    hide Unthreaded, Distinct, ThreadedAt, Nth;
    var m := if j < k then j else j + 1;
    var r, s' := Without(lru, k), Unthreaded(slots, lru[k]);
    UnthreadedOne(slots, lru, k, m);
    ThreadIs(slots, lru, m);
    ThreadIs(slots, lru, k);
    ThreadFrom(s', r, j);
  }

  lemma ThreadIs(slots: seq<Slot>, lru: seq<nat>, m: nat)
    requires m < |lru| && lru[m] < |slots| && ThreadedAt(slots, lru, m)
    ensures slots[lru[m]].newer == (if m > 0 then lru[m - 1] else NIL)
            && slots[lru[m]].older == if m + 1 < |lru| then lru[m + 1] else NIL
  {
  }

  lemma ThreadFrom(slots: seq<Slot>, r: seq<nat>, j: nat)
    requires j < |r| && r[j] < |slots|
    requires slots[r[j]].newer == (if j > 0 then r[j - 1] else NIL)
             && slots[r[j]].older == if j + 1 < |r| then r[j + 1] else NIL
    ensures ThreadedAt(slots, r, j)
  {
  }

  // Unlinking the k-th slot changes its neighbours only.
  lemma UnthreadedOne(slots: seq<Slot>, lru: seq<nat>, k: nat, m: nat)
    requires k < |lru| && m < |lru| && m != k && Distinct(lru) && |slots| < NIL
             && (forall x :: 0 <= x < |lru| ==> lru[x] < |slots|) && ThreadedAt(slots, lru, k)
    ensures var s' := Unthreaded(slots, lru[k]);
            && |s'| == |slots|
            && s'[lru[m]].newer == (if m == k + 1 then slots[lru[k]].newer else slots[lru[m]].newer)
            && s'[lru[m]].older == (if m + 1 == k then slots[lru[k]].older else slots[lru[m]].older)
  {
    hide Nth;
    Neighbours(slots, lru, k);
    if m != k - 1 && k > 0 { assert lru[m] != lru[k - 1]; }
    if m != k + 1 && k + 1 < |lru| { assert lru[m] != lru[k + 1]; }
  }

  // lru_push_front
  function Pushed(slots: seq<Slot>, head: nat, i: nat): seq<Slot>
    requires i < |slots|
  {
    var a := slots[i := slots[i].(newer := NIL, older := head)];
    if head < |slots| then a[head := a[head].(newer := i)] else a
  }

  lemma PushKeeps(slots: seq<Slot>, head: nat, tail: nat, lru: seq<nat>, i: nat)
    requires Threaded(slots, head, tail, lru) && i < |slots| && i !in lru
    ensures Threaded(Pushed(slots, head, i), i, if head == NIL then i else tail, [i] + lru)
  {
    hide Nth;
    var s', r := Pushed(slots, head, i), [i] + lru;
    NthIs(lru, 0);
    NthIs(r, 0);
    NthIs(r, |r| - 1);
    NthIs(lru, |lru| - 1);
    forall k | 0 <= k < |r| ensures r[k] < |s'| && ThreadedAt(s', r, k) {
      NthIs(r, k - 1);
      NthIs(r, k + 1);
      if k > 0 {
        assert ThreadedAt(slots, lru, k - 1);
        assert lru[k - 1] in lru;
        NthIs(lru, k - 2);
        NthIs(lru, k);
        if k > 1 { assert lru[0] != lru[k - 1]; }
      }
    }
  }
}
