/**
 The dentry cache of kernel/fs/dcache.c as a list of at most 256 answers, the most recently used
 first.
 */
module DentryCache {
  import opened Wrappers
  import opened DentryTable

  const NAME_MAX: nat := 47
  const OTHERS: nat := 255      // answers that stay beside a new one

  // A key with its answer; None is a negative one.
  datatype Item = Item(key: Key, child: Option<nat>)

  function ItemOf(s: Slot): Item { Item(s.key, if s.negative then None else Some(s.child)) }

  // ---------- the cache as a list ----------

  ghost function Items(slots: seq<Slot>, lru: seq<nat>): (r: seq<Item>)
    requires forall k :: 0 <= k < |lru| ==> lru[k] < |slots|
    ensures |r| == |lru| && forall k :: 0 <= k < |r| ==> r[k] == ItemOf(slots[lru[k]])
  {
    seq(|lru|, k requires 0 <= k < |lru| => ItemOf(slots[lru[k]]))
  }

  predicate UniqueKeys(items: seq<Item>) { forall i, j :: 0 <= i < j < |items| ==> items[i].key != items[j].key }

  // The list without the answer for a key.
  function Dropped(items: seq<Item>, key: Key): seq<Item> {
    if items == [] then [] else if items[0].key == key then items[1..] else [items[0]] + Dropped(items[1..], key)
  }

  // A name the slots have room for.
  predicate Fits(x: Item) { 0 < |x.key.name| <= NAME_MAX }

  predicate Short(items: seq<Item>) { forall x <- items :: Fits(x) }

  predicate Holds(items: seq<Item>, key: Key) { exists k :: 0 <= k < |items| && items[k].key == key }

  // At most n answers, the oldest ones go.
  function Capped(items: seq<Item>, n: nat): seq<Item> { if |items| <= n then items else items[..n] }

  lemma {:induction false} DroppedAt(items: seq<Item>, k: nat)
    requires UniqueKeys(items) && k < |items|
    ensures Dropped(items, items[k].key) == Without(items, k)
  {
    if k > 0 {
      assert items[1..][k - 1] == items[k];
      DroppedAt(items[1..], k - 1);
      assert [items[0]] + Without(items[1..], k - 1) == Without(items, k);
    }
  }

  lemma {:induction false} DroppedNone(items: seq<Item>, key: Key)
    requires !Holds(items, key)
    ensures Dropped(items, key) == items
  {
    if items != [] {
      assert items[0].key != key;
      assert forall k :: 0 <= k < |items[1..]| ==> items[1..][k] == items[k + 1];
      DroppedNone(items[1..], key);
    }
  }

  // ---------- the invariant ----------

  // The slots in use are the threaded ones, and no key has two.
  ghost predicate Coupled(slots: seq<Slot>, lru: seq<nat>, skip: int) {
    && (forall k :: 0 <= k < |lru| ==> lru[k] < |slots|)
    && (forall i :: 0 <= i < |slots| && i != skip ==> (slots[i].used <==> i in lru))
    && (forall i, j ::
        0 <= i < |slots| && 0 <= j < |slots| && slots[i].used && slots[j].used && slots[i].key == slots[j].key ==>
              i == j)
  }

  lemma UniqueItems(slots: seq<Slot>, lru: seq<nat>)
    requires Coupled(slots, lru, NOBODY) && Distinct(lru)
    ensures UniqueKeys(Items(slots, lru))
  {
    forall i, j | 0 <= i < j < |lru| ensures slots[lru[i]].key != slots[lru[j]].key {
      assert lru[i] in lru && lru[j] in lru;
    }
  }

  // ---------- small steps ----------

  lemma ItemsWithout(slots: seq<Slot>, slots': seq<Slot>, lru: seq<nat>, k: nat)
    requires k < |lru| && |slots'| == |slots| && (forall j :: 0 <= j < |lru| ==> lru[j] < |slots|) && Distinct(lru)
    requires forall i <- lru :: i != lru[k] && i < |slots| ==> ItemOf(slots'[i]) == ItemOf(slots[i])
    ensures forall j :: 0 <= j < |Without(lru, k)| ==> Without(lru, k)[j] < |slots'|
    ensures Items(slots', Without(lru, k)) == Without(Items(slots, lru), k)
  {
    var r := Without(lru, k);
    forall j | 0 <= j < |r| ensures r[j] < |slots'| && ItemOf(slots'[r[j]]) == Without(Items(slots, lru), k)[j] {
      var m := if j < k then j else j + 1;
      assert r[j] == lru[m] && lru[m] in lru && lru[m] != lru[k];
    }
  }

  lemma ItemsPush(slots: seq<Slot>, slots': seq<Slot>, lru: seq<nat>, i: nat)
    requires i < |slots| == |slots'| && i !in lru && (forall j :: 0 <= j < |lru| ==> lru[j] < |slots|)
    requires forall x <- lru :: x < |slots| ==> ItemOf(slots'[x]) == ItemOf(slots[x])
    ensures forall j :: 0 <= j < |[i] + lru| ==> ([i] + lru)[j] < |slots'|
    ensures Items(slots', [i] + lru) == [ItemOf(slots'[i])] + Items(slots, lru)
  {
    var r := [i] + lru;
    forall j | 0 <= j < |r|
        ensures r[j] < |slots'| && ItemOf(slots'[r[j]]) == ([ItemOf(slots'[i])] + Items(slots, lru))[j] {
      if j > 0 { assert lru[j - 1] in lru; }
    }
  }

  // ---------- sizes ----------

  function Elements(s: seq<nat>): set<nat> { set x: nat | x in s }

  lemma {:induction false} DistinctSize(s: seq<nat>)
    requires Distinct(s)
    ensures |Elements(s)| == |s|
  {
    if s != [] {
      var last := |s| - 1;
      DistinctSize(s[..last]);
      assert s[last] !in s[..last];
      assert Elements(s) == Elements(s[..last]) + {s[last]};
    } else {
      assert Elements(s) == {};
    }
  }

  lemma {:induction false} BelowSize(n: nat, all: set<nat>)
    requires all == set x: nat | x in all && x < n
    ensures |all| <= n && ((forall x: nat :: x < n ==> x in all) ==> |all| == n)
            && (|all| == n ==> forall x: nat :: x < n ==> x in all)
  {
    if n > 0 {
      var rest := all - {n - 1};
      BelowSize(n - 1, rest);
      if n - 1 in all { assert all == rest + {n - 1}; } else { assert all == rest; }
    }
  }

  // With no free slot all 256 answers are in use, and only then.
  lemma FullWhen(slots: seq<Slot>, heads: seq<nat>, lists: seq<seq<nat>>, lru: seq<nat>)
    requires Lists(slots, heads, lists, NOBODY) && Coupled(slots, lru, NOBODY) && Distinct(lru)
    ensures FREE < |lists| && |lru| <= SLOTS && (lists[FREE] == [] <==> |lru| == SLOTS)
    ensures heads[FREE] == NIL <==> lists[FREE] == []
  {
    hide Hash;
    ListFacts(slots, heads, lists, NOBODY, FREE);
    NthIs(lists[FREE], 0);
    if lists[FREE] != [] {
      NotHashed(slots[lists[FREE][0]]);
      SomeFree(slots, lru, lists[FREE][0]);
    } else {
      forall x: nat | x < SLOTS ensures slots[x].used {
        assert x in lists[Home(slots[x])];
        NotHashed(slots[x]);
      }
      AllUsed(slots, lru);
    }
  }

  lemma SomeFree(slots: seq<Slot>, lru: seq<nat>, x: nat)
    requires Coupled(slots, lru, NOBODY) && Distinct(lru) && |slots| == SLOTS && x < SLOTS && !slots[x].used
    ensures |lru| < SLOTS
  {
    var all := UsedSet(lru);
    BelowSize(SLOTS, all);
    assert x !in lru;
  }

  lemma AllUsed(slots: seq<Slot>, lru: seq<nat>)
    requires Coupled(slots, lru, NOBODY) && Distinct(lru) && |slots| == SLOTS && forall x: nat ::
             x < SLOTS ==> slots[x].used
    ensures |lru| == SLOTS
  {
    var all := UsedSet(lru);
    BelowSize(SLOTS, all);
  }

  lemma UsedSet(lru: seq<nat>) returns (all: set<nat>)
    requires Distinct(lru) && forall k :: 0 <= k < |lru| ==> lru[k] < SLOTS
    ensures |all| == |lru| && all == (set x: nat | x in all && x < SLOTS) && forall x: nat :: x in all <==> x in lru
  {
    all := Elements(lru);
    DistinctSize(lru);
    assert forall x <- all :: x < SLOTS;
  }

  lemma NotHashed(s: Slot)
    ensures Home(s) == FREE <==> !s.used
  {
    hide Hash;
  }

  // ---------- filtering ----------

  function Minus(items: seq<Item>, gone: set<Key>): seq<Item> {
    if items == [] then [] else (if items[0].key in gone then [] else [items[0]]) + Minus(items[1..], gone)
  }

  predicate About(x: Item, fs: nat, ino: nat) { x.key.fs == fs && (x.key.parent == ino || x.child == Some(ino)) }

  // The answers about an inode removed, as a directory or as a child.
  function Purged(items: seq<Item>, fs: nat, ino: nat): seq<Item> {
    if items == [] then [] else (if About(items[0], fs, ino) then [] else [items[0]]) + Purged(items[1..], fs, ino)
  }

  lemma {:induction false} MinusNone(items: seq<Item>)
    ensures Minus(items, {}) == items
  {
    if items != [] { MinusNone(items[1..]); }
  }

  lemma {:induction false} MinusHolds(items: seq<Item>, gone: set<Key>, x: Item)
    ensures x in Minus(items, gone) <==> x in items && x.key !in gone
  {
    if items != [] {
      MinusHolds(items[1..], gone, x);
      assert items == [items[0]] + items[1..];
    }
  }

  lemma MinusHead(items: seq<Item>, gone: set<Key>)
    requires items != []
    ensures Minus(items, gone) ==
            if items[0].key in gone then Minus(items[1..], gone) else [items[0]] + Minus(items[1..], gone)
  {
  }

  lemma DroppedHead(x: Item, rest: seq<Item>, key: Key)
    ensures Dropped([x] + rest, key) == if x.key == key then rest else [x] + Dropped(rest, key)
  {
    assert ([x] + rest)[1..] == rest;
  }

  lemma {:induction false} DroppedMinus(items: seq<Item>, gone: set<Key>, key: Key)
    requires UniqueKeys(items)
    ensures Dropped(Minus(items, gone), key) == Minus(items, gone + {key})
  {
    if items != [] {
      var x, rest := items[0], items[1..];
      DroppedMinus(rest, gone, key);
      if x.key == key { KeyElsewhere(rest, gone, key); }
      hide Minus, Dropped;
      MinusHead(items, gone);
      MinusHead(items, gone + {key});
      DroppedHead(x, Minus(rest, gone), key);
    }
  }

  // A key that does not occur makes no difference.
  lemma {:induction false} KeyElsewhere(items: seq<Item>, gone: set<Key>, key: Key)
    requires forall k :: 0 <= k < |items| ==> items[k].key != key
    ensures Minus(items, gone + {key}) == Minus(items, gone)
  {
    if items != [] { KeyElsewhere(items[1..], gone, key); }
  }

  lemma {:induction false} PurgedIs(items: seq<Item>, gone: set<Key>, fs: nat, ino: nat)
    requires forall x <- items :: x.key in gone <==> About(x, fs, ino)
    ensures Purged(items, fs, ino) == Minus(items, gone)
  {
    if items != [] {
      assert items[0] in items;
      assert forall x <- items[1..] :: x in items;
      PurgedIs(items[1..], gone, fs, ino);
    }
  }

  // A key that is not on its chain is nowhere.
  lemma NotCached(slots: seq<Slot>, heads: seq<nat>, lists: seq<seq<nat>>, key: Key)
    requires Lists(slots, heads, lists, NOBODY) && Hash(key) < |lists|
    requires forall j :: 0 <= j < |lists[Hash(key)]| ==>
                           lists[Hash(key)][j] < |slots| && slots[lists[Hash(key)][j]].key != key
    ensures forall i :: 0 <= i < |slots| && slots[i].used ==> slots[i].key != key
  {
    hide Hash, Linked;
    forall i | 0 <= i < |slots| && slots[i].used ensures slots[i].key != key { assert i in lists[Hash(slots[i].key)]; }
  }

  // ---------- the cache ----------

  class Dcache {
    var slots: seq<Slot>
    var buckets: seq<nat>
    var freeHead: nat
    var lruHead: nat
    var lruTail: nat
    var live: nat
    ghost var lists: seq<seq<nat>>
    ghost var lru: seq<nat>

    /** ensure_initialised: nothing is cached and every slot is free. */
    constructor ()
      ensures Valid() && View() == []
    {
      slots := seq(SLOTS,
                   (i: nat) => Slot(Key(0, 0, []), 0, false, false, if i + 1 < SLOTS then i + 1 else NIL, NIL, NIL));
      buckets := seq(BUCKETS, _ => NIL);
      freeHead, lruHead, lruTail, live := 0, NIL, NIL, 0;
      lists := seq(LISTS, b => if b == FREE then Upto(SLOTS) else []);
      lru := [];
      new;
      FreshLists(slots, buckets + [freeHead], lists);
    }

    ghost predicate Shape(skip: int)
      reads this
    {
      |buckets| == BUCKETS && Lists(slots, buckets + [freeHead], lists, skip)
          && Threaded(slots, lruHead, lruTail, lru) && Coupled(slots, lru, skip)
    }

    // The lists and counters of the pool.
    ghost predicate Sound()
      reads this
    {
      Shape(NOBODY) && live == |lru|
    }

    ghost predicate Valid()
      reads this
    {
      Sound() && Short(View())
    }

    ghost function View(): seq<Item>
      reads this
      requires forall k :: 0 <= k < |lru| ==> lru[k] < |slots|
    {
      Items(slots, lru)
    }

    lemma Facts(skip: int)
      requires Shape(skip)
      ensures |buckets| == BUCKETS && |slots| == SLOTS && Distinct(lru)
              && (forall k :: 0 <= k < |lru| ==> lru[k] < |slots|)
    {
      hide Hash;
    }

    /** find: the slot of a key, or NIL exactly when the key is not cached. */
    method Find(key: Key) returns (r: nat)
      requires Shape(NOBODY)
      ensures r != NIL ==> r < SLOTS && |slots| == SLOTS && slots[r].used && slots[r].key == key
      ensures r == NIL ==> forall i :: 0 <= i < |slots| && slots[i].used ==> slots[i].key != key
    {
      hide Hash, Nth, Threaded, Coupled;
      ghost var heads := buckets + [freeHead];
      var b := Hash(key);
      ghost var list := lists[b];
      ListFacts(slots, heads, lists, NOBODY, b);
      r := buckets[b];
      ghost var k := 0;
      NthIs(list, 0);
      while r != NIL
        invariant k <= |list| && r == Nth(list, k) && (r == NIL || (k < |list| && r == list[k]))
                  && (r == NIL ==> k == |list|)
        invariant forall j :: 0 <= j < k ==> slots[list[j]].key != key
        decreases |list| - k
      {
        if slots[r].key == key {
          NotHashed(slots[r]);
          return;
        }
        r := slots[r].next;
        k := k + 1;
        NthIs(list, k);
      }
      NotCached(slots, heads, lists, key);
    }

    /** bucket_unlink: the slot leaves its chain. */
    method BucketUnlink(i: nat)
      requires |buckets| == BUCKETS && Lists(slots, buckets + [freeHead], lists, NOBODY) && i < SLOTS
               && |slots| == SLOTS && slots[i].used
      modifies this`slots, this`buckets, this`lists
      ensures |buckets| == BUCKETS && Lists(slots, buckets + [freeHead], lists, i) && SameButNext(old(slots), slots)
    {
      hide Hash, Nth, Lists, Linked, Members, Past;
      ghost var heads := buckets + [freeHead];
      var b := Hash(slots[i].key);
      HomeIs(slots[i]);
      ghost var m := OnList(slots, heads, lists, i);
      ListFacts(slots, heads, lists, NOBODY, b);
      ghost var list, k := lists[b], 0;
      var prev: nat, cur := NIL, buckets[b];
      ListStep(slots, cur, list, 0);
      while cur != i
        invariant k <= m && cur == list[k] && slots == old(slots) && buckets == old(buckets) && lists == old(lists)
        invariant (k == 0 ==> prev == NIL) && (k > 0 ==> prev == list[k - 1] && prev < SLOTS)
        decreases m - k
      {
        ListStep(slots, buckets[b], list, k);
        prev, cur := cur, slots[cur].next;
        k := k + 1;
      }
      DetachKeeps(slots, heads, lists, b, k);
      PastSize(slots, list, k, b);
      PastIs(slots, list, k);
      SameButNextFrom(slots, Past(slots, list, k));
      if prev == NIL {
        HeadsBucket(buckets, freeHead, b, slots[i].next);
        buckets := buckets[b := slots[i].next];
      } else {
        slots := slots[prev := slots[prev].(next := slots[i].next)];
      }
      lists := lists[b := Without(list, k)];
    }

    /** lru_unlink */
    method LruUnlink(i: nat, ghost k: nat)
      requires Threaded(slots, lruHead, lruTail, lru) && k < |lru| && lru[k] == i && i < |slots|
      modifies this`slots, this`lruHead, this`lruTail, this`lru
      ensures Threaded(slots, lruHead, lruTail, lru) && lru == Without(old(lru), k) && SameButUse(old(slots), slots)
    {
      hide Nth;
      ghost var was := slots;
      assert ThreadedAt(slots, lru, k);
      Neighbours(slots, lru, k);
      UnthreadKeeps(slots, lruHead, lruTail, lru, k);
      hide Threaded, ThreadedAt;
      var e := slots[i];
      if e.newer != NIL {
        slots := slots[e.newer := slots[e.newer].(older := e.older)];
      } else {
        lruHead := e.older;
      }
      if e.older != NIL {
        slots := slots[e.older := slots[e.older].(newer := e.newer)];
      } else {
        lruTail := e.newer;
      }
      lru := Without(lru, k);
      assert slots == Unthreaded(was, i);
    }

    /** lru_push_front */
    method LruPushFront(i: nat)
      requires Threaded(slots, lruHead, lruTail, lru) && i < |slots| && i !in lru
      modifies this`slots, this`lruHead, this`lruTail, this`lru
      ensures Threaded(slots, lruHead, lruTail, lru) && lru == [i] + old(lru) && SameButUse(old(slots), slots)
    {
      hide Threaded, ThreadedAt, Nth, Distinct;
      ghost var was := slots;
      HeadIn(slots, lruHead, lruTail, lru);
      PushKeeps(slots, lruHead, lruTail, lru, i);
      slots := slots[i := slots[i].(newer := NIL, older := lruHead)];
      if lruHead != NIL {
        slots := slots[lruHead := slots[lruHead].(newer := i)];
      } else {
        lruTail := i;
      }
      assert slots == Pushed(was, lruHead, i);
      lruHead := i;
      lru := [i] + lru;
    }

    // What dcache_lookup and insert do with a slot that was found.
    method Refresh(i: nat)
      requires Sound() && i < SLOTS && |slots| == SLOTS && slots[i].used
      modifies this`slots, this`lruHead, this`lruTail, this`lru
      ensures Sound() && |slots| == SLOTS && SameButUse(old(slots), slots)
      ensures View() == [ItemOf(slots[i])] + Dropped(old(View()), slots[i].key)
    {
      hide *;
      Open();
      Facts(NOBODY);
      ghost var was, lru0 := slots, lru;
      ghost var k := InUse(slots, lru, i);
      WithoutDistinct(lru, k);
      ViewIs();
      LruUnlink(i, k);
      ghost var mid := slots;
      UseSize(was, mid);
      LruPushFront(i);
      SameChain(was, mid, slots);
      UseSize(was, slots);
      UseKeepsLists(was, slots, buckets + [freeHead], lists, NOBODY);
      CoupledMoved(was, slots, lru0, k, i);
      RefreshedItems(was, slots, lru0, k, i);
      ViewIs();
      Close();
    }

    /** entry_release: the answer is forgotten and its slot goes to the free list. */
    method Release(i: nat)
      requires Sound() && i < SLOTS && |slots| == SLOTS && slots[i].used
      modifies this
      ensures Sound() && |slots| == SLOTS && |lru| < |old(lru)| && View() == Dropped(old(View()), old(slots)[i].key)
      ensures !slots[i].used && forall x :: 0 <= x < SLOTS && x != i ==> SameAnswer(old(slots)[x], slots[x])
    {
      hide *;
      Open();
      Facts(NOBODY);
      ViewIs();
      ghost var was, lru0 := slots, lru;
      ghost var k := InUse(slots, lru, i);
      BucketUnlink(i);
      ghost var s1 := slots;
      NextSize(was, s1);
      NextKeepsThread(was, s1, lruHead, lruTail, lru);
      LruUnlink(i, k);
      ghost var s2 := slots;
      UseSize(s1, s2);
      UseKeepsLists(s1, s2, buckets + [freeHead], lists, i);
      var s := slots[i].(used := false, next := freeHead);
      AttachFree(slots, buckets, freeHead, lists, i, s);
      slots := slots[i := s];
      freeHead := i;
      lists := lists[FREE := [i] + lists[FREE]];
      ReleasedThread(s2, slots, lruHead, lruTail, lru0, k, i, s);
      ReleasedAnswers(was, s1, s2, slots, i, s);
      ReleasedCouple(was, slots, lru0, k, i);
      UniqueItems(was, lru0);
      DroppedAt(Items(was, lru0), k);
      AnswersItems(was, slots, lru0, k);
      ItemsWithout(was, slots, lru0, k);
      live := live - 1;
      WithoutSize(lru0, k);
      ItemAt(was, lru0, k);
      ViewIs();
      Close();
    }

    /** entry_acquire: a free slot; with none left the least recently used answer goes. */
    method Acquire() returns (idx: nat)
      requires Sound()
      modifies this
      ensures idx < SLOTS && |slots| == SLOTS && !slots[idx].used && |buckets| == BUCKETS && live == |lru|
              && Distinct(lru)
      ensures Lists(slots, buckets + [freeHead], lists, idx) && Threaded(slots, lruHead, lruTail, lru)
              && Coupled(slots, lru, NOBODY)
      ensures View() == Capped(old(View()), OTHERS)
      ensures forall x :: 0 <= x < SLOTS && slots[x].used ==>
                            |old(slots)| == SLOTS && SameAnswer(old(slots)[x], slots[x])
    {
      hide *;
      Open();
      Facts(NOBODY);
      NameMax();
      FullWhen(slots, buckets + [freeHead], lists, lru);
      HeadsFree(buckets, freeHead);
      ViewIs();
      SelfAnswers(slots);
      CappedIs(View(), OTHERS);
      ItemsSize(slots, lru);
      if freeHead == NIL {
        ghost var lru0, was := lru, slots;
        TailIs(slots, lruHead, lruTail, lru);
        LastDropped(slots, lru);
        Release(lruTail);
        Open();
        Facts(NOBODY);
        FullWhen(slots, buckets + [freeHead], lists, lru);
        HeadsFree(buckets, freeHead);
        ViewIs();
      }
      idx := freeHead;
      FreeHead(slots, buckets, freeHead, lists);
      freeHead := slots[idx].next;
      lists := lists[FREE := Without(lists[FREE], 0)];
      ViewIs();
    }

    /** dcache_insert and dcache_insert_negative: the answer comes first; of the others at most 255 stay. */
    method Insert(key: Key, child: Option<nat>)
      requires Valid()
      modifies this
      ensures Valid()
      ensures |key.name| == 0 || |key.name| > NAME_MAX ==> View() == old(View())
      ensures 0 < |key.name| <= NAME_MAX ==> View() == [Item(key, child)] + Capped(Dropped(old(View()), key), OTHERS)
    {
      hide *;
      Unseal();
      Open();
      Facts(NOBODY);
      NameMax();
      if |key.name| == 0 || |key.name| > NAME_MAX { return; }
      FitsIs(key, child);
      ShortInsert(View(), Item(key, child), OTHERS);
      var idx := Find(key);
      var c := if child.Some? then child.value else 0;
      ViewIs();
      FullWhen(slots, buckets + [freeHead], lists, lru);
      ItemsSize(slots, lru);
      if idx != NIL {
        ghost var k := InUse(slots, lru, idx);
        Answered(slots, lru, k, idx, c, child.None?);
        ListsSame(slots, slots[idx := slots[idx].(child := c, negative := child.None?)], buckets + [freeHead], lists,
                  NOBODY);
        ThreadSame(slots, slots[idx := slots[idx].(child := c, negative := child.None?)], lruHead, lruTail, lru);
        slots := slots[idx := slots[idx].(child := c, negative := child.None?)];
        ViewIs();
        Close();
        ghost var mid := slots;
        Refresh(idx);
        ItemSame(mid, slots, idx);
        CappedIs(Dropped(old(View()), key), OTHERS);
        ItemIs(mid[idx], key, child, c);
      } else {
        ghost var view0, was := View(), slots;
        NothingToDrop(slots, lru, key);
        idx := Acquire();
        NewKey(was, slots, key);
        FillIn(idx, key, child);
      }
      Open();
      Facts(NOBODY);
      Seal();
    }

    // A slot from Acquire gets the answer.
    method FillIn(idx: nat, key: Key, child: Option<nat>)
      requires idx < SLOTS && |slots| == SLOTS && !slots[idx].used && |buckets| == BUCKETS && live == |lru|
               && Distinct(lru)
      requires Lists(slots, buckets + [freeHead], lists, idx) && Threaded(slots, lruHead, lruTail, lru)
               && Coupled(slots, lru, NOBODY)
      requires forall x :: 0 <= x < |slots| && slots[x].used ==> slots[x].key != key
      modifies this
      ensures Sound() && View() == [Item(key, child)] + old(View())
    {
      hide *;
      var b := Hash(key);
      var c := if child.Some? then child.value else 0;
      ghost var was, lru0 := slots, lru;
      InRange(slots, lru);
      ViewIs();
      var s := slots[idx].(key := key, child := c, negative := child.None?, used := true, next := buckets[b]);
      HomeIs(s);
      HeadsBucket(buckets, freeHead, b, idx);
      AttachKeeps(slots, buckets + [freeHead], lists, idx, s);
      ListFacts(slots, buckets + [freeHead], lists, idx, b);
      NotThreaded(slots, lru, idx);
      FilledThread(slots, lruHead, lruTail, lru, idx, s);
      slots := slots[idx := s];
      buckets := buckets[b := idx];
      lists := lists[b := [idx] + lists[b]];
      ghost var mid := slots;
      LruPushFront(idx);
      UseKeepsLists(mid, slots, buckets + [freeHead], lists, NOBODY);
      UseSize(mid, slots);
      live := live + 1;
      FilledCouple(was, mid, slots, lru0, idx, s);
      FilledItems(was, mid, slots, lru0, idx, s);
      ItemSame(mid, slots, idx);
      ItemIs(s, key, child, c);
      ViewIs();
      Close();
    }

    /** dcache_lookup: a hit becomes the most recently used answer; a miss changes nothing. */
    method Lookup(key: Key) returns (r: Option<Item>)
      requires Valid()
      modifies this`slots, this`lruHead, this`lruTail, this`lru
      ensures Valid()
      ensures r.None? ==> View() == old(View()) && !Holds(View(), key)
      ensures r.Some? ==> r.value.key == key && r.value in old(View())
                          && View() == [r.value] + Dropped(old(View()), key)
    {
      hide *;
      Unseal();
      Open();
      Facts(NOBODY);
      NameMax();
      var idx := NIL;
      ViewIs();
      if |key.name| != 0 && |key.name| <= NAME_MAX {
        idx := Find(key);
      }
      if idx == NIL {
        if 0 < |key.name| <= NAME_MAX { NothingToDrop(slots, lru, key); } else { ShortHolds(View(), key); }
        return None;
      }
      ghost var k := InUse(slots, lru, idx);
      ItemHeld(slots, lru, k);
      ghost var was := slots;
      Refresh(idx);
      ItemSame(was, slots, idx);
      ItemKey(slots[idx]);
      ShortRefresh(old(View()), ItemOf(slots[idx]));
      Open();
      Facts(NOBODY);
      Seal();
      return Some(ItemOf(slots[idx]));
    }

    /** dcache_invalidate_entry */
    method InvalidateEntry(key: Key)
      requires Valid()
      modifies this
      ensures Valid() && View() == Dropped(old(View()), key)
    {
      hide *;
      Unseal();
      Open();
      Facts(NOBODY);
      NameMax();
      ViewIs();
      ShortDropped(View(), key);
      if |key.name| == 0 || |key.name| > NAME_MAX {
        ShortHolds(View(), key);
        DroppedNone(View(), key);
        return;
      }
      var idx := Find(key);
      if idx == NIL {
        NothingToDrop(slots, lru, key);
        return;
      }
      Release(idx);
      Open();
      Facts(NOBODY);
      Seal();
    }

    /** dcache_invalidate_inode: no answer about the inode is left, and every other one is. */
    method InvalidateInode(fs: nat, ino: nat)
      requires Valid()
      modifies this
      ensures Valid() && View() == Purged(old(View()), fs, ino)
    {
      hide *;
      Unseal();
      Open();
      Facts(NOBODY);
      ViewIs();
      UniqueItems(slots, lru);
      ghost var view0 := View();
      ghost var gone: set<Key> := {};
      MinusNone(view0);
      var i := 0;
      while i < SLOTS
        invariant i <= SLOTS && Sound() && |slots| == SLOTS && (forall k :: 0 <= k < |lru| ==> lru[k] < |slots|)
        invariant View() == Minus(view0, gone) && UniqueKeys(view0)
        invariant forall x <- view0 :: x.key in gone ==> About(x, fs, ino)
        invariant forall x :: 0 <= x < i && slots[x].used ==> !About(ItemOf(slots[x]), fs, ino)
      {
        var e := slots[i];
        AboutSlot(e, fs, ino);
        if e.used && e.key.fs == fs && (e.key.parent == ino || (!e.negative && e.child == ino)) {
          ghost var was, lru0 := slots, lru;
          Open();
          Facts(NOBODY);
          ViewIs();
          ghost var k := InUse(slots, lru, i);
          ItemHeld(slots, lru, k);
          HeldOnce(view0, gone, ItemOf(e), fs, ino);
          ItemKey(e);
          Release(i);
          Open();
          Facts(NOBODY);
          DroppedMinus(view0, gone, e.key);
          AboutKept(was, slots, i, fs, ino);
          gone := gone + {e.key};
        }
        i := i + 1;
      }
      Open();
      Facts(NOBODY);
      ViewIs();
      AllPurged(slots, lru, view0, gone, fs, ino);
      ShortPurged(view0, fs, ino);
      Seal();
    }

    lemma ViewIs()
      requires forall k :: 0 <= k < |lru| ==> lru[k] < |slots|
      ensures View() == Items(slots, lru)
    {
    }

    lemma Unseal()
      requires Valid()
      ensures Sound() && (forall k :: 0 <= k < |lru| ==> lru[k] < |slots|) && Short(View())
    {
    }

    lemma Seal()
      requires Sound() && (forall k :: 0 <= k < |lru| ==> lru[k] < |slots|) && Short(View())
      ensures Valid()
    {
    }

    lemma Open()
      requires Sound()
      ensures Shape(NOBODY) && live == |lru| && |buckets| == BUCKETS
              && Lists(slots, buckets + [freeHead], lists, NOBODY)
      ensures Threaded(slots, lruHead, lruTail, lru) && Coupled(slots, lru, NOBODY)
    {
    }

    lemma Close()
      requires live == |lru| && |buckets| == BUCKETS && Lists(slots, buckets + [freeHead], lists, NOBODY)
      requires Threaded(slots, lruHead, lruTail, lru) && Coupled(slots, lru, NOBODY)
      ensures Sound()
    {
    }
  }

  ghost predicate SameButNext(a: seq<Slot>, b: seq<Slot>) {
    |a| == |b| && forall i :: 0 <= i < |a| ==> b[i].(next := a[i].next) == a[i]
  }

  ghost predicate SameButUse(a: seq<Slot>, b: seq<Slot>) {
    |a| == |b| && forall i :: 0 <= i < |a| ==> b[i].(newer := a[i].newer, older := a[i].older) == a[i]
  }

  lemma SameChain(a: seq<Slot>, b: seq<Slot>, c: seq<Slot>)
    requires SameButUse(a, b) && SameButUse(b, c)
    ensures SameButUse(a, c)
  {
  }

  lemma UseSize(a: seq<Slot>, b: seq<Slot>)
    requires SameButUse(a, b)
    ensures |b| == |a|
  {
  }

  lemma SameButNextFrom(a: seq<Slot>, b: seq<Slot>)
    requires |a| == |b| && forall i :: 0 <= i < |a| ==> b[i] == a[i].(next := b[i].next)
    ensures SameButNext(a, b) && SameButNext(a, a)
  {
  }

  lemma HomeIs(s: Slot)
    requires s.used
    ensures Home(s) == Hash(s.key)
  {
    hide Hash;
  }

  lemma ListStep(slots: seq<Slot>, start: nat, list: seq<nat>, k: nat)
    requires Linked(slots, start, list) && k < |list|
    ensures start == list[0] && list[k] < |slots| && slots[list[k]].next == if k + 1 < |list| then list[k + 1] else NIL
  {
  }

  lemma PastIs(slots: seq<Slot>, list: seq<nat>, k: nat)
    requires k < |list| && forall j :: 0 <= j < |list| ==> list[j] < |slots|
    ensures Past(slots, list, k) ==
            if k == 0 then slots else slots[list[k - 1] := slots[list[k - 1]].(next := slots[list[k]].next)]
  {
  }

  lemma HeadsBucket(buckets: seq<nat>, free: nat, b: nat, x: nat)
    requires b < |buckets|
    ensures (buckets + [free])[b := x] == buckets[b := x] + [free] && (buckets + [free])[b] == buckets[b]
  {
  }

  lemma HeadIn(slots: seq<Slot>, head: nat, tail: nat, lru: seq<nat>)
    requires Threaded(slots, head, tail, lru)
    ensures head != NIL <==> head < |slots|
    ensures |slots| < NIL
  {
  }

  lemma InUse(slots: seq<Slot>, lru: seq<nat>, i: nat) returns (k: nat)
    requires Coupled(slots, lru, NOBODY) && i < |slots| && slots[i].used
    ensures k < |lru| && lru[k] == i
  {
    k :| k < |lru| && lru[k] == i;
  }

  lemma UseKeepsLists(a: seq<Slot>, b: seq<Slot>, heads: seq<nat>, lists: seq<seq<nat>>, skip: int)
    requires SameButUse(a, b) && Lists(a, heads, lists, skip)
    ensures Lists(b, heads, lists, skip)
  {
    hide Lists;
    ListsSame(a, b, heads, lists, skip);
  }

  lemma CoupledMoved(a: seq<Slot>, b: seq<Slot>, lru: seq<nat>, k: nat, i: nat)
    requires Coupled(a, lru, NOBODY) && Distinct(lru) && SameButUse(a, b) && k < |lru| && lru[k] == i
    ensures Coupled(b, [i] + Without(lru, k), NOBODY)
  {
    WithoutDistinct(lru, k);
    var r := [i] + Without(lru, k);
    forall x | 0 <= x < |r| ensures r[x] < |b| { if x > 0 { assert r[x] in lru; } }
    forall x | 0 <= x < |b| ensures b[x].used <==> x in r { assert b[x].used == a[x].used; }
  }

  lemma ItemSame(a: seq<Slot>, b: seq<Slot>, i: nat)
    requires SameButUse(a, b) && i < |a|
    ensures ItemOf(b[i]) == ItemOf(a[i]) && b[i].key == a[i].key && b[i].used == a[i].used
  {
  }

  // The same key, answer and use.
  predicate SameAnswer(a: Slot, b: Slot) {
    b.key == a.key && b.child == a.child && b.negative == a.negative && b.used == a.used
  }

  lemma NextSize(a: seq<Slot>, b: seq<Slot>)
    requires SameButNext(a, b)
    ensures |b| == |a|
  {
  }

  lemma NextKeepsThread(a: seq<Slot>, b: seq<Slot>, head: nat, tail: nat, lru: seq<nat>)
    requires SameButNext(a, b) && Threaded(a, head, tail, lru)
    ensures Threaded(b, head, tail, lru)
  {
    hide Threaded;
    ThreadSame(a, b, head, tail, lru);
  }

  lemma AttachFree(slots: seq<Slot>, buckets: seq<nat>, free: nat, lists: seq<seq<nat>>, i: nat, s: Slot)
    requires |buckets| == BUCKETS && Lists(slots, buckets + [free], lists, i) && i < SLOTS && !s.used && s.next == free
    ensures |slots| == SLOTS && FREE < |lists|
            && Lists(slots[i := s], buckets + [i], lists[FREE := [i] + lists[FREE]], NOBODY)
  {
    ListFacts(slots, buckets + [free], lists, i, FREE);
    hide Lists, Hash;
    NotHashed(s);
    AttachKeeps(slots, buckets + [free], lists, i, s);
    assert (buckets + [free])[FREE := i] == buckets + [i];
  }

  lemma ReleasedThread(a: seq<Slot>, b: seq<Slot>, head: nat, tail: nat, lru: seq<nat>, k: nat, i: nat, s: Slot)
    requires k < |lru| && lru[k] == i && Distinct(lru) && i < |a| && b == a[i := s]
             && Threaded(a, head, tail, Without(lru, k))
    ensures Threaded(b, head, tail, Without(lru, k))
  {
    hide Threaded;
    WithoutDistinct(lru, k);
    ThreadSame(a, b, head, tail, Without(lru, k));
  }

  lemma ReleasedAnswers(was: seq<Slot>, s1: seq<Slot>, s2: seq<Slot>, now: seq<Slot>, i: nat, s: Slot)
    requires SameButNext(was, s1) && SameButUse(s1, s2) && i < |s2| && now == s2[i := s]
    ensures |now| == |was| && now[i] == s && forall x :: 0 <= x < |was| && x != i ==> SameAnswer(was[x], now[x])
  {
    forall x | 0 <= x < |was| && x != i ensures SameAnswer(was[x], now[x]) {
      assert s1[x].(next := was[x].next) == was[x] && s2[x].(newer := s1[x].newer, older := s1[x].older) == s1[x];
    }
  }

  lemma ReleasedCouple(was: seq<Slot>, now: seq<Slot>, lru: seq<nat>, k: nat, i: nat)
    requires Coupled(was, lru, NOBODY) && Distinct(lru) && k < |lru| && lru[k] == i && |now| == |was| && i < |now|
             && !now[i].used
    requires forall x :: 0 <= x < |was| && x != i ==> SameAnswer(was[x], now[x])
    ensures Coupled(now, Without(lru, k), NOBODY)
  {
    WithoutDistinct(lru, k);
    var r := Without(lru, k);
    forall j | 0 <= j < |r| ensures r[j] < |now| { assert r[j] in lru; }
  }

  lemma AnswersItems(was: seq<Slot>, now: seq<Slot>, lru: seq<nat>, k: nat)
    requires k < |lru| && |now| == |was| && forall x :: 0 <= x < |was| && x != lru[k] ==> SameAnswer(was[x], now[x])
    ensures forall i <- lru :: i != lru[k] && i < |was| ==> ItemOf(now[i]) == ItemOf(was[i])
  {
  }

  lemma WithoutSize<T>(s: seq<T>, k: nat)
    requires k < |s|
    ensures |Without(s, k)| == |s| - 1
  {
  }

  lemma ItemAt(slots: seq<Slot>, lru: seq<nat>, k: nat)
    requires k < |lru| && forall j :: 0 <= j < |lru| ==> lru[j] < |slots|
    ensures Items(slots, lru)[k].key == slots[lru[k]].key
  {
  }

  lemma RefreshedItems(was: seq<Slot>, now: seq<Slot>, lru: seq<nat>, k: nat, i: nat)
    requires SameButUse(was, now) && Coupled(was, lru, NOBODY) && Distinct(lru) && k < |lru| && lru[k] == i && i < |now|
    ensures forall j :: 0 <= j < |[i] + Without(lru, k)| ==> ([i] + Without(lru, k))[j] < |now|
    ensures Items(now, [i] + Without(lru, k)) == [ItemOf(now[i])] + Dropped(Items(was, lru), now[i].key)
  {
    hide Items, Dropped, UniqueKeys;
    WithoutDistinct(lru, k);
    UniqueItems(was, lru);
    ItemAt(was, lru, k);
    DroppedAt(Items(was, lru), k);
    ItemsWithout(was, now, lru, k);
    ItemsPush(now, now, Without(lru, k), i);
  }

  // ---------- names that fit a slot ----------

  lemma FitsIs(key: Key, child: Option<nat>)
    ensures Fits(Item(key, child)) <==> 0 < |key.name| <= NAME_MAX
  {
  }

  lemma ShortHolds(items: seq<Item>, key: Key)
    requires Short(items) && !(0 < |key.name| <= NAME_MAX)
    ensures !Holds(items, key)
  {
    forall k | 0 <= k < |items| ensures items[k].key != key { assert items[k] in items; }
  }

  lemma {:induction false} DroppedIn(items: seq<Item>, key: Key, x: Item)
    requires x in Dropped(items, key)
    ensures x in items
  {
    if items[0].key != key && x != items[0] { DroppedIn(items[1..], key, x); }
  }

  lemma ShortDropped(items: seq<Item>, key: Key)
    requires Short(items)
    ensures Short(Dropped(items, key))
  {
    forall x <- Dropped(items, key) ensures Fits(x) { DroppedIn(items, key, x); }
  }

  lemma ShortInsert(items: seq<Item>, x: Item, n: nat)
    requires Short(items) && Fits(x)
    ensures Short([x] + Capped(Dropped(items, x.key), n))
  {
    ShortDropped(items, x.key);
  }

  lemma ShortRefresh(items: seq<Item>, x: Item)
    requires Short(items) && x in items
    ensures Short([x] + Dropped(items, x.key))
  {
    ShortDropped(items, x.key);
  }

  lemma {:induction false} PurgedIn(items: seq<Item>, fs: nat, ino: nat, x: Item)
    requires x in Purged(items, fs, ino)
    ensures x in items
  {
    if About(items[0], fs, ino) || x != items[0] { PurgedIn(items[1..], fs, ino, x); }
  }

  lemma ShortPurged(items: seq<Item>, fs: nat, ino: nat)
    requires Short(items)
    ensures Short(Purged(items, fs, ino))
  {
    forall x <- Purged(items, fs, ino) ensures Fits(x) { PurgedIn(items, fs, ino, x); }
  }

  lemma NameMax()
    ensures NAME_MAX == 47 && SLOTS == OTHERS + 1
  {
  }

  lemma InRange(slots: seq<Slot>, lru: seq<nat>)
    requires Coupled(slots, lru, NOBODY)
    ensures forall k :: 0 <= k < |lru| ==> lru[k] < |slots|
  {
  }

  lemma NewKey(was: seq<Slot>, now: seq<Slot>, key: Key)
    requires |was| == |now| && (forall x :: 0 <= x < |now| && now[x].used ==> SameAnswer(was[x], now[x]))
    requires forall i :: 0 <= i < |was| && was[i].used ==> was[i].key != key
    ensures forall x :: 0 <= x < |now| && now[x].used ==> now[x].key != key
  {
  }

  lemma HeadsFree(buckets: seq<nat>, free: nat)
    requires |buckets| == BUCKETS
    ensures |buckets + [free]| == LISTS && (buckets + [free])[FREE] == free
  {
  }

  lemma SelfAnswers(slots: seq<Slot>)
    ensures forall x :: 0 <= x < |slots| ==> SameAnswer(slots[x], slots[x])
  {
  }

  lemma CappedIs(items: seq<Item>, n: nat)
    ensures Capped(items, n) == if |items| <= n then items else items[..n]
  {
  }

  lemma ItemsSize(slots: seq<Slot>, lru: seq<nat>)
    requires forall k :: 0 <= k < |lru| ==> lru[k] < |slots|
    ensures |Items(slots, lru)| == |lru|
  {
  }

  lemma TailIs(slots: seq<Slot>, head: nat, tail: nat, lru: seq<nat>)
    requires Threaded(slots, head, tail, lru) && |lru| == SLOTS
    ensures tail == lru[|lru| - 1] && tail < |slots|
  {
  }

  lemma LastDropped(slots: seq<Slot>, lru: seq<nat>)
    requires Coupled(slots, lru, NOBODY) && Distinct(lru) && |lru| > 0
    ensures var last := lru[|lru| - 1];
            last < |slots| && slots[last].used
                && Dropped(Items(slots, lru), slots[last].key) == Items(slots, lru)[..|lru| - 1]
  {
    hide Dropped;
    var k := |lru| - 1;
    assert lru[k] in lru;
    UniqueItems(slots, lru);
    DroppedAt(Items(slots, lru), k);
    assert Without(Items(slots, lru), k) == Items(slots, lru)[..k];
  }

  lemma FreeHead(slots: seq<Slot>, buckets: seq<nat>, free: nat, lists: seq<seq<nat>>)
    requires |buckets| == BUCKETS && Lists(slots, buckets + [free], lists, NOBODY) && FREE < |lists|
             && lists[FREE] != []
    ensures free < SLOTS && |slots| == SLOTS && !slots[free].used
    ensures Lists(slots, buckets + [slots[free].next], lists[FREE := Without(lists[FREE], 0)], free)
  {
    hide Hash;
    var heads := buckets + [free];
    ListFacts(slots, heads, lists, NOBODY, FREE);
    NthIs(lists[FREE], 0);
    NotHashed(slots[free]);
    hide Lists, Linked, Members;
    DetachKeeps(slots, heads, lists, FREE, 0);
    assert heads[FREE := slots[free].next] == buckets + [slots[free].next];
  }

  lemma Answered(slots: seq<Slot>, lru: seq<nat>, k: nat, i: nat, child: nat, negative: bool)
    requires Coupled(slots, lru, NOBODY) && Distinct(lru) && k < |lru| && lru[k] == i && i < |slots|
    ensures var now := slots[i := slots[i].(child := child, negative := negative)];
            && Coupled(now, lru, NOBODY)
               && Dropped(Items(now, lru), slots[i].key) == Dropped(Items(slots, lru), slots[i].key)
            && |Dropped(Items(slots, lru), slots[i].key)| == |lru| - 1
  {
    hide Dropped;
    var now := slots[i := slots[i].(child := child, negative := negative)];
    assert Coupled(now, lru, NOBODY);
    UniqueItems(slots, lru);
    UniqueItems(now, lru);
    DroppedAt(Items(slots, lru), k);
    DroppedAt(Items(now, lru), k);
    forall j | 0 <= j < |lru| && j != k ensures Items(now, lru)[j] == Items(slots, lru)[j] { assert lru[j] != lru[k]; }
    assert Without(Items(now, lru), k) == Without(Items(slots, lru), k);
  }

  lemma ItemIs(s: Slot, key: Key, child: Option<nat>, c: nat)
    ensures s.key == key && s.negative == child.None? && s.child == c && (child.Some? ==> c == child.value) ==>
              ItemOf(s) == Item(key, child)
  {
  }

  lemma NothingToDrop(slots: seq<Slot>, lru: seq<nat>, key: Key)
    requires Coupled(slots, lru, NOBODY) && forall i :: 0 <= i < |slots| && slots[i].used ==> slots[i].key != key
    ensures !Holds(Items(slots, lru), key) && Dropped(Items(slots, lru), key) == Items(slots, lru)
  {
    forall k | 0 <= k < |lru| ensures Items(slots, lru)[k].key != key { assert lru[k] in lru; }
    DroppedNone(Items(slots, lru), key);
  }

  lemma NotThreaded(slots: seq<Slot>, lru: seq<nat>, i: nat)
    requires Coupled(slots, lru, NOBODY) && i < |slots| && !slots[i].used
    ensures i !in lru
  {
  }

  lemma FilledThread(slots: seq<Slot>, head: nat, tail: nat, lru: seq<nat>, i: nat, s: Slot)
    requires Threaded(slots, head, tail, lru) && i < |slots| && i !in lru
    ensures Threaded(slots[i := s], head, tail, lru)
  {
    hide Threaded;
    ThreadSame(slots, slots[i := s], head, tail, lru);
  }

  lemma FilledCouple(was: seq<Slot>, mid: seq<Slot>, now: seq<Slot>, lru: seq<nat>, i: nat, s: Slot)
    requires Coupled(was, lru, NOBODY) && i < |was| && !was[i].used && mid == was[i := s] && s.used
             && SameButUse(mid, now)
    requires forall x :: 0 <= x < |was| && was[x].used ==> was[x].key != s.key
    ensures Coupled(now, [i] + lru, NOBODY)
  {
    var r := [i] + lru;
    forall x | 0 <= x < |now|
        ensures (now[x].used <==> x in r) && now[x].key == mid[x].key && now[x].used == mid[x].used {
      assert now[x].(newer := mid[x].newer, older := mid[x].older) == mid[x];
    }
  }

  lemma FilledItems(was: seq<Slot>, mid: seq<Slot>, now: seq<Slot>, lru: seq<nat>, i: nat, s: Slot)
    requires Coupled(was, lru, NOBODY) && i < |was| && !was[i].used && mid == was[i := s] && SameButUse(mid, now)
    ensures forall j :: 0 <= j < |[i] + lru| ==> ([i] + lru)[j] < |now|
    ensures Items(now, [i] + lru) == [ItemOf(now[i])] + Items(was, lru)
  {
    forall x <- lru | x < |was| ensures ItemOf(now[x]) == ItemOf(was[x]) {
      assert now[x].(newer := mid[x].newer, older := mid[x].older) == mid[x] && x != i;
    }
    ItemsPush(was, now, lru, i);
  }

  lemma ItemHeld(slots: seq<Slot>, lru: seq<nat>, k: nat)
    requires k < |lru| && forall j :: 0 <= j < |lru| ==> lru[j] < |slots|
    ensures ItemOf(slots[lru[k]]) in Items(slots, lru)
  {
    assert Items(slots, lru)[k] == ItemOf(slots[lru[k]]);
  }

  lemma ItemKey(s: Slot)
    ensures ItemOf(s).key == s.key
  {
  }

  lemma AboutSlot(s: Slot, fs: nat, ino: nat)
    ensures About(ItemOf(s), fs, ino) <==> s.key.fs == fs && (s.key.parent == ino || (!s.negative && s.child == ino))
  {
  }

  // An answer still held is the only one for its key.
  lemma HeldOnce(items: seq<Item>, gone: set<Key>, x: Item, fs: nat, ino: nat)
    requires UniqueKeys(items) && x in Minus(items, gone) && About(x, fs, ino) && forall y <- items ::
             y.key in gone ==> About(y, fs, ino)
    ensures forall y <- items :: y.key in gone + {x.key} ==> About(y, fs, ino)
  {
    MinusHolds(items, gone, x);
    forall y <- items | y.key == x.key ensures y == x { SameKey(items, x, y); }
  }

  lemma SameKey(items: seq<Item>, x: Item, y: Item)
    requires UniqueKeys(items) && x in items && y in items && x.key == y.key
    ensures x == y
  {
    var i :| 0 <= i < |items| && items[i] == x;
    var j :| 0 <= j < |items| && items[j] == y;
    assert !(i < j) && !(j < i);
  }

  lemma AboutKept(was: seq<Slot>, now: seq<Slot>, i: nat, fs: nat, ino: nat)
    requires |was| == |now| == SLOTS && i < SLOTS && !now[i].used && forall x ::
             0 <= x < SLOTS && x != i ==> SameAnswer(was[x], now[x])
    requires forall x :: 0 <= x < i && was[x].used ==> !About(ItemOf(was[x]), fs, ino)
    ensures forall x :: 0 <= x < i + 1 && now[x].used ==> !About(ItemOf(now[x]), fs, ino)
  {
    forall x | 0 <= x < i + 1 && now[x].used ensures !About(ItemOf(now[x]), fs, ino) {
      assert SameAnswer(was[x], now[x]);
    }
  }

  lemma AllPurged(slots: seq<Slot>, lru: seq<nat>, view0: seq<Item>, gone: set<Key>, fs: nat, ino: nat)
    requires Coupled(slots, lru, NOBODY) && |slots| == SLOTS && Items(slots, lru) == Minus(view0, gone)
    requires forall x <- view0 :: x.key in gone ==> About(x, fs, ino)
    requires forall x :: 0 <= x < SLOTS && slots[x].used ==> !About(ItemOf(slots[x]), fs, ino)
    ensures Items(slots, lru) == Purged(view0, fs, ino)
  {
    forall x <- view0 ensures x.key in gone <==> About(x, fs, ino) {
      MinusHolds(view0, gone, x);
      if x.key !in gone {
        var k :| 0 <= k < |lru| && Items(slots, lru)[k] == x;
        assert lru[k] in lru;
      }
    }
    PurgedIs(view0, gone, fs, ino);
  }

  function Upto(n: nat): (s: seq<nat>)
    ensures |s| == n && forall i :: 0 <= i < n ==> s[i] == i
  {
    seq(n, i => i)
  }

  lemma FreshLists(slots: seq<Slot>, heads: seq<nat>, lists: seq<seq<nat>>)
    requires |slots| == SLOTS
             && (forall i :: 0 <= i < SLOTS ==> !slots[i].used && slots[i].next == if i + 1 < SLOTS then i + 1 else NIL)
    requires |heads| == |lists| == LISTS && (forall b :: 0 <= b < BUCKETS ==> heads[b] == NIL && lists[b] == [])
             && heads[FREE] == 0 && lists[FREE] == Upto(SLOTS)
    ensures Lists(slots, heads, lists, NOBODY)
  {
    hide Hash;
    forall i | 0 <= i < SLOTS ensures i in lists[Home(slots[i])] {
      NotHashed(slots[i]);
      assert lists[FREE][i] == i;
    }
    hide Linked, Members;
    forall b | 0 <= b < LISTS ensures Linked(slots, heads[b], lists[b]) && Members(slots, lists[b], b, NOBODY) {
      if b == FREE { FreshFree(slots, lists[b]); } else { EmptyList(slots, b); }
    }
  }

  lemma FreshFree(slots: seq<Slot>, list: seq<nat>)
    requires |slots| == SLOTS
             && (forall i ::
                 0 <= i < SLOTS ==> !slots[i].used && slots[i].next == if i + 1 < SLOTS then i + 1 else NIL)
                     && list == Upto(SLOTS)
    ensures Linked(slots, 0, list) && Members(slots, list, FREE, NOBODY)
  {
    hide Hash, Nth;
    NthIs(list, 0);
    forall k | 0 <= k < |list| ensures list[k] < |slots| && slots[list[k]].next == Nth(list, k + 1) {
      NthIs(list, k + 1);
    }
  }

  lemma EmptyList(slots: seq<Slot>, b: nat)
    ensures Linked(slots, NIL, []) && Members(slots, [], b, NOBODY)
  {
  }
}
