/**
 The answers of the slot pool of kernel/fs/dcache.c for one file system, as the map that the
 directory operations of kernel/fs/ext2.c rely on.
 */
module DentryLink {
  import opened Wrappers
  import opened DentryTable
  import DentryCache
  import DirTree

  type Items = seq<DentryCache.Item>

  // A positive answer, or a negative one.
  type Cache = map<(nat, DirTree.Name), Option<nat>>

  // What dcache_invalidate_entry leaves
  function DropKey(cache: Cache, p: nat, n: DirTree.Name): Cache { cache - {(p, n)} }

  // What dcache_invalidate_inode leaves: no entries of the directory, and none that name it
  function DropInode(cache: Cache, i: nat): Cache {
    map key | key in cache && key.0 != i && cache[key] != Some(i) :: cache[key]
  }

  // What a list of answers says about one file system.
  function Answers(items: Items, fs: nat): Cache {
    if items == [] then map[]
    else
      var rest := Answers(items[1..], fs);
      if items[0].key.fs == fs then rest[(items[0].key.parent, items[0].key.name) := items[0].child] else rest
  }

  predicate Says(items: Items, fs: nat, at: (nat, DirTree.Name), v: Option<nat>) {
    exists k :: 0 <= k < |items| && items[k].key == Key(fs, at.0, at.1) && items[k].child == v
  }

  lemma {:induction false} AnswersIs(items: Items, fs: nat, at: (nat, DirTree.Name))
    requires DentryCache.UniqueKeys(items)
    ensures at in Answers(items, fs) <==> DentryCache.Holds(items, Key(fs, at.0, at.1))
    ensures at in Answers(items, fs) ==> Says(items, fs, at, Answers(items, fs)[at])
  {
    if items != [] {
      var rest := items[1..];
      AnswersIs(rest, fs, at);
      if DentryCache.Holds(rest, Key(fs, at.0, at.1)) {
        var k :| 0 <= k < |rest| && rest[k].key == Key(fs, at.0, at.1);
        assert items[k + 1].key == Key(fs, at.0, at.1);
      }
      if DentryCache.Holds(items, Key(fs, at.0, at.1)) {
        var k :| 0 <= k < |items| && items[k].key == Key(fs, at.0, at.1);
        if k > 0 { assert rest[k - 1].key == Key(fs, at.0, at.1); }
      }
      if at in Answers(items, fs) {
        if items[0].key == Key(fs, at.0, at.1) {
          assert Says(items, fs, at, items[0].child);
        } else {
          var v := Answers(rest, fs)[at];
          var k :| 0 <= k < |rest| && rest[k].key == Key(fs, at.0, at.1) && rest[k].child == v;
          assert items[k + 1] == rest[k];
        }
      }
    }
  }

  // With unique keys an answer is what the item of its key says.
  lemma AnswerOf(items: Items, fs: nat, at: (nat, DirTree.Name), x: DentryCache.Item)
    requires DentryCache.UniqueKeys(items) && x in items && x.key == Key(fs, at.0, at.1)
    ensures at in Answers(items, fs) && Answers(items, fs)[at] == x.child
  {
    var i :| 0 <= i < |items| && items[i] == x;
    AnswersIs(items, fs, at);
    var k :| 0 <= k < |items| && items[k].key == Key(fs, at.0, at.1) && items[k].child == Answers(items, fs)[at];
    DentryCache.SameKey(items, items[i], items[k]);
  }

  // Lists whose items for fs agree give the same answers.
  lemma SameAnswers(a: Items, fs: nat, c: Cache)
    requires DentryCache.UniqueKeys(a)
    requires forall at: (nat, DirTree.Name) :: at in c ==> Says(a, fs, at, c[at])
    requires forall x <- a :: x.key.fs == fs ==> (x.key.parent, x.key.name) in c
    ensures Answers(a, fs) == c
  {
    forall at: (nat, DirTree.Name)
        ensures (at in Answers(a, fs) <==> at in c) && (at in c ==> Answers(a, fs)[at] == c[at]) {
      AnswersIs(a, fs, at);
      if at in Answers(a, fs) {
        var k :| 0 <= k < |a| && a[k].key == Key(fs, at.0, at.1);
        assert a[k] in a;
      }
      if at in c {
        var k :| 0 <= k < |a| && a[k].key == Key(fs, at.0, at.1) && a[k].child == c[at];
        AnswerOf(a, fs, at, a[k]);
      }
    }
  }

  lemma {:induction false} DroppedHolds(items: Items, key: Key, x: DentryCache.Item)
    requires DentryCache.UniqueKeys(items)
    ensures x in DentryCache.Dropped(items, key) <==> x in items && x.key != key
    ensures DentryCache.UniqueKeys(DentryCache.Dropped(items, key))
  {
    if DentryCache.Holds(items, key) {
      var k :| 0 <= k < |items| && items[k].key == key;
      DentryCache.DroppedAt(items, k);
      WithoutHolds(items, k, x);
    } else {
      DentryCache.DroppedNone(items, key);
    }
  }

  lemma WithoutHolds(items: Items, k: nat, x: DentryCache.Item)
    requires DentryCache.UniqueKeys(items) && k < |items|
    ensures x in Without(items, k) <==> x in items && x.key != items[k].key
  {
    var r := Without(items, k);
    if x in r {
      var j :| 0 <= j < |r| && r[j] == x;
      assert items[if j < k then j else j + 1] == x;
    }
    if x in items && x.key != items[k].key {
      var j :| 0 <= j < |items| && items[j] == x;
      assert r[if j < k then j else j - 1] == x;
    }
  }

  // The item behind an answer.
  lemma ItemFor(items: Items, fs: nat, at: (nat, DirTree.Name)) returns (x: DentryCache.Item)
    requires DentryCache.UniqueKeys(items) && at in Answers(items, fs)
    ensures x in items && x.key == Key(fs, at.0, at.1) && x.child == Answers(items, fs)[at]
  {
    AnswersIs(items, fs, at);
    var k :| 0 <= k < |items| && items[k].key == Key(fs, at.0, at.1) && items[k].child == Answers(items, fs)[at];
    x := items[k];
  }

  lemma SaysFrom(items: Items, fs: nat, at: (nat, DirTree.Name), x: DentryCache.Item)
    requires x in items && x.key == Key(fs, at.0, at.1)
    ensures Says(items, fs, at, x.child)
  {
  }

  /** dcache_invalidate_entry drops exactly the answer the directory operations want dropped. */
  lemma InvalidateEntryLinks(items: Items, fs: nat, p: nat, n: DirTree.Name)
    requires DentryCache.UniqueKeys(items)
    ensures Answers(DentryCache.Dropped(items, Key(fs, p, n)), fs) == DropKey(Answers(items, fs), p, n)
  {
    hide Answers, Says, DentryCache.UniqueKeys;
    var key := Key(fs, p, n);
    var left, c := DentryCache.Dropped(items, key), DropKey(Answers(items, fs), p, n);
    DroppedHolds(items, key, DentryCache.Item(key, None));
    forall at: (nat, DirTree.Name) | at in c ensures Says(left, fs, at, c[at]) {
      var x := ItemFor(items, fs, at);
      DroppedHolds(items, key, x);
      SaysFrom(left, fs, at, x);
    }
    forall x <- left | x.key.fs == fs ensures (x.key.parent, x.key.name) in c {
      DroppedHolds(items, key, x);
      AnswerOf(items, fs, (x.key.parent, x.key.name), x);
    }
    SameAnswers(left, fs, c);
  }

  lemma {:induction false} PurgedHolds(items: Items, fs: nat, ino: nat, x: DentryCache.Item)
    ensures x in DentryCache.Purged(items, fs, ino) <==> x in items && !DentryCache.About(x, fs, ino)
  {
    if items != [] {
      PurgedHolds(items[1..], fs, ino, x);
      assert items == [items[0]] + items[1..];
    }
  }

  lemma {:induction false} PurgedUnique(items: Items, fs: nat, ino: nat)
    requires DentryCache.UniqueKeys(items)
    ensures DentryCache.UniqueKeys(DentryCache.Purged(items, fs, ino))
  {
    if items != [] {
      var rest := items[1..];
      PurgedUnique(rest, fs, ino);
      var left := DentryCache.Purged(rest, fs, ino);
      forall k | 0 <= k < |left| ensures left[k].key != items[0].key {
        assert left[k] in left;
        PurgedHolds(rest, fs, ino, left[k]);
        var j :| 0 <= j < |rest| && rest[j] == left[k];
        assert items[j + 1] == left[k];
      }
      if !DentryCache.About(items[0], fs, ino) {
        var all := [items[0]] + left;
        forall i, j | 0 <= i < j < |all| ensures all[i].key != all[j].key {
          if i > 0 { assert all[i] == left[i - 1]; }
          assert all[j] == left[j - 1];
        }
      }
    }
  }

  /** dcache_invalidate_inode drops exactly the answers about the inode. */
  lemma InvalidateInodeLinks(items: Items, fs: nat, ino: nat)
    requires DentryCache.UniqueKeys(items)
    ensures Answers(DentryCache.Purged(items, fs, ino), fs) == DropInode(Answers(items, fs), ino)
  {
    hide Answers, Says, DentryCache.UniqueKeys, DentryCache.Purged;
    var left, c := DentryCache.Purged(items, fs, ino), DropInode(Answers(items, fs), ino);
    PurgedUnique(items, fs, ino);
    forall at: (nat, DirTree.Name) | at in c ensures Says(left, fs, at, c[at]) {
      var x := ItemFor(items, fs, at);
      PurgedHolds(items, fs, ino, x);
      SaysFrom(left, fs, at, x);
    }
    forall x <- left | x.key.fs == fs ensures (x.key.parent, x.key.name) in c {
      PurgedHolds(items, fs, ino, x);
      AnswerOf(items, fs, (x.key.parent, x.key.name), x);
    }
    SameAnswers(left, fs, c);
  }

  /** What dcache_insert leaves are the new answer and answers that were there, as LookupCached allows. */
  lemma InsertLinks(items: Items, key: Key, child: Option<nat>, at: (nat, DirTree.Name))
    requires DentryCache.UniqueKeys(items)
    ensures var now := [DentryCache.Item(key, child)]
            + DentryCache.Capped(DentryCache.Dropped(items, key), DentryCache.OTHERS);
            && DentryCache.UniqueKeys(now) && (key.parent, key.name) in Answers(now, key.fs)
            && Answers(now, key.fs)[(key.parent, key.name)] == child
            && (at in Answers(now, key.fs) && at != (key.parent, key.name) ==>
                  at in Answers(items, key.fs) && Answers(now, key.fs)[at] == Answers(items, key.fs)[at])
  {
    var x := DentryCache.Item(key, child);
    var rest := DentryCache.Dropped(items, key);
    var kept := DentryCache.Capped(rest, DentryCache.OTHERS);
    var now := [x] + kept;
    DroppedHolds(items, key, x);
    forall j | 0 <= j < |kept| ensures kept[j].key != key && kept[j] in items {
      assert kept[j] == rest[j] && rest[j] in rest;
      DroppedHolds(items, key, kept[j]);
    }
    assert DentryCache.UniqueKeys(now);
    hide Answers, DentryCache.UniqueKeys, DentryCache.Dropped;
    assert now[0] == x;
    AnswerOf(now, key.fs, (key.parent, key.name), x);
    if at in Answers(now, key.fs) && at != (key.parent, key.name) {
      var y := ItemFor(now, key.fs, at);
      assert y in kept;
      AnswerOf(items, key.fs, at, y);
    }
  }
}
