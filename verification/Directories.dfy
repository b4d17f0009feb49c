/**
 The directory operations of kernel/fs/ext2.c over its inodes and the slot pool of
 kernel/fs/dcache.c: every one keeps the tree, and a cached lookup always answers as an uncached
 one would.
 */
module Directories {
  import opened Wrappers
  import opened DirTree
  import opened DirMoves
  import opened DirEdits
  import opened DentryLink
  import DentryTable
  import DentryCache

  const FS: nat := 1      // DCACHE_FS_EXT2

  datatype Status =
    | Ok | ENOENT | EEXIST | EINVAL | ENOTDIR | EISDIR | ENOTEMPTY | EBUSY | EMLINK | ENOSPC | ENAMETOOLONG

  predicate Dots(n: Name) { n == "." || n == ".." }

  lemma NameableIs(n: Name)
    ensures Nameable(n) <==> n != "" && !Dots(n) && |n| <= NAME_LEN
  {
  }

  // No name at all, as in the path of the root, "." or "..".
  predicate Reserved(n: Name) { n == "" || Dots(n) }

  // A place for a new name: a proper name that is not taken.
  predicate Vacant(nodes: Nodes, p: nat, n: Name) { Nameable(n) && Entry(nodes, p, n).None? }

  // What a name stands for.
  predicate NamesFile(nodes: Nodes, p: nat, n: Name) {
    var c := Entry(nodes, p, n); c.Some? && c.value in nodes && nodes[c.value].File?
  }

  predicate NamesDir(nodes: Nodes, p: nat, n: Name) { var c := Entry(nodes, p, n); c.Some? && IsDir(nodes, c.value) }

  predicate NamesEmptyDir(nodes: Nodes, p: nat, n: Name) {
    NamesDir(nodes, p, n) && nodes[Entry(nodes, p, n).value].entries == map[]
  }

  lemma NamesFacts(nodes: Nodes, p: nat, n: Name)
    requires Tree(nodes)
    ensures Entry(nodes, p, n).Some? ==>
              var c := Entry(nodes, p, n).value;
              && c in nodes && Nameable(n) && (NamesFile(nodes, p, n) <==> nodes[c].File?)
              && (NamesDir(nodes, p, n) <==> nodes[c].Dir?)
              && (NamesEmptyDir(nodes, p, n) <==> nodes[c].Dir? && nodes[c].entries == map[])
    ensures Entry(nodes, p, n).None? ==>
              !NamesFile(nodes, p, n) && !NamesDir(nodes, p, n) && !NamesEmptyDir(nodes, p, n)
    ensures Vacant(nodes, p, n) <==> Nameable(n) && Entry(nodes, p, n).None?
    ensures Nameable(n) <==> !Reserved(n) && |n| <= NAME_LEN
    ensures Reserved(n) <==> n == "" || n == "." || n == ".."
    ensures Reserved(n) ==> |n| <= NAME_LEN
  {
    hide NamesOk, Rooted, LinksOk;
    if Entry(nodes, p, n).Some? { EntryFacts(nodes, p, n); }
  }

  // A path without a last component names nothing.
  lemma NoEmptyName(nodes: Nodes, p: nat)
    requires Tree(nodes)
    ensures Entry(nodes, p, "").None?
  {
    hide NamesOk, Rooted, LinksOk;
    if Entry(nodes, p, "").Some? { EntryFacts(nodes, p, ""); }
  }

  // dir_lookup for any name
  function Lookup(nodes: Nodes, p: nat, n: Name): Option<nat> {
    if !IsDir(nodes, p) then None else if n == "." then Some(p)
                                                        else if n == ".." then Some(nodes[p].up) else Entry(nodes, p, n)
  }

  // Where a path leads, read off the directories alone.
  datatype Spot = Here(inode: nat) | Missing | NotADirectory

  function WalkFrom(nodes: Nodes, i: nat, names: seq<Name>): Spot
    decreases |names|
  {
    if names == [] then Here(i)
    else if !IsDir(nodes, i) then NotADirectory
    else
      var child := Lookup(nodes, i, names[0]);
      if child.None? then Missing else WalkFrom(nodes, child.value, names[1..])
  }

  lemma WalkStep(nodes: Nodes, i: nat, names: seq<Name>)
    requires names != []
    ensures WalkFrom(nodes, i, names) ==
            if !IsDir(nodes, i) then NotADirectory
            else if Lookup(nodes, i, names[0]).None? then Missing
                                                          else WalkFrom(nodes, Lookup(nodes, i, names[0]).value,
                                                                        names[1..])
  {
  }

  lemma WalkEnd(nodes: Nodes, i: nat)
    ensures WalkFrom(nodes, i, []) == Here(i)
  {
  }

  // ---------- the dentry cache, as the answers it holds ----------

  ghost predicate Agrees(nodes: Nodes, cache: Cache) {
    forall key <- cache :: IsDir(nodes, key.0) && cache[key] == Lookup(nodes, key.0, key.1)
  }

  // The answers that changed, or whose directory went, are no longer cached.
  lemma AgreesAfter(nodes: Nodes, r: Nodes, cache: Cache, left: Cache)
    requires Agrees(nodes, cache) && left.Keys <= cache.Keys
    requires forall key <- left ::
             left[key] == cache[key]
                 && (IsDir(nodes, key.0) ==> IsDir(r, key.0) && Lookup(r, key.0, key.1) == Lookup(nodes, key.0, key.1))
    ensures Agrees(r, left)
  {
  }

  // ---------- small edits of the inodes ----------

  function Insert(nodes: Nodes, p: nat, n: Name, c: nat): Nodes
    requires IsDir(nodes, p)
  {
    nodes[p := nodes[p].(entries := nodes[p].entries[n := c])]
  }

  function Remove(nodes: Nodes, p: nat, n: Name): Nodes
    requires IsDir(nodes, p)
  {
    nodes[p := nodes[p].(entries := nodes[p].entries - {n})]
  }

  function SetLinks(nodes: Nodes, i: nat, links: nat): Nodes
    requires i in nodes
  {
    nodes[i := nodes[i].(links := links)]
  }

  // One link less, but never below one.
  function Lower(links: nat): nat { if links > 1 then links - 1 else links }

  class FileTree {
    var nodes: Nodes
    const cache: DentryCache.Dcache

    ghost predicate Valid()
      reads this, cache
    {
      cache.Valid() && Tree(nodes) && Agrees(nodes, Known())
    }

    // The answers the pool holds for this file system.
    ghost function Known(): Cache
      reads cache
      requires cache.Valid()
    {
      Answers(cache.View(), FS)
    }

    /** A fresh file system: nothing but its root, and nothing cached. */
    constructor ()
      ensures Valid() && fresh(cache) && nodes == map[ROOT := Dir(map[], ROOT, 2)] && Known() == map[]
    {
      nodes := map[ROOT := Dir(map[], ROOT, 2)];
      cache := new DentryCache.Dcache();
      new;
      FreshTree();
    }

    /** ext2_mount: whatever tree the volume holds, with nothing cached about it. */
    constructor Mount(disk: Nodes)
      requires Tree(disk)
      ensures Valid() && fresh(cache) && nodes == disk && Known() == map[]
    {
      nodes := disk;
      cache := new DentryCache.Dcache();
      new;
    }

    lemma Parts()
      requires Valid()
      ensures cache.Valid() && Tree(nodes) && Agrees(nodes, Known())
    {
    }

    lemma Whole()
      requires cache.Valid() && Tree(nodes) && Agrees(nodes, Known())
      ensures Valid()
    {
    }

    // dcache_invalidate_entry; names the pool has no room for are never cached.
    method Forget(p: nat, n: Name)
      requires cache.Valid()
      modifies cache
      ensures cache.Valid() && Known() == DropKey(old(Known()), p, n)
    {
      hide *;
      KnownIs();
      UniqueView(cache);
      InvalidateEntryLinks(cache.View(), FS, p, n);
      cache.InvalidateEntry(DentryTable.Key(FS, p, n));
      KnownIs();
    }

    // dcache_invalidate_inode
    method ForgetInode(i: nat)
      requires cache.Valid()
      modifies cache
      ensures cache.Valid() && Known() == DropInode(old(Known()), i)
    {
      hide *;
      KnownIs();
      UniqueView(cache);
      InvalidateInodeLinks(cache.View(), FS, i);
      cache.InvalidateInode(FS, i);
      KnownIs();
    }

    lemma KnownIs()
      requires cache.Valid()
      ensures ViewOk(cache) && Known() == Answers(cache.View(), FS)
    {
    }

    /**
     dir_lookup_cached: whatever the pool holds and whatever it forgets to make room, the answer
     is that of dir_lookup.
     */
    method LookupCached(p: nat, n: Name) returns (r: Option<nat>)
      requires Valid() && IsDir(nodes, p)
      modifies cache
      ensures Valid() && r == Lookup(nodes, p, n)
    {
      hide *;
      Parts();
      KnownIs();
      UniqueView(cache);
      ghost var was, known := cache.View(), Known();
      var key := DentryTable.Key(FS, p, n);
      var hit := cache.Lookup(key);
      KnownIs();
      if hit.Some? {
        r := hit.value.child;
        HitAgrees(nodes, was, p, n, hit.value);
        RefreshAgrees(nodes, was, hit.value);
      } else {
        r := Lookup(nodes, p, n);
        UniqueView(cache);
        StoreAgrees(nodes, was, key, r);
        cache.Insert(key, r);
        KnownIs();
      }
      Whole();
    }

    /** resolve_range: a walk through the cache ends where a walk through the directories does. */
    method Walk(names: seq<Name>) returns (r: Spot)
      requires Valid()
      modifies cache
      ensures Valid() && r == WalkFrom(nodes, ROOT, names)
    {
      hide Valid, WalkFrom, Lookup;
      var i, k := ROOT, 0;
      assert names[0..] == names;
      while k < |names|
        invariant k <= |names| && Valid() && WalkFrom(nodes, i, names[k..]) == WalkFrom(nodes, ROOT, names)
      {
        WalkStep(nodes, i, names[k..]);
        assert names[k..][1..] == names[k + 1..];
        if !IsDir(nodes, i) { return NotADirectory; }
        var child := LookupCached(i, names[k]);
        if child.None? { return Missing; }
        i := child.value;
        k := k + 1;
      }
      assert names[k..] == [];
      WalkEnd(nodes, i);
      r := Here(i);
    }

    /**
     ext2_mkdir in a directory p.  slot is the inode number the allocator gave, if any, and room
     says whether blocks for the new directory and its name were found.
     */
    method Mkdir(p: nat, n: Name, slot: Option<nat>, room: bool) returns (s: Status)
      requires Valid() && IsDir(nodes, p) && (slot.Some? ==> slot.value !in nodes)
      modifies this`nodes, cache
      ensures Valid()
      ensures s != Ok ==> nodes == old(nodes)
      ensures s == Ok ==> slot.Some? && Edited(old(nodes), nodes, Edit(p, n, slot, {slot.value}, {}))
                          && IsDir(nodes, slot.value)
      ensures s == Ok <==> Vacant(old(nodes), p, n) && old(nodes)[p].links < LINK_MAX && slot.Some? && room
      ensures s == EEXIST <==> Reserved(n) || Entry(old(nodes), p, n).Some?
      ensures s == EINVAL <==> |n| > NAME_LEN
      ensures s == EMLINK <==> Vacant(old(nodes), p, n) && old(nodes)[p].links >= LINK_MAX
      ensures s == ENOSPC <==> Vacant(old(nodes), p, n) && old(nodes)[p].links < LINK_MAX && (slot.None? || !room)
    {
      hide *;
      DirIn(nodes, p);
      Parts();
      NamesFacts(nodes, p, n);
      NameableIs(n);
      if Reserved(n) { return EEXIST; }
      if |n| > NAME_LEN { return EINVAL; }
      if Entry(nodes, p, n).Some? { return EEXIST; }
      if nodes[p].links >= LINK_MAX { return EMLINK; }
      if slot.None? || !room { return ENOSPC; }
      var c := slot.value;
      MkdirStep(nodes, p, n, c);
      GrownSteps(nodes, p, n, c);
      ghost var was, known := nodes, Known();
      KeyDropped(known, p, n);
      nodes := nodes[c := Dir(map[], p, 2)];
      Forget(p, n);
      nodes := Insert(nodes, p, n, c);
      nodes := SetLinks(nodes, p, nodes[p].links + 1);
      assert nodes == Grown(was, p, n, c);
      EditedTree(was, nodes, Edit(p, n, slot, {c}, {}));
      EditAgrees(was, nodes, Edit(p, n, slot, {c}, {}), known, Known());
      Whole();
      s := Ok;
    }

    // A name for a file that exists, or for a new one with an inode number not in use.
    method AddName(p: nat, n: Name, f: nat)
      requires Valid() && IsDir(nodes, p) && Vacant(nodes, p, n) && (f in nodes ==> nodes[f].File?)
      modifies this`nodes, cache
      ensures Valid() && Edited(old(nodes), nodes, Edit(p, n, Some(f), if f in old(nodes) then {} else {f}, {}))
    {
      hide Tree, Agrees, Edited, Fair, Recounted, Lookup, Titled;
      NameableIs(n);
      TitledStep(nodes, p, n, f);
      ghost var was, known := nodes, Known();
      KeyDropped(known, p, n);
      nodes := Titled(nodes, p, n, f);
      Forget(p, n);
      EditAgrees(was, nodes, Edit(p, n, Some(f), if f in was then {} else {f}, {}), known, Known());
      Whole();
    }

    /**
     ext2_write_file, as far as the tree goes: a name not taken is given to a new file, and an
     existing regular file keeps its name and gets other contents.  slot is the inode number the
     allocator gave, room says whether a block for the name was found, and regular whether what
     has the name is a regular file.
     */
    method WriteFile(p: nat, n: Name, slot: Option<nat>, room: bool, regular: bool) returns (s: Status)
      requires Valid() && IsDir(nodes, p) && (slot.Some? ==> slot.value !in nodes)
      modifies this`nodes, cache
      ensures Valid()
      ensures s != Ok || NamesFile(old(nodes), p, n) ==> nodes == old(nodes)
      ensures s == Ok && !NamesFile(old(nodes), p, n) ==>
                slot.Some? && Edited(old(nodes), nodes, Edit(p, n, slot, {slot.value}, {}))
      ensures s == Ok <==> (NamesFile(old(nodes), p, n) && regular) || (Vacant(old(nodes), p, n) && slot.Some? && room)
      ensures s == EISDIR <==> Reserved(n) || NamesDir(old(nodes), p, n)
      ensures s == EINVAL <==> |n| > NAME_LEN || (NamesFile(old(nodes), p, n) && !regular)
      ensures s == ENOSPC <==> Vacant(old(nodes), p, n) && (slot.None? || !room)
    {
      hide *;
      Parts();
      NamesFacts(nodes, p, n);
      if Reserved(n) { return EISDIR; }
      if |n| > NAME_LEN { return EINVAL; }
      var found := Entry(nodes, p, n);
      if found.Some? {
        if nodes[found.value].Dir? { return EISDIR; }
        return if regular then Ok else EINVAL;
      }
      if slot.None? || !room { return ENOSPC; }
      AddName(p, n, slot.value);
      s := Ok;
    }

    /** ext2_symlink: a new inode gets a name not taken; its target is a text of the given length. */
    method Symlink(p: nat, n: Name, target: nat, blockSize: nat, slot: Option<nat>, room: bool) returns (s: Status)
      requires Valid() && IsDir(nodes, p) && (slot.Some? ==> slot.value !in nodes)
      modifies this`nodes, cache
      ensures Valid()
      ensures s != Ok ==> nodes == old(nodes)
      ensures s == Ok ==> slot.Some? && Edited(old(nodes), nodes, Edit(p, n, slot, {slot.value}, {}))
      ensures s == Ok <==> 0 < target < blockSize && Vacant(old(nodes), p, n) && slot.Some? && room
      ensures s == ENOENT <==> target == 0
      ensures s == ENAMETOOLONG <==> target > 0 && (target >= blockSize || |n| > NAME_LEN)
      ensures s == EEXIST <==> 0 < target < blockSize && (Reserved(n) || Entry(old(nodes), p, n).Some?)
      ensures s == ENOSPC <==> 0 < target < blockSize && Vacant(old(nodes), p, n) && (slot.None? || !room)
    {
      hide *;
      Parts();
      NamesFacts(nodes, p, n);
      if target == 0 { return ENOENT; }
      if target >= blockSize { return ENAMETOOLONG; }
      if Reserved(n) { return EEXIST; }
      if |n| > NAME_LEN { return ENAMETOOLONG; }
      if Entry(nodes, p, n).Some? { return EEXIST; }
      if slot.None? || !room { return ENOSPC; }
      AddName(p, n, slot.value);
      s := Ok;
    }

    /** ext2_link: a file that exists gets one more name. */
    method Link(p: nat, n: Name, f: nat, room: bool) returns (s: Status)
      requires Valid() && IsDir(nodes, p) && f in nodes
      modifies this`nodes, cache
      ensures Valid()
      ensures s != Ok ==> nodes == old(nodes)
      ensures s == Ok ==> Edited(old(nodes), nodes, Edit(p, n, Some(f), {}, {}))
      ensures s == Ok <==> Linkable(old(nodes), f) && Vacant(old(nodes), p, n) && room
      ensures s == EISDIR <==> old(nodes)[f].Dir?
      ensures s == EMLINK <==> old(nodes)[f].File? && old(nodes)[f].links >= LINK_MAX
      ensures s == ENAMETOOLONG <==> Linkable(old(nodes), f) && |n| > NAME_LEN
      ensures s == EEXIST <==> Linkable(old(nodes), f) && (Reserved(n) || Entry(old(nodes), p, n).Some?)
      ensures s == ENOSPC <==> Linkable(old(nodes), f) && Vacant(old(nodes), p, n) && !room
    {
      hide *;
      Parts();
      NamesFacts(nodes, p, n);
      LinkableIs(nodes, f);
      if nodes[f].Dir? { return EISDIR; }
      if nodes[f].links >= LINK_MAX { return EMLINK; }
      if Reserved(n) { return EEXIST; }
      if |n| > NAME_LEN { return ENAMETOOLONG; }
      if Entry(nodes, p, n).Some? { return EEXIST; }
      if !room { return ENOSPC; }
      AddName(p, n, f);
      s := Ok;
    }

    /** ext2_unlink */
    method Unlink(p: nat, n: Name) returns (s: Status)
      requires Valid() && IsDir(nodes, p)
      modifies this`nodes, cache
      ensures Valid()
      ensures s != Ok ==> nodes == old(nodes)
      ensures s == Ok ==> var f := Entry(old(nodes), p, n);
                          f.Some? && f.value in old(nodes) && old(nodes)[f.value].File?
                          && Edited(old(nodes), nodes,
                                    Edit(p, n, None, {}, if old(nodes)[f.value].links > 1 then {} else {f.value}))
      ensures s == Ok <==> NamesFile(old(nodes), p, n)
      ensures s == EISDIR <==> Reserved(n) || NamesDir(old(nodes), p, n)
      ensures s == ENOENT <==> !Reserved(n) && Entry(old(nodes), p, n).None?
    {
      hide Tree, Agrees, Edited, Fair, Recounted, Lookup, Untitled, EntriesOk, NamesOk, Rooted, LinksOk;
      hide NamesFile, NamesDir, NamesEmptyDir;
      NamesFacts(nodes, p, n);
      if Reserved(n) { return EISDIR; }
      var found := Entry(nodes, p, n);
      if found.None? { return ENOENT; }
      var f := found.value;
      TreeParts(nodes);
      EntryFacts(nodes, p, n);
      if nodes[f].Dir? { return EISDIR; }
      UntitledStep(nodes, p, n, f);
      ghost var was, known := nodes, Known();
      var last := nodes[f].links <= 1;
      DropFacts(known, p, n, f);
      nodes := Untitled(nodes, p, n, f);
      Forget(p, n);
      if last { ForgetInode(f); }
      EditAgrees(was, nodes, Edit(p, n, None, {}, if was[f].links > 1 then {} else {f}), known, Known());
      Whole();
      s := Ok;
    }

    /** ext2_rmdir: an empty directory other than the root loses its name and goes. */
    method Rmdir(p: nat, n: Name) returns (s: Status)
      requires Valid() && IsDir(nodes, p)
      modifies this`nodes, cache
      ensures Valid()
      ensures s != Ok ==> nodes == old(nodes)
      ensures s == Ok ==> var d := Entry(old(nodes), p, n);
                          d.Some? && IsDir(old(nodes), d.value) && old(nodes)[d.value].entries == map[]
                          && Edited(old(nodes), nodes, Edit(p, n, None, {}, {d.value}))
      ensures s == Ok <==> NamesEmptyDir(old(nodes), p, n)
      ensures s == EBUSY <==> n == ""
      ensures s == EINVAL <==> n == "."
      ensures s == ENOTEMPTY <==> n == ".." || (NamesDir(old(nodes), p, n) && !NamesEmptyDir(old(nodes), p, n))
      ensures s == ENOENT <==> !Reserved(n) && Entry(old(nodes), p, n).None?
      ensures s == ENOTDIR <==> NamesFile(old(nodes), p, n)
    {
      hide *;
      Parts();
      DirIn(nodes, p);
      DotsOnly(n);
      NamesFacts(nodes, p, n);
      if n == "" { return EBUSY; }
      if n == "." { return EINVAL; }
      if n == ".." { return ENOTEMPTY; }
      var found := Entry(nodes, p, n);
      if found.None? { return ENOENT; }
      var d := found.value;
      TreeParts(nodes);
      EntryFacts(nodes, p, n);
      NodeIsDir(nodes, d);
      // No entry names the root, so the source's EBUSY for it does not arise here.
      if nodes[d].File? { return ENOTDIR; }
      if nodes[d].entries != map[] { return ENOTEMPTY; }
      ghost var was, known, e := nodes, Known(), Edit(p, n, None, {}, {d});
      RmdirStep(was, p, n, d);
      ShrunkSteps(was, p, n, d);
      EditedTree(was, Shrunk(was, p, n, d), e);
      DropFacts(known, p, n, d);
      EditAgrees(was, Shrunk(was, p, n, d), e, known, DropInode(DropKey(known, p, n), d));
      Forget(p, n);
      nodes := Remove(nodes, p, n);
      nodes := SetLinks(nodes, p, Lower(nodes[p].links));
      ForgetInode(d);
      nodes := nodes - {d};
      Whole();
      s := Ok;
    }
  }

  predicate Linkable(nodes: Nodes, f: nat) { f in nodes && nodes[f].File? && nodes[f].links < LINK_MAX }

  lemma LinkableIs(nodes: Nodes, f: nat)
    requires f in nodes
    ensures Linkable(nodes, f) <==> !nodes[f].Dir? && nodes[f].links < LINK_MAX
  {
  }

  // ---------- the pool behind the answers ----------

  ghost predicate ViewOk(c: DentryCache.Dcache)
    reads c
  {
    forall k :: 0 <= k < |c.lru| ==> c.lru[k] < |c.slots|
  }

  lemma UniqueView(c: DentryCache.Dcache)
    requires c.Valid()
    ensures ViewOk(c) && DentryCache.UniqueKeys(c.View())
  {
    hide DentryTable.Hash;
    DentryCache.UniqueItems(c.slots, c.lru);
  }

  lemma HitAgrees(nodes: Nodes, view: Items, p: nat, n: Name, x: DentryCache.Item)
    requires DentryCache.UniqueKeys(view) && Agrees(nodes, Answers(view, FS)) && x in view
             && x.key == DentryTable.Key(FS, p, n)
    ensures x.child == Lookup(nodes, p, n)
  {
    AnswerOf(view, FS, (p, n), x);
  }

  // Moving an answer to the front changes none.
  lemma RefreshAgrees(nodes: Nodes, view: Items, x: DentryCache.Item)
    requires DentryCache.UniqueKeys(view) && Agrees(nodes, Answers(view, FS)) && x in view && x.key.fs == FS
    ensures Agrees(nodes, Answers([x] + DentryCache.Dropped(view, x.key), FS))
  {
    hide Answers, Lookup, DentryCache.Dropped, DentryCache.UniqueKeys;
    var now := [x] + DentryCache.Dropped(view, x.key);
    FrontUnique(view, x);
    forall at <- Answers(now, FS) ensures IsDir(nodes, at.0) && Answers(now, FS)[at] == Lookup(nodes, at.0, at.1) {
      var y := ItemFor(now, FS, at);
      DroppedHolds(view, x.key, y);
      AnswerOf(view, FS, at, y);
    }
  }

  lemma FrontUnique(view: Items, x: DentryCache.Item)
    requires DentryCache.UniqueKeys(view)
    ensures DentryCache.UniqueKeys([x] + DentryCache.Dropped(view, x.key))
  {
    var rest := DentryCache.Dropped(view, x.key);
    DroppedHolds(view, x.key, x);
    forall k | 0 <= k < |rest| ensures rest[k].key != x.key {
      assert rest[k] in rest;
      DroppedHolds(view, x.key, rest[k]);
    }
  }

  // A new answer that is right leaves the pool right, whatever goes to make room for it.
  lemma StoreAgrees(nodes: Nodes, view: Items, key: DentryTable.Key, r: Option<nat>)
    requires DentryCache.UniqueKeys(view) && Agrees(nodes, Answers(view, FS)) && key.fs == FS
             && IsDir(nodes, key.parent) && r == Lookup(nodes, key.parent, key.name)
    ensures Agrees(nodes,
                   Answers([DentryCache.Item(key, r)]
                           + DentryCache.Capped(DentryCache.Dropped(view, key), DentryCache.OTHERS), FS))
  {
    hide Answers, Lookup, DentryCache.Dropped, DentryCache.UniqueKeys;
    var x := DentryCache.Item(key, r);
    var now := [x] + DentryCache.Capped(DentryCache.Dropped(view, key), DentryCache.OTHERS);
    forall at <- Answers(now, FS) ensures IsDir(nodes, at.0) && Answers(now, FS)[at] == Lookup(nodes, at.0, at.1) {
      InsertLinks(view, key, x.child, at);
    }
  }

  // ---------- names of files ----------

  // f, a file or a number not in use, gets the name n in p.
  function Titled(nodes: Nodes, p: nat, n: Name, f: nat): Nodes
    requires IsDir(nodes, p)
  {
    nodes[f := File(if f in nodes then nodes[f].links + 1 else 1)][p := nodes[p].(entries := nodes[p].entries[n := f])]
  }

  lemma TitledAt(nodes: Nodes, p: nat, n: Name, f: nat, q: nat, x: Name)
    requires IsDir(nodes, p) && (f in nodes ==> nodes[f].File?)
    ensures var r := Titled(nodes, p, n, f); Entry(r, q, x) == if (q, x) == (p, n) then Some(f) else Entry(nodes, q, x)
  {
  }

  lemma TitledNode(nodes: Nodes, p: nat, n: Name, f: nat)
    requires IsDir(nodes, p) && (f in nodes ==> nodes[f].File?)
    ensures var r := Titled(nodes, p, n, f);
            && r.Keys == nodes.Keys + {f} && r[f] == File(if f in nodes then nodes[f].links + 1 else 1)
            && IsDir(r, p) && r[p].up == nodes[p].up && r[p].links == nodes[p].links && forall i <- nodes ::
               i != p && i != f ==> r[i] == nodes[i]
  {
  }

  lemma TitledStep(nodes: Nodes, p: nat, n: Name, f: nat)
    requires Tree(nodes) && Nameable(n) && IsDir(nodes, p) && (f in nodes ==> nodes[f].File?)
             && Entry(nodes, p, n).None?
    ensures var e, r := Edit(p, n, Some(f), if f in nodes then {} else {f}, {}), Titled(nodes, p, n, f);
            Edited(nodes, r, e) && Tree(r)
  {
    TreeParts(nodes);
    hide Tree, EntriesOk, NamesOk, Rooted, LinksOk, Titled, Entry;
    hide Edited, Recounted, Fair;
    TitledEdited(nodes, p, n, f);
    TitledFair(nodes, p, n, f);
    TitledNode(nodes, p, n, f);
    EditedTree(nodes, Titled(nodes, p, n, f), Edit(p, n, Some(f), if f in nodes then {} else {f}, {}));
  }

  lemma TitledEdited(nodes: Nodes, p: nat, n: Name, f: nat)
    requires IsDir(nodes, p) && (f in nodes ==> nodes[f].File?)
    ensures Edited(nodes, Titled(nodes, p, n, f), Edit(p, n, Some(f), if f in nodes then {} else {f}, {}))
  {
    hide Titled, Entry;
    var r := Titled(nodes, p, n, f);
    TitledNode(nodes, p, n, f);
    forall q: nat, x: Name ensures Entry(r, q, x) == if (q, x) == (p, n) then Some(f) else Entry(nodes, q, x) {
      TitledAt(nodes, p, n, f, q, x);
    }
  }

  lemma TitledFair(nodes: Nodes, p: nat, n: Name, f: nat)
    requires Nameable(n) && IsDir(nodes, p) && IsDir(nodes, ROOT) && (f in nodes ==> nodes[f].File?)
             && Entry(nodes, p, n).None?
    ensures var e, r := Edit(p, n, Some(f), if f in nodes then {} else {f}, {}), Titled(nodes, p, n, f);
            Fair(nodes, r, e) && Recounted(nodes, r, e)
  {
    hide Titled, Entry;
    TitledNode(nodes, p, n, f);
  }

  // f loses the name n in p, and goes with its last name.
  function Untitled(nodes: Nodes, p: nat, n: Name, f: nat): Nodes
    requires IsDir(nodes, p) && f in nodes
  {
    var cut := nodes[p := nodes[p].(entries := nodes[p].entries - {n})];
    if nodes[f].links > 1 then cut[f := cut[f].(links := nodes[f].links - 1)] else cut - {f}
  }

  lemma UntitledAt(nodes: Nodes, p: nat, n: Name, f: nat, q: nat, x: Name)
    requires IsDir(nodes, p) && f in nodes && nodes[f].File?
    ensures var r := Untitled(nodes, p, n, f); Entry(r, q, x) == if (q, x) == (p, n) then None else Entry(nodes, q, x)
  {
  }

  lemma UntitledNode(nodes: Nodes, p: nat, n: Name, f: nat)
    requires IsDir(nodes, p) && f in nodes && nodes[f].File?
    ensures var r := Untitled(nodes, p, n, f);
            && r.Keys == (if nodes[f].links > 1 then nodes.Keys else nodes.Keys - {f})
               && (f in r ==> r[f] == File(nodes[f].links - 1))
            && IsDir(r, p) && r[p].up == nodes[p].up && r[p].links == nodes[p].links && forall i <- r ::
               i != p && i != f ==> r[i] == nodes[i]
  {
  }

  lemma UntitledStep(nodes: Nodes, p: nat, n: Name, f: nat)
    requires Tree(nodes) && Entry(nodes, p, n) == Some(f) && f in nodes && nodes[f].File?
    ensures IsDir(nodes, p)
    ensures var e, r := Edit(p, n, None, {}, if nodes[f].links > 1 then {} else {f}), Untitled(nodes, p, n, f);
            Edited(nodes, r, e) && Tree(r)
  {
    TreeParts(nodes);
    EntryFacts(nodes, p, n);
    hide Tree, EntriesOk, NamesOk, Rooted, LinksOk, Untitled, Entry;
    hide Edited, Recounted, Fair;
    UntitledEdited(nodes, p, n, f);
    UntitledFair(nodes, p, n, f);
    EditedTree(nodes, Untitled(nodes, p, n, f), Edit(p, n, None, {}, if nodes[f].links > 1 then {} else {f}));
  }

  lemma UntitledEdited(nodes: Nodes, p: nat, n: Name, f: nat)
    requires IsDir(nodes, p) && f in nodes && nodes[f].File?
    ensures Edited(nodes, Untitled(nodes, p, n, f), Edit(p, n, None, {}, if nodes[f].links > 1 then {} else {f}))
  {
    hide Untitled, Entry;
    var r := Untitled(nodes, p, n, f);
    UntitledNode(nodes, p, n, f);
    forall q: nat, x: Name ensures Entry(r, q, x) == if (q, x) == (p, n) then None else Entry(nodes, q, x) {
      UntitledAt(nodes, p, n, f, q, x);
    }
  }

  lemma UntitledFair(nodes: Nodes, p: nat, n: Name, f: nat)
    requires IsDir(nodes, p) && f in nodes && nodes[f].File? && Entry(nodes, p, n) == Some(f)
    ensures var e, r := Edit(p, n, None, {}, if nodes[f].links > 1 then {} else {f}), Untitled(nodes, p, n, f);
            Fair(nodes, r, e) && Recounted(nodes, r, e)
  {
    hide Untitled, Entry;
    UntitledNode(nodes, p, n, f);
  }

  lemma DropFacts(cache: Cache, p: nat, n: Name, d: nat)
    ensures var left := DropInode(DropKey(cache, p, n), d);
            left.Keys <= cache.Keys && (p, n) !in left && forall key <- left :: left[key] == cache[key] && key.0 != d
  {
  }

  lemma KeyDropped(cache: Cache, p: nat, n: Name)
    ensures var left := DropKey(cache, p, n);
            left.Keys <= cache.Keys && (p, n) !in left && forall key <- left :: left[key] == cache[key]
  {
  }

  lemma DirIn(nodes: Nodes, d: nat)
    requires IsDir(nodes, d)
    ensures d in nodes && nodes[d].Dir?
  {
  }

  lemma NodeIsDir(nodes: Nodes, d: nat)
    requires d in nodes
    ensures IsDir(nodes, d) <==> nodes[d].Dir?
  {
  }

  lemma DotsOnly(n: Name)
    ensures Dots(n) <==> n == "." || n == ".."
  {
  }

  lemma GrownSteps(nodes: Nodes, p: nat, n: Name, c: nat)
    requires IsDir(nodes, p) && c !in nodes
    ensures var a := nodes[c := Dir(map[], p, 2)];
            && IsDir(a, p) && p in Insert(a, p, n, c)
            && SetLinks(Insert(a, p, n, c), p, Insert(a, p, n, c)[p].links + 1) == Grown(nodes, p, n, c)
    ensures IsDir(Grown(nodes, p, n, c), c)
  {
  }

  lemma ShrunkSteps(nodes: Nodes, p: nat, n: Name, d: nat)
    requires IsDir(nodes, p)
    ensures var a := Remove(nodes, p, n); p in a && SetLinks(a, p, Lower(a[p].links)) - {d} == Shrunk(nodes, p, n, d)
  {
  }

  // The nodes once mkdir has added its directory.
  function Grown(nodes: Nodes, p: nat, n: Name, c: nat): Nodes
    requires IsDir(nodes, p)
  {
    nodes[c := Dir(map[], p, 2)][p := nodes[p].(entries := nodes[p].entries[n := c], links := nodes[p].links + 1)]
  }

  lemma GrownAt(nodes: Nodes, p: nat, n: Name, c: nat, q: nat, x: Name)
    requires IsDir(nodes, p) && c !in nodes
    ensures var r := Grown(nodes, p, n, c); Entry(r, q, x) == if (q, x) == (p, n) then Some(c) else Entry(nodes, q, x)
  {
  }

  lemma GrownNode(nodes: Nodes, p: nat, n: Name, c: nat)
    requires IsDir(nodes, p) && c !in nodes
    ensures var r := Grown(nodes, p, n, c);
            && r.Keys == nodes.Keys + {c} && r[c] == Dir(map[], p, 2)
            && IsDir(r, p) && r[p].up == nodes[p].up && r[p].links == nodes[p].links + 1
            && forall i <- nodes :: i != p ==> r[i] == nodes[i]
  {
  }

  lemma MkdirStep(nodes: Nodes, p: nat, n: Name, c: nat)
    requires Tree(nodes) && Nameable(n) && IsDir(nodes, p) && c !in nodes && Entry(nodes, p, n).None?
    ensures var e, r := Edit(p, n, Some(c), {c}, {}), Grown(nodes, p, n, c);
            Edited(nodes, r, e) && Fair(nodes, r, e) && Recounted(nodes, r, e) && c in r && r[c].Dir?
                && r[c].entries == map[]
  {
    TreeParts(nodes);
    hide Tree, EntriesOk, NamesOk, Rooted, LinksOk, Grown, Entry, Edited, Recounted;
    GrownNode(nodes, p, n, c);
    GrownEdited(nodes, p, n, c);
    GrownRecounted(nodes, p, n, c);
  }

  lemma GrownEdited(nodes: Nodes, p: nat, n: Name, c: nat)
    requires IsDir(nodes, p) && c !in nodes
    ensures Edited(nodes, Grown(nodes, p, n, c), Edit(p, n, Some(c), {c}, {}))
  {
    hide Grown, Entry;
    var r := Grown(nodes, p, n, c);
    GrownNode(nodes, p, n, c);
    forall q: nat, x: Name ensures Entry(r, q, x) == if (q, x) == (p, n) then Some(c) else Entry(nodes, q, x) {
      GrownAt(nodes, p, n, c, q, x);
    }
  }

  lemma GrownRecounted(nodes: Nodes, p: nat, n: Name, c: nat)
    requires IsDir(nodes, p) && c !in nodes
    ensures Recounted(nodes, Grown(nodes, p, n, c), Edit(p, n, Some(c), {c}, {}))
  {
    hide Grown, Entry;
    GrownNode(nodes, p, n, c);
  }

  // A directory that holds one has a link count above two.
  lemma HasSubdir(nodes: Nodes, p: nat, n: Name)
    requires Tree(nodes) && Entry(nodes, p, n).Some? && IsDir(nodes, Entry(nodes, p, n).value)
    ensures IsDir(nodes, p) && nodes[p].links > 2
  {
    hide Subdirs, EntriesOk, NamesOk, Rooted;
    IsSubdir(nodes, p, n);
    Without(Subdirs(nodes, p), n);
  }

  // The nodes once rmdir has taken the directory out.
  function Shrunk(nodes: Nodes, p: nat, n: Name, d: nat): Nodes
    requires IsDir(nodes, p)
  {
    nodes[p := nodes[p].(entries := nodes[p].entries - {n}, links := Lower(nodes[p].links))] - {d}
  }

  lemma ShrunkAt(nodes: Nodes, p: nat, n: Name, d: nat, q: nat, x: Name)
    requires IsDir(nodes, p) && IsDir(nodes, d) && nodes[d].entries == map[] && p != d
    ensures var r := Shrunk(nodes, p, n, d); Entry(r, q, x) == if (q, x) == (p, n) then None else Entry(nodes, q, x)
  {
  }

  lemma ShrunkNode(nodes: Nodes, p: nat, n: Name, d: nat)
    requires IsDir(nodes, p) && p != d
    ensures var r := Shrunk(nodes, p, n, d);
            && r.Keys == nodes.Keys - {d} && IsDir(r, p) && r[p].up == nodes[p].up
               && r[p].links == Lower(nodes[p].links)
            && forall i <- r :: i != p ==> r[i] == nodes[i]
  {
  }

  lemma RmdirStep(nodes: Nodes, p: nat, n: Name, d: nat)
    requires Tree(nodes) && Entry(nodes, p, n) == Some(d) && IsDir(nodes, d) && nodes[d].entries == map[]
    ensures IsDir(nodes, p) && p != d
    ensures var e, r := Edit(p, n, None, {}, {d}), Shrunk(nodes, p, n, d);
            Edited(nodes, r, e) && Fair(nodes, r, e) && Recounted(nodes, r, e)
  {
    HasSubdir(nodes, p, n);
    TreeParts(nodes);
    NotOwnChild(nodes, p, n, d);
    hide Tree, EntriesOk, NamesOk, Rooted, LinksOk, Entry, Shrunk, Ancestor;
    var e, r := Edit(p, n, None, {}, {d}), Shrunk(nodes, p, n, d);
    hide Edited, Recounted;
    ShrunkEdited(nodes, p, n, d);
    ShrunkRecounted(nodes, p, n, d);
  }

  lemma ShrunkEdited(nodes: Nodes, p: nat, n: Name, d: nat)
    requires IsDir(nodes, p) && IsDir(nodes, d) && nodes[d].entries == map[] && p != d
    ensures Edited(nodes, Shrunk(nodes, p, n, d), Edit(p, n, None, {}, {d}))
  {
    hide Entry, Shrunk;
    var r := Shrunk(nodes, p, n, d);
    ShrunkNode(nodes, p, n, d);
    forall q: nat, x: Name ensures Entry(r, q, x) == if (q, x) == (p, n) then None else Entry(nodes, q, x) {
      ShrunkAt(nodes, p, n, d, q, x);
    }
  }

  lemma ShrunkRecounted(nodes: Nodes, p: nat, n: Name, d: nat)
    requires IsDir(nodes, p) && IsDir(nodes, d) && p != d && Entry(nodes, p, n) == Some(d) && nodes[p].links > 2
    ensures Recounted(nodes, Shrunk(nodes, p, n, d), Edit(p, n, None, {}, {d}))
  {
    hide Entry, Shrunk;
    ShrunkNode(nodes, p, n, d);
  }

  // Dropping the name, and every answer about an inode that goes, keeps the cache right.
  lemma EditAgrees(nodes: Nodes, r: Nodes, e: Edit, cache: Cache, left: Cache)
    requires Tree(nodes) && Agrees(nodes, cache) && Edited(nodes, r, e) && !Dots(e.n)
    requires left.Keys <= cache.Keys && (e.p, e.n) !in left && forall key <- left ::
             left[key] == cache[key] && key.0 !in e.dead
    ensures Agrees(r, left)
  {
    hide Tree;
    forall key <- left
        ensures IsDir(nodes, key.0) ==> IsDir(r, key.0) && Lookup(r, key.0, key.1) == Lookup(nodes, key.0, key.1) {
      assert key.0 in nodes ==> key.0 in r;
      assert Entry(r, key.0, key.1) == if (key.0, key.1) == (e.p, e.n) then e.c else Entry(nodes, key.0, key.1);
    }
    AgreesAfter(nodes, r, cache, left);
  }
}
