/**
 Any sequence of path lookups and directory changes on a mounted volume (kernel/fs/ext2.c over
 kernel/fs/dcache.c).
 */
module DirSession {
  import opened Wrappers
  import opened DirTree
  import opened DirMoves
  import opened DirEdits
  import opened Directories
  import opened DirRename

  // Directories and linked files are given by the inodes their paths resolved to.
  datatype Call =
    | Find(names: seq<Name>)
    | MakeDir(p: nat, n: Name, slot: Option<nat>, room: bool)
    | StoreFile(p: nat, n: Name, slot: Option<nat>, room: bool, regular: bool)
    | MakeLink(p: nat, n: Name, target: nat, blockSize: nat, slot: Option<nat>, room: bool)
    | AddName(p: nat, n: Name, f: nat, room: bool)
    | DropName(p: nat, n: Name)
    | DropDir(p: nat, n: Name)
    | MoveName(p: nat, n: Name, np: nat, nn: Name, room: bool)

  // An inode number the allocator gave is not in use.
  predicate Fresh(nodes: Nodes, slot: Option<nat>) { slot.Some? && slot.value !in nodes }

  // The calls that must change the tree.
  ghost predicate Succeeds(was: Nodes, c: Call) {
    !c.Find? && IsDir(was, c.p) &&
    match c
    case Find(_) => false
    case MakeDir(p, n, slot, room) => Vacant(was, p, n) && was[p].links < LINK_MAX && Fresh(was, slot) && room
    case StoreFile(p, n, slot, room, _) => Vacant(was, p, n) && Fresh(was, slot) && room
    case MakeLink(p, n, target, blockSize, slot, room) =>
      0 < target < blockSize && Vacant(was, p, n) && Fresh(was, slot) && room
    case AddName(p, n, f, room) => Linkable(was, f) && Vacant(was, p, n) && room
    case DropName(p, n) => NamesFile(was, p, n)
    case DropDir(p, n) => NamesEmptyDir(was, p, n)
    case MoveName(p, n, np, nn, room) =>
      IsDir(was, np) && Sets(was, p, n, np, nn) && !SameInode(was, p, n, np, nn)
      && (Takes(was, p, n, np, nn) || (Entry(was, np, nn).None? && room && !Crowded(was, p, n, np)))
  }

  // The one edit a call stands for.
  ghost predicate Does(was: Nodes, c: Call, now: Nodes) {
    match c
    case Find(_) => false
    case MakeDir(p, n, slot, _) => slot.Some? && Edited(was, now, Edit(p, n, slot, {slot.value}, {}))
                                   && IsDir(now, slot.value)
    case StoreFile(p, n, slot, _, _) => slot.Some? && Edited(was, now, Edit(p, n, slot, {slot.value}, {}))
    case MakeLink(p, n, _, _, slot, _) => slot.Some? && Edited(was, now, Edit(p, n, slot, {slot.value}, {}))
    case AddName(p, n, f, _) => Edited(was, now, Edit(p, n, Some(f), {}, {}))
    case DropName(p, n) => var f := Entry(was, p, n);
                           f.Some? && f.value in was
                           && Edited(was, now, Edit(p, n, None, {}, if was[f.value].links > 1 then {} else {f.value}))
    case DropDir(p, n) => var d := Entry(was, p, n); d.Some? && Edited(was, now, Edit(p, n, None, {}, {d.value}))
    case MoveName(p, n, np, nn, _) => Entry(was, p, n).Some?
                                      && Moved(was, now, Move(p, n, np, nn, Entry(was, p, n).value))
  }

  // A call that can succeed makes its edit, any other changes nothing.
  ghost predicate Follows(was: Nodes, c: Call, now: Nodes) {
    if Succeeds(was, c) then Does(was, c, now) else now == was
  }

  /**
   Whatever was called before, the inodes form a tree and a path leads through the cache to where
   the directories say it leads at that moment; a call whose conditions hold makes the edit it asks
   for, and any other call changes nothing.
   trees[k] is the volume before call k.
   */
  method Session(disk: Nodes, calls: seq<Call>) returns (trees: seq<Nodes>, spots: seq<Spot>)
    requires Tree(disk)
    ensures |trees| == |calls| + 1 && |spots| == |calls| && trees[0] == disk && forall k ::
            0 <= k <= |calls| ==> Tree(trees[k])
    ensures forall k :: 0 <= k < |calls| ==> Follows(trees[k], calls[k], trees[k + 1])
    ensures forall k :: 0 <= k < |calls| && calls[k].Find? ==> spots[k] == WalkFrom(trees[k], ROOT, calls[k].names)
  {
    hide *;
    var t := new FileTree.Mount(disk);
    trees, spots := [disk], [];
    for i := 0 to |calls|
      invariant fresh(t) && fresh(t.cache) && t.Valid()
      invariant |trees| == i + 1 && |spots| == i && trees[0] == disk && trees[i] == t.nodes && forall k ::
                0 <= k <= i ==> Tree(trees[k])
      invariant forall k :: 0 <= k < i ==> Follows(trees[k], calls[k], trees[k + 1])
      invariant forall k :: 0 <= k < i && calls[k].Find? ==> spots[k] == WalkFrom(trees[k], ROOT, calls[k].names)
    {
      var spot := Missing;
      if calls[i].Find? {
        spot := t.Walk(calls[i].names);
        Unchanged(t.nodes, calls[i]);
      } else {
        Change(t, calls[i]);
      }
      t.Parts();
      spots, trees := spots + [spot], trees + [t.nodes];
    }
  }

  lemma Unchanged(nodes: Nodes, c: Call)
    requires c.Find?
    ensures Follows(nodes, c, nodes)
  {
  }

  // A call on directories that are there; the others fail before they reach the tree.
  method Change(t: FileTree, c: Call)
    requires t.Valid() && !c.Find?
    modifies t`nodes, t.cache
    ensures t.Valid() && Follows(old(t.nodes), c, t.nodes)
  {
    hide FileTree.Valid, Edited, Moved, WalkFrom, Sinks, Nameable, Entry;
    if !IsDir(t.nodes, c.p) { return; }
    var s;
    match c
    case MakeDir(p, n, slot, room) => s := t.Mkdir(p, n, Given(t.nodes, slot), room);
    case StoreFile(p, n, slot, room, regular) => s := t.WriteFile(p, n, Given(t.nodes, slot), room, regular);
    case MakeLink(p, n, target, blockSize, slot, room) =>
      s := t.Symlink(p, n, target, blockSize, Given(t.nodes, slot), room);
    case AddName(p, n, f, room) => if f in t.nodes { s := t.Link(p, n, f, room); }
    case DropName(p, n) => s := t.Unlink(p, n);
    case DropDir(p, n) => s := t.Rmdir(p, n);
    case MoveName(p, n, np, nn, room) => if IsDir(t.nodes, np) { s := Rename(t, p, n, np, nn, |t.nodes|, room); }
  }

  function Given(nodes: Nodes, slot: Option<nat>): Option<nat> { if Fresh(nodes, slot) then slot else None }
}
