/**
 ext2_rename of kernel/fs/ext2.c, step by step, and what it adds up to.
 */
module DirRename {
  import opened Wrappers
  import opened DirTree
  import opened DirMoves
  import opened DentryLink
  import opened Directories

  predicate Moves(nodes: Nodes, m: Move) { IsDir(nodes, m.src) && m.op != m.np }

  function Target(nodes: Nodes, m: Move): Option<nat> { Entry(nodes, m.np, m.nn) }

  // Who is who, and who they cannot be.
  ghost predicate Cast(nodes: Nodes, m: Move) {
    && IsDir(nodes, m.op) && IsDir(nodes, m.np) && m.src in nodes && m.src != m.np
       && Entry(nodes, m.op, m.on) == Some(m.src)
    && (IsDir(nodes, m.src) ==> m.src != m.op && nodes[m.op].links > 2 && nodes[m.src].up == m.op)
    && (m.op, m.on) != (m.np, m.nn)
    && (Target(nodes, m).Some? ==> Replaced(nodes, m, Target(nodes, m).value))
  }

  ghost predicate Replaced(nodes: Nodes, m: Move, d: nat)
    requires m.src in nodes && m.np in nodes
  {
    && d in nodes && d != m.src && d != m.np && d != m.op && nodes[d].Dir? == nodes[m.src].Dir?
    && (nodes[d].Dir? ==> nodes[m.np].links > 2 && nodes[d].entries == map[])
  }

  // The new name in, the old name out.
  function Relinked(nodes: Nodes, m: Move): Nodes
    requires IsDir(nodes, m.np) && IsDir(nodes, m.op)
  {
    Remove(Insert(nodes, m.np, m.nn, m.src), m.op, m.on)
  }

  // ".." and the parents' link counts
  function Reparented(nodes: Nodes, m: Move, replace: bool): Nodes
    requires IsDir(nodes, m.src) && m.op in nodes && m.np in nodes
  {
    var a := nodes[m.src := nodes[m.src].(up := m.np)];
    var b := SetLinks(a, m.op, Lower(a[m.op].links));
    if replace then b else SetLinks(b, m.np, b[m.np].links + 1)
  }

  // The replaced inode
  function Dropped(nodes: Nodes, d: nat): Nodes
    requires d in nodes
  {
    if nodes[d].Dir? || nodes[d].links <= 1 then nodes - {d} else SetLinks(nodes, d, nodes[d].links - 1)
  }

  // The state before the replaced inode is dropped.
  function Counted(nodes: Nodes, m: Move): Nodes
    requires IsDir(nodes, m.np) && IsDir(nodes, m.op) && m.src in nodes
  {
    var dst := Target(nodes, m);
    var a := Relinked(nodes, m);
    var b := if Moves(nodes, m) then Reparented(a, m, dst.Some?) else a;
    if dst.Some? && IsDir(nodes, dst.value) && !Moves(nodes, m) then SetLinks(b, m.np, Lower(b[m.np].links)) else b
  }

  function Renamed(nodes: Nodes, m: Move): Nodes
    requires IsDir(nodes, m.np) && IsDir(nodes, m.op) && m.src in nodes
  {
    var dst := Target(nodes, m);
    var c := Counted(nodes, m);
    if dst.Some? && dst.value in c then Dropped(c, dst.value) else c
  }

  lemma RelinkedAt(nodes: Nodes, m: Move, p: nat, n: Name)
    requires Cast(nodes, m)
    ensures Entry(Relinked(nodes, m), p, n) ==
            if (p, n) == (m.np, m.nn) then Some(m.src) else if (p, n) == (m.op, m.on) then None else Entry(nodes, p, n)
  {
  }

  // The same names, links and parents aside.
  ghost predicate SameNames(a: Nodes, b: Nodes) {
    a.Keys == b.Keys && forall i <- a :: (a[i].Dir? <==> b[i].Dir?) && (a[i].Dir? ==> a[i].entries == b[i].entries)
  }

  lemma RelinkedNode(nodes: Nodes, m: Move)
    requires Cast(nodes, m)
    ensures var r := Relinked(nodes, m);
            r.Keys == nodes.Keys && forall i <- nodes ::
                (r[i].Dir? <==> nodes[i].Dir?) && r[i].links == nodes[i].links && (r[i].Dir? ==> r[i].up == nodes[i].up)
  {
  }

  lemma CountedNames(nodes: Nodes, m: Move)
    requires Cast(nodes, m)
    ensures SameNames(Relinked(nodes, m), Counted(nodes, m))
  {
    hide Relinked;
    RelinkedNode(nodes, m);
  }

  lemma CountedNode(nodes: Nodes, m: Move, i: nat)
    requires Cast(nodes, m) && i in nodes
    ensures var r := Counted(nodes, m);
            && i in r && (r[i].Dir? <==> nodes[i].Dir?)
               && (r[i].Dir? ==> r[i].up == if i == m.src then m.np else nodes[i].up)
            && r[i].links == nodes[i].links - (if i == m.op && IsDir(nodes, m.src) then 1 else 0)
               + (if i == m.np && IsDir(nodes, m.src) then 1 else 0)
                             - (if i == m.np && Target(nodes, m).Some?
                                && IsDir(nodes, Target(nodes, m).value) then 1 else 0)
  {
    hide Relinked;
    RelinkedNode(nodes, m);
  }

  lemma EntrySame(a: Nodes, b: Nodes, p: nat, n: Name)
    requires SameNames(a, b)
    ensures Entry(a, p, n) == Entry(b, p, n)
  {
  }

  lemma DroppedAt(nodes: Nodes, d: nat, p: nat, n: Name)
    requires d in nodes && (nodes[d].Dir? ==> nodes[d].entries == map[])
    ensures Entry(Dropped(nodes, d), p, n) == Entry(nodes, p, n)
  {
  }

  lemma RenamedIs(nodes: Nodes, m: Move)
    requires Cast(nodes, m)
    ensures Counted(nodes, m).Keys == nodes.Keys
    ensures Renamed(nodes, m) ==
            if Target(nodes, m).Some? then Dropped(Counted(nodes, m), Target(nodes, m).value) else Counted(nodes, m)
  {
    hide Relinked;
    RelinkedNode(nodes, m);
  }

  lemma RenamedAt(nodes: Nodes, m: Move, p: nat, n: Name)
    requires Cast(nodes, m)
    ensures Entry(Renamed(nodes, m), p, n) ==
            if (p, n) == (m.np, m.nn) then Some(m.src) else if (p, n) == (m.op, m.on) then None else Entry(nodes, p, n)
  {
    hide Relinked, Counted, Renamed, Entry, Dropped;
    RenamedIs(nodes, m);
    RelinkedAt(nodes, m, p, n);
    CountedNames(nodes, m);
    EntrySame(Relinked(nodes, m), Counted(nodes, m), p, n);
    if Target(nodes, m).Some? {
      var d := Target(nodes, m).value;
      TargetEmpty(nodes, m, d);
      DroppedAt(Counted(nodes, m), d, p, n);
    }
  }

  lemma TargetEmpty(nodes: Nodes, m: Move, d: nat)
    requires Cast(nodes, m) && Target(nodes, m) == Some(d)
    ensures d in Counted(nodes, m) && (Counted(nodes, m)[d].Dir? ==> Counted(nodes, m)[d].entries == map[])
  {
    CountedNames(nodes, m);
    hide Counted;
    assert d in Relinked(nodes, m) && (nodes[d].Dir? ==> Relinked(nodes, m)[d].entries == map[]);
  }

  /** The steps of ext2_rename add up to one move of a name. */
  lemma RenamedMoves(nodes: Nodes, m: Move)
    requires Cast(nodes, m)
    ensures Moved(nodes, Renamed(nodes, m), m)
  {
    hide Relinked, Counted, Renamed, Entry;
    RenamedIs(nodes, m);
    var r := Renamed(nodes, m);
    forall p: nat, n: Name ensures Entry(r, p, n) ==
        if (p, n) == (m.np, m.nn) then Some(m.src) else if (p, n) == (m.op, m.on) then None else Entry(nodes, p, n) {
          RenamedAt(nodes, m, p, n);
        }
    forall i <- nodes ensures i in Counted(nodes, m) && (Counted(nodes, m)[i].Dir? <==> nodes[i].Dir?)
      && (Counted(nodes, m)[i].Dir? ==> Counted(nodes, m)[i].up == if i == m.src then m.np else nodes[i].up)
      && Counted(nodes, m)[i].links == nodes[i].links - (if i == m.op && IsDir(nodes, m.src) then 1 else 0)
         + (if i == m.np && IsDir(nodes, m.src) then 1 else 0)
                             - (if i == m.np && Target(nodes, m).Some?
                                && IsDir(nodes, Target(nodes, m).value) then 1 else 0)
    {
      CountedNode(nodes, m, i);
    }
  }

  // ---------- the cache ----------

  function Uncached(cache: Cache, m: Move, moves: bool): Cache {
    var a := DropKey(DropKey(cache, m.np, m.nn), m.op, m.on);
    if moves then DropKey(a, m.src, "..") else a
  }

  lemma RenameAgrees(nodes: Nodes, r: Nodes, m: Move, cache: Cache, left: Cache)
    requires Cast(nodes, m) && Moved(nodes, r, m) && Agrees(nodes, cache)
    requires left.Keys <= Uncached(cache, m, Moves(nodes, m)).Keys && forall key <- left ::
             left[key] == cache[key] && key.0 !in Gone(nodes, m)
    ensures Agrees(r, left)
  {
    hide Gone, NewLinks, Agrees;
    forall key <- left
        ensures left[key] == cache[key]
                && (IsDir(nodes, key.0) ==> IsDir(r, key.0) && Lookup(r, key.0, key.1) == Lookup(nodes, key.0, key.1)) {
      if IsDir(nodes, key.0) { LookupSame(nodes, r, m, cache, key.0, key.1); }
    }
    AgreesAfter(nodes, r, cache, left);
  }

  lemma LookupSame(nodes: Nodes, r: Nodes, m: Move, cache: Cache, p: nat, n: Name)
    requires Cast(nodes, m) && Moved(nodes, r, m) && (p, n) in Uncached(cache, m, Moves(nodes, m))
             && p !in Gone(nodes, m) && IsDir(nodes, p)
    ensures IsDir(r, p) && Lookup(r, p, n) == Lookup(nodes, p, n)
  {
    hide Gone, NewLinks;
    assert Entry(r, p, n) == Entry(nodes, p, n);
  }

  // ---------- the call ----------

  lemma CastFrom(nodes: Nodes, m: Move)
    requires Movable(nodes, m)
    ensures Cast(nodes, m)
  {
    hide Links, Ancestor, EntriesOk, NamesOk, Rooted, LinksOk;
    MoveFacts(nodes, m);
    NotSame(nodes, m);
    MovableTree(nodes, m);
    if IsDir(nodes, m.src) { HasSubdir(nodes, m.op, m.on); }
    if Target(nodes, m).Some? {
      var d := Target(nodes, m).value;
      EntryFacts(nodes, m.np, m.nn);
      if IsDir(nodes, d) {
        HasSubdir(nodes, m.np, m.nn);
        NotOwnChild(nodes, m.np, m.nn, d);
        EntryFacts(nodes, m.op, m.on);
      }
    }
  }

  // Both names lead to one inode.
  predicate SameInode(nodes: Nodes, op: nat, on: Name, np: nat, nn: Name) {
    Entry(nodes, op, on).Some? && Entry(nodes, np, nn) == Entry(nodes, op, on)
  }

  // A directory would move to another one that lies below it.
  ghost predicate Sinks(nodes: Nodes, op: nat, on: Name, np: nat) {
    NamesDir(nodes, op, on) && op != np && Ancestor(nodes, Entry(nodes, op, on).value, np)
  }

  // Usable names, something to rename, and not below itself.
  ghost predicate Sets(nodes: Nodes, op: nat, on: Name, np: nat, nn: Name) {
    Nameable(nn) && Entry(nodes, op, on).Some? && !Sinks(nodes, op, on, np)
  }

  // What has the new name may be replaced: the same inode, a file by a file, an empty directory by a directory.
  predicate Takes(nodes: Nodes, op: nat, on: Name, np: nat, nn: Name) {
    || SameInode(nodes, op, on, np, nn)
    || (NamesFile(nodes, op, on) && NamesFile(nodes, np, nn))
    || (NamesDir(nodes, op, on) && NamesEmptyDir(nodes, np, nn))
  }

  // The new parent can take no more subdirectories, and would get one.
  predicate Crowded(nodes: Nodes, op: nat, on: Name, np: nat) {
    IsDir(nodes, np) && NamesDir(nodes, op, on) && op != np && nodes[np].links >= LINK_MAX
  }

  lemma Outcomes(nodes: Nodes, op: nat, on: Name, np: nat, nn: Name)
    requires IsDir(nodes, np)
    ensures SameInode(nodes, op, on, np, nn) <==>
            Entry(nodes, op, on).Some? && Entry(nodes, np, nn) == Entry(nodes, op, on)
    ensures Sinks(nodes, op, on, np) <==>
            NamesDir(nodes, op, on) && op != np && Ancestor(nodes, Entry(nodes, op, on).value, np)
    ensures Sets(nodes, op, on, np, nn) <==>
            Nameable(nn) && Entry(nodes, op, on).Some? && !Sinks(nodes, op, on, np)
    ensures Takes(nodes, op, on, np, nn) <==>
            SameInode(nodes, op, on, np, nn) || (NamesFile(nodes, op, on) && NamesFile(nodes, np, nn))
            || (NamesDir(nodes, op, on) && NamesEmptyDir(nodes, np, nn))
    ensures Crowded(nodes, op, on, np) <==> NamesDir(nodes, op, on) && op != np && nodes[np].links >= LINK_MAX
  {
    hide Ancestor, NamesDir, NamesFile, NamesEmptyDir, Nameable, Entry;
  }

  /**
   ext2_rename: the source's name moves, an empty directory or a file at the target goes, and
   nothing else changes; a directory is refused exactly when it would move below itself, and every
   other refusal exactly when its own condition holds.
   */
  method Rename(t: FileTree, op: nat, on: Name, np: nat, nn: Name, inodes: nat, room: bool) returns (s: Status)
    requires t.Valid() && IsDir(t.nodes, op) && IsDir(t.nodes, np) && |t.nodes| <= inodes
    modifies t`nodes, t.cache
    ensures t.Valid()
    ensures s != Ok || SameInode(old(t.nodes), op, on, np, nn) ==> t.nodes == old(t.nodes)
    ensures s == Ok && !SameInode(old(t.nodes), op, on, np, nn) ==>
              Entry(old(t.nodes), op, on).Some?
              && Moved(old(t.nodes), t.nodes, Move(op, on, np, nn, Entry(old(t.nodes), op, on).value))
    ensures s == Ok <==> Sets(old(t.nodes), op, on, np, nn)
                         && (Takes(old(t.nodes), op, on, np, nn)
                             || (Entry(old(t.nodes), np, nn).None? && room && !Crowded(old(t.nodes), op, on, np)))
    ensures s == EBUSY <==> on == "" || nn == ""
    ensures s == EINVAL <==> on != "" && nn != ""
                             && (Dots(on) || Dots(nn) || |nn| > NAME_LEN || Sinks(old(t.nodes), op, on, np))
    ensures s == ENOENT <==> !Reserved(on) && Nameable(nn) && Entry(old(t.nodes), op, on).None?
    ensures s == ENOTDIR <==> Sets(old(t.nodes), op, on, np, nn) && NamesDir(old(t.nodes), op, on)
                              && NamesFile(old(t.nodes), np, nn)
    ensures s == EISDIR <==> Sets(old(t.nodes), op, on, np, nn) && NamesFile(old(t.nodes), op, on)
                             && NamesDir(old(t.nodes), np, nn)
    ensures s == ENOTEMPTY <==> Sets(old(t.nodes), op, on, np, nn) && NamesDir(old(t.nodes), op, on)
                                && NamesDir(old(t.nodes), np, nn) && !NamesEmptyDir(old(t.nodes), np, nn)
                                && !SameInode(old(t.nodes), op, on, np, nn)
    ensures s == EMLINK <==> Sets(old(t.nodes), op, on, np, nn) && Entry(old(t.nodes), np, nn).None?
                             && Crowded(old(t.nodes), op, on, np)
    ensures s == ENOSPC <==> Sets(old(t.nodes), op, on, np, nn) && Entry(old(t.nodes), np, nn).None?
                             && !Crowded(old(t.nodes), op, on, np) && !room
  {
    hide *;
    var nodes := t.nodes;
    t.Parts();
    DotsIs(on, nn);
    DotsOnly(on);
    DotsOnly(nn);
    DirIn(nodes, np);
    NamesFacts(nodes, op, on);
    NamesFacts(nodes, np, nn);
    NameableIs(nn);
    Outcomes(nodes, op, on, np, nn);
    if on == "" || nn == "" { return EBUSY; }
    if HasDots(on, nn) || |nn| > NAME_LEN { return EINVAL; }
    var found := Entry(nodes, op, on);
    if found.None? { return ENOENT; }
    var src := found.value;
    TreeParts(nodes);
    EntryFacts(nodes, op, on);
    var m := Move(op, on, np, nn, src);
    var srcDir, moves := nodes[src].Dir?, nodes[src].Dir? && op != np;
    MovesIs(nodes, m);
    if moves {
      var up := CheckNotAncestor(nodes, src, np, inodes);
      if up.Below? { return EINVAL; }
    }
    var target := Entry(nodes, np, nn);
    if target.Some? {
      var dst := target.value;
      EntryFacts(nodes, np, nn);
      if dst == src { return Ok; }
      if srcDir && !nodes[dst].Dir? { return ENOTDIR; }
      if !srcDir && nodes[dst].Dir? { return EISDIR; }
      if srcDir && nodes[dst].entries != map[] { return ENOTEMPTY; }
    } else {
      if moves && nodes[np].links >= LINK_MAX { return EMLINK; }
      if !room { return ENOSPC; }
    }
    ReplaceableFrom(nodes, m);
    MovableFrom(nodes, m);
    CastFrom(nodes, m);
    RenamedMoves(nodes, m);
    ghost var r := Renamed(nodes, m);
    MovedTree(nodes, r, m);
    CarryOut(t, m, moves);
    RenameAgrees(nodes, r, m, old(t.Known()), t.Known());
    RenameChanged(nodes, r, m);
    t.Whole();
    s := Ok;
  }

  // The changes, in the order of the source.
  method CarryOut(t: FileTree, m: Move, moves: bool)
    requires t.cache.Valid() && Cast(t.nodes, m) && moves == Moves(t.nodes, m)
    modifies t`nodes, t.cache
    ensures t.cache.Valid() && t.nodes == Renamed(old(t.nodes), m)
    ensures t.Known().Keys <= Uncached(old(t.Known()), m, moves).Keys
    ensures forall key <- t.Known() ::
            key in old(t.Known()) && t.Known()[key] == old(t.Known())[key] && key.0 !in Gone(old(t.nodes), m)
  {
    hide *;
    ghost var was, known := t.nodes, t.Known();
    RelinkedNode(was, m);
    RenamedIs(was, m);
    CastFacts(was, m);
    var dst := Target(t.nodes, m);
    var dstDir := dst.Some? && IsDir(t.nodes, dst.value);
    CountedIs(was, m, moves, dst, dstDir);
    UncachedIs(known, m, moves);
    UncachedKeeps(known, m, moves);
    t.Forget(m.np, m.nn);
    t.Forget(m.op, m.on);
    t.nodes := Relinked(t.nodes, m);
    if moves {
      t.Forget(m.src, "..");
      t.nodes := Reparented(t.nodes, m, dst.Some?);
    }
    if dstDir && !moves { t.nodes := SetLinks(t.nodes, m.np, Lower(t.nodes[m.np].links)); }
    assert t.Known() == Uncached(known, m, moves);
    var gone := dst.Some? && (t.nodes[dst.value].Dir? || t.nodes[dst.value].links <= 1);
    GoneIs(was, m, gone);
    if gone {
      DropKeeps(t.Known(), dst.value);
      t.ForgetInode(dst.value);
    }
    if dst.Some? { t.nodes := Dropped(t.nodes, dst.value); }
  }

  lemma UncachedIs(cache: Cache, m: Move, moves: bool)
    ensures var a := DropKey(DropKey(cache, m.np, m.nn), m.op, m.on);
            Uncached(cache, m, moves) == if moves then DropKey(a, m.src, "..") else a
  {
  }

  lemma CountedIs(nodes: Nodes, m: Move, moves: bool, dst: Option<nat>, dstDir: bool)
    requires Cast(nodes, m) && moves == Moves(nodes, m) && dst == Target(nodes, m)
             && dstDir == (dst.Some? && IsDir(nodes, dst.value))
    ensures var a := Relinked(nodes, m);
            && IsDir(nodes, m.np) && IsDir(nodes, m.op) && m.np in a && m.op in a && (moves ==> IsDir(a, m.src))
            && Counted(nodes, m) == if moves then Reparented(a, m, dst.Some?)
                                                  else if dstDir then SetLinks(a, m.np, Lower(a[m.np].links)) else a
  {
    hide Relinked;
    RelinkedNode(nodes, m);
  }

  lemma CastFacts(nodes: Nodes, m: Move)
    requires Cast(nodes, m)
    ensures IsDir(nodes, m.op) && IsDir(nodes, m.np) && m.src in nodes
            && (Target(nodes, m).Some? ==>
                  Target(nodes, m).value in nodes && Target(nodes, m).value in Counted(nodes, m))
  {
    RenamedIs(nodes, m);
  }

  lemma UncachedKeeps(cache: Cache, m: Move, moves: bool)
    ensures forall key <- Uncached(cache, m, moves) :: key in cache && Uncached(cache, m, moves)[key] == cache[key]
  {
  }

  lemma DropKeeps(cache: Cache, i: nat)
    ensures DropInode(cache, i).Keys <= cache.Keys && forall key <- DropInode(cache, i) ::
            DropInode(cache, i)[key] == cache[key] && key.0 != i
  {
  }

  lemma GoneIs(nodes: Nodes, m: Move, gone: bool)
    requires Cast(nodes, m)
    requires gone == (Target(nodes, m).Some? && Target(nodes, m).value in Counted(nodes, m)
                      && (Counted(nodes, m)[Target(nodes, m).value].Dir?
                          || Counted(nodes, m)[Target(nodes, m).value].links <= 1))
    ensures Gone(nodes, m) == if gone then {Target(nodes, m).value} else {}
  {
    if Target(nodes, m).Some? { TargetLinks(nodes, m, Target(nodes, m).value); }
  }

  lemma TargetLinks(nodes: Nodes, m: Move, d: nat)
    requires Cast(nodes, m) && Target(nodes, m) == Some(d)
    ensures var r := Counted(nodes, m); d in r && r[d].links == nodes[d].links && (r[d].Dir? <==> nodes[d].Dir?)
  {
    CountedNode(nodes, m, d);
  }

  predicate HasDots(a: Name, b: Name) { Dots(a) || Dots(b) }

  lemma MovesIs(nodes: Nodes, m: Move)
    requires m.src in nodes
    ensures Moves(nodes, m) <==> nodes[m.src].Dir? && m.op != m.np
    ensures IsDir(nodes, m.src) <==> nodes[m.src].Dir?
  {
  }

  lemma DotsIs(a: Name, b: Name)
    ensures HasDots(a, b) <==> Dots(a) || Dots(b)
  {
  }

  lemma ReplaceableFrom(nodes: Nodes, m: Move)
    requires m.src in nodes
    requires Entry(nodes, m.np, m.nn).Some? ==> var d := Entry(nodes, m.np, m.nn).value;
               d in nodes && d != m.src && nodes[d].Dir? == nodes[m.src].Dir?
                   && (nodes[d].Dir? ==> nodes[d].entries == map[])
    ensures Replaceable(nodes, m)
  {
  }

  // Only directories are on the way up.
  lemma {:induction false} FileNotAbove(nodes: Nodes, f: nat, x: nat, k: nat)
    requires Away(nodes, x, k) && !IsDir(nodes, f) && IsDir(nodes, ROOT)
    ensures !Above(nodes, f, x, k)
    decreases k
  {
    if k > 0 { FileNotAbove(nodes, f, nodes[x].up, k - 1); }
  }

  lemma MovableFrom(nodes: Nodes, m: Move)
    requires Tree(nodes) && IsDir(nodes, m.np) && Entry(nodes, m.op, m.on) == Some(m.src) && Replaceable(nodes, m)
             && Nameable(m.nn)
    requires Moves(nodes, m) ==> !Ancestor(nodes, m.src, m.np)
    ensures Movable(nodes, m)
  {
    hide Ancestor, Replaceable;
    TreeParts(nodes);
    if IsDir(nodes, m.src) {
      if m.op == m.np { NotOwnChild(nodes, m.op, m.on, m.src); }
    } else {
      var k := WayUp(nodes, m.np);
      FileNotAbove(nodes, m.src, m.np, k);
      AncestorIs(nodes, m.src, m.np, k);
    }
  }

  lemma RenameChanged(nodes: Nodes, r: Nodes, m: Move)
    requires Cast(nodes, m) && Moved(nodes, r, m)
    ensures r != nodes
  {
    assert Entry(r, m.op, m.on) == None;
  }
}
