/**
 mkdir, rmdir and rename of kernel/fs/ext2.c keep the directories a tree with exact link counts.
 */
module DirMoves {
  import opened Wrappers
  import opened DirTree

  // ---------- facts about trees ----------

  lemma EntryFacts(nodes: Nodes, p: nat, n: Name)
    requires EntriesOk(nodes) && Entry(nodes, p, n).Some?
    ensures IsDir(nodes, p) && n in nodes[p].entries && Nameable(n)
    ensures var c := Entry(nodes, p, n).value; c in nodes && c != ROOT && (nodes[c].Dir? ==> nodes[c].up == p)
  {
    assert EntryOk(nodes, p, n);
  }

  // A directory has one name only.
  lemma OneName(nodes: Nodes, p: nat, n: Name, q: nat, m: Name)
    requires EntriesOk(nodes) && Entry(nodes, p, n).Some? && Entry(nodes, q, m) == Entry(nodes, p, n)
             && IsDir(nodes, Entry(nodes, p, n).value)
    ensures (p, n) == (q, m)
  {
    assert EntryOk(nodes, p, n) && EntryOk(nodes, q, m);
  }

  lemma Linked(nodes: Nodes, f: nat, p: nat, n: Name)
    ensures (p, n) in Links(nodes, f) <==> Entry(nodes, p, n) == Some(f)
  {
  }

  // A file with one link has one name only.
  lemma LastName(nodes: Nodes, f: nat, p: nat, n: Name, q: nat, m: Name)
    requires LinksOk(nodes) && f in nodes && nodes[f].File? && nodes[f].links <= 1
    requires Entry(nodes, p, n) == Some(f) && Entry(nodes, q, m) == Some(f)
    ensures (p, n) == (q, m)
  {
    hide Links;
    var names := Links(nodes, f);
    Linked(nodes, f, p, n);
    Linked(nodes, f, q, m);
    if (p, n) != (q, m) {
      Pair(names, (p, n), (q, m));
    }
  }

  lemma Pair<T>(s: set<T>, x: T, y: T)
    requires x in s && y in s && x != y
    ensures |s| >= 2
  {
    assert s == (s - {x, y}) + {x, y};
    assert |{x, y}| == 2;
  }

  // A directory is not below itself.
  lemma NotAboveParent(nodes: Nodes, d: nat, k: nat)
    requires Away(nodes, d, k) && k > 0
    ensures nodes[d].up != d && !Above(nodes, d, nodes[d].up, k - 1)
  {
    var u := nodes[d].up;
    var i: nat := k - 1;
    assert u == d ==> Above(nodes, d, u, i);
    if Above(nodes, d, u, i) {
      AboveChain(nodes, d, u, i);
      var j := ChainCloser(nodes, u, i, d);
      AwayUnique(nodes, d, j, k);
    }
  }

  lemma {:induction false} AboveChain(nodes: Nodes, a: nat, x: nat, k: nat)
    requires Above(nodes, a, x, k)
    ensures a in Chain(nodes, x, k)
    decreases k
  {
    if x != a { AboveChain(nodes, a, nodes[x].up, k - 1); }
  }

  lemma NotOwnChild(nodes: Nodes, p: nat, n: Name, c: nat)
    requires EntriesOk(nodes) && Rooted(nodes) && Entry(nodes, p, n) == Some(c) && IsDir(nodes, c)
    ensures c != p && !Ancestor(nodes, c, p)
  {
    EntryFacts(nodes, p, n);
    var k := WayUp(nodes, c);
    NotAboveParent(nodes, c, k);
    AncestorIs(nodes, c, p, k - 1);
  }

  // ---------- rename ----------

  datatype Move = Move(op: nat, on: Name, np: nat, nn: Name, src: nat)

  // What rename may count on once its checks have passed.
  ghost predicate Movable(nodes: Nodes, m: Move) {
    && Tree(nodes) && IsDir(nodes, m.np) && Entry(nodes, m.op, m.on) == Some(m.src) && Nameable(m.nn)
    && !Ancestor(nodes, m.src, m.np)
    && Replaceable(nodes, m)
  }

  // The target name is free, or names an inode of the same kind, empty if it is a directory.
  ghost predicate Replaceable(nodes: Nodes, m: Move) {
    Entry(nodes, m.np, m.nn).None? ||
    (&& Entry(nodes, m.np, m.nn).value in nodes && m.src in nodes && Entry(nodes, m.np, m.nn).value != m.src
     && IsDir(nodes, m.src) == IsDir(nodes, Entry(nodes, m.np, m.nn).value)
     && (nodes[Entry(nodes, m.np, m.nn).value].Dir? ==> nodes[Entry(nodes, m.np, m.nn).value].entries == map[]))
  }

  // The inode that goes away: a replaced directory, or a replaced file's last name.
  function Gone(nodes: Nodes, m: Move): set<nat> {
    var dst := Entry(nodes, m.np, m.nn);
    if dst.Some? && dst.value in nodes
        && (nodes[dst.value].Dir? || nodes[dst.value].links <= 1) then {dst.value} else {}
  }

  function NewLinks(nodes: Nodes, m: Move, i: nat): int
    requires i in nodes
  {
    var dst := Entry(nodes, m.np, m.nn);
    nodes[i].links
    - (if i == m.op && IsDir(nodes, m.src) then 1 else 0)
    + (if i == m.np && IsDir(nodes, m.src) then 1 else 0)
    - (if i == m.np && dst.Some? && IsDir(nodes, dst.value) then 1 else 0)
    - (if dst == Some(i) && nodes[i].File? then 1 else 0)
  }

  // The inodes after a rename, said pointwise.
  ghost predicate Moved(nodes: Nodes, r: Nodes, m: Move) {
    && r.Keys == nodes.Keys - Gone(nodes, m)
    && (forall p: nat, n: Name {:trigger Entry(r, p, n)} :: Entry(r, p, n) ==
          if (p, n) == (m.np, m.nn) then Some(m.src) else if (p, n) == (m.op, m.on) then None else Entry(nodes, p, n))
    && (forall i <- r :: (r[i].Dir? <==> nodes[i].Dir?) && r[i].links == NewLinks(nodes, m, i)
                         && (r[i].Dir? ==> r[i].up == if i == m.src then m.np else nodes[i].up))
  }

  // Who is involved, and that they are different.
  lemma MoveFacts(nodes: Nodes, m: Move)
    requires Movable(nodes, m)
    ensures IsDir(nodes, m.op) && m.src in nodes && m.src != ROOT && m.src != m.np
            && (IsDir(nodes, m.src) ==> nodes[m.src].up == m.op && m.src != m.op)
  {
    hide LinksOk, Links, Ancestor, Replaceable;
    EntryFacts(nodes, m.op, m.on);
    SelfAncestor(nodes, m.np);
    if IsDir(nodes, m.src) { NotOwnChild(nodes, m.op, m.on, m.src); }
  }

  lemma GoneFacts(nodes: Nodes, m: Move, d: nat)
    requires Movable(nodes, m) && d in Gone(nodes, m)
    ensures d in nodes && d != ROOT && d != m.src && d != m.np && d != m.op && Entry(nodes, m.np, m.nn) == Some(d)
    ensures nodes[d].Dir? ==> nodes[d].entries == map[] && nodes[d].up == m.np
    ensures nodes[d].File? ==> nodes[d].links <= 1
  {
    hide LinksOk, Links, Ancestor;
    MoveFacts(nodes, m);
    EntryFacts(nodes, m.np, m.nn);
    EntryFacts(nodes, m.op, m.on);
    if IsDir(nodes, d) { NotOwnChild(nodes, m.np, m.nn, d); }
  }

  // Nothing is left that names the inode that goes away, and it named nothing.
  lemma GoneName(nodes: Nodes, m: Move, d: nat, p: nat, n: Name)
    requires Movable(nodes, m) && d in Gone(nodes, m)
    ensures Entry(nodes, p, n) == Some(d) ==> (p, n) == (m.np, m.nn)
    ensures Entry(nodes, d, n).None?
  {
    hide Links, Ancestor, Gone;
    GoneFacts(nodes, m, d);
    if Entry(nodes, p, n) == Some(d) {
      if IsDir(nodes, d) { OneName(nodes, m.np, m.nn, p, n); } else { LastName(nodes, d, m.np, m.nn, p, n); }
    }
  }

  lemma SelfAncestor(nodes: Nodes, d: nat)
    requires Tree(nodes) && IsDir(nodes, d)
    ensures Ancestor(nodes, d, d)
  {
    var k := WayUp(nodes, d);
    assert Above(nodes, d, d, k);
  }

  lemma MovedEntry(nodes: Nodes, r: Nodes, m: Move, p: nat, n: Name)
    requires Movable(nodes, m) && Moved(nodes, r, m) && Entry(r, p, n).Some?
    ensures EntryOk(r, p, n)
  {
    hide LinksOk, NamesOk, Rooted, Movable, Gone, NewLinks;
    MovableTree(nodes, m);
    MoveFacts(nodes, m);
    var c := Entry(r, p, n).value;
    if m.src in Gone(nodes, m) { GoneFacts(nodes, m, m.src); }
    if (p, n) != (m.np, m.nn) {
      EntryFacts(nodes, p, n);
      if c in Gone(nodes, m) { GoneName(nodes, m, c, p, n); }
      if nodes[c].Dir? && c == m.src { OneName(nodes, m.op, m.on, p, n); }
    }
    forall x | Entry(r, p, x) == Some(c) && nodes[c].Dir? ensures x == n { MovedOneName(nodes, r, m, p, n, x); }
  }

  lemma MovedEntries(nodes: Nodes, r: Nodes, m: Move)
    requires Movable(nodes, m) && Moved(nodes, r, m)
    ensures EntriesOk(r)
  {
    hide EntryOk, Movable, Moved;
    forall p: nat, n: Name | Entry(r, p, n).Some? ensures EntryOk(r, p, n) { MovedEntry(nodes, r, m, p, n); }
  }

  lemma MovableTree(nodes: Nodes, m: Move)
    requires Movable(nodes, m)
    ensures EntriesOk(nodes) && NamesOk(nodes) && Rooted(nodes) && LinksOk(nodes) && IsDir(nodes, m.np)
            && Entry(nodes, m.op, m.on) == Some(m.src)
    ensures !Ancestor(nodes, m.src, m.np) && Nameable(m.nn)
  {
    hide LinksOk, Ancestor, Nameable;
  }

  lemma MovedOneName(nodes: Nodes, r: Nodes, m: Move, p: nat, n: Name, x: Name)
    requires EntriesOk(nodes) && Entry(nodes, m.op, m.on) == Some(m.src) && Moved(nodes, r, m)
    requires Entry(r, p, n).Some? && Entry(r, p, x) == Entry(r, p, n) && IsDir(nodes, Entry(r, p, n).value)
    ensures x == n
  {
    hide Gone, NewLinks;
    if n != x {
      if (p, n) == (m.np, m.nn) {
        OneName(nodes, m.op, m.on, p, x);
      } else if (p, x) == (m.np, m.nn) {
        OneName(nodes, m.op, m.on, p, n);
      } else {
        OneName(nodes, p, n, p, x);
      }
    }
  }

  // ---------- every directory keeps its name and its way up ----------

  lemma MovedNamed(nodes: Nodes, r: Nodes, m: Move, d: nat)
    requires Movable(nodes, m) && Moved(nodes, r, m) && IsDir(r, d)
    ensures Named(r, d)
  {
    hide LinksOk, Rooted, Movable, Gone, NewLinks;
    MovableTree(nodes, m);
    MoveFacts(nodes, m);
    if m.np in Gone(nodes, m) { GoneFacts(nodes, m, m.np); }
    if d == m.src {
      assert Entry(r, m.np, m.nn) == Some(d);
    } else if d != ROOT {
      assert Named(nodes, d);
      var u := nodes[d].up;
      var n :| Entry(nodes, u, n) == Some(d);
      if u in Gone(nodes, m) { GoneName(nodes, m, u, u, n); }
      if (u, n) == (m.np, m.nn) { DirGone(nodes, m, d); }
      assert Entry(r, u, n) == Some(d);
    }
  }

  // A directory that is replaced goes away.
  lemma DirGone(nodes: Nodes, m: Move, d: nat)
    requires Entry(nodes, m.np, m.nn) == Some(d) && IsDir(nodes, d)
    ensures d in Gone(nodes, m)
  {
  }

  // Away from the moved directory nothing changes on the way up.
  lemma {:induction false} SameWay(nodes: Nodes, r: Nodes, m: Move, x: nat, k: nat)
    requires Movable(nodes, m) && Moved(nodes, r, m) && Away(nodes, x, k) && !Above(nodes, m.src, x, k)
             && x !in Gone(nodes, m)
    ensures Away(r, x, k)
    decreases k
  {
    hide LinksOk, Rooted, Movable, Gone, NewLinks;
    MovableTree(nodes, m);
    if k > 0 {
      var u := nodes[x].up;
      assert Named(nodes, x);
      var n :| Entry(nodes, u, n) == Some(x);
      if u in Gone(nodes, m) { GoneName(nodes, m, u, u, n); }
      SameWay(nodes, r, m, u, k - 1);
    }
  }

  lemma MovedDir(nodes: Nodes, r: Nodes, m: Move, x: nat)
    requires Moved(nodes, r, m) && IsDir(nodes, x) && x !in Gone(nodes, m)
    ensures IsDir(r, x) && r[x].up == if x == m.src then m.np else nodes[x].up
  {
    hide Gone, NewLinks;
  }

  // The parent of a directory stays.
  lemma ParentStays(nodes: Nodes, m: Move, x: nat)
    requires Movable(nodes, m) && IsDir(nodes, x) && x != ROOT
    ensures IsDir(nodes, nodes[x].up) && nodes[x].up !in Gone(nodes, m)
  {
    hide LinksOk, Rooted, Movable, Gone;
    MovableTree(nodes, m);
    var u := nodes[x].up;
    assert Named(nodes, x);
    var n :| Entry(nodes, u, n) == Some(x);
    if u in Gone(nodes, m) { GoneName(nodes, m, u, u, n); }
  }

  lemma WayAt(nodes: Nodes, x: nat, k: nat)
    requires Away(nodes, x, k)
    ensures x == ROOT <==> k == 0
    ensures k > 0 ==> IsDir(nodes, x) && Away(nodes, nodes[x].up, k - 1)
  {
  }

  lemma WayFrom(nodes: Nodes, x: nat, k: nat)
    requires IsDir(nodes, x) && x != ROOT && Away(nodes, nodes[x].up, k)
    ensures Away(nodes, x, k + 1)
  {
  }

  // Below it the way leads through the new parent.
  lemma {:induction false} NewWay(nodes: Nodes, r: Nodes, m: Move, x: nat, k: nat) returns (j: nat)
    requires Movable(nodes, m) && Moved(nodes, r, m) && Away(nodes, x, k) && x !in Gone(nodes, m)
    ensures Away(r, x, j)
    decreases k
  {
    hide *;
    MovableTree(nodes, m);
    MoveFacts(nodes, m);
    WayAt(nodes, x, k);
    if !Above(nodes, m.src, x, k) {
      SameWay(nodes, r, m, x, k);
      j := k;
    } else if x == ROOT {
      RootAlone(nodes, m.src, k);
    } else {
      MovedDir(nodes, r, m, x);
      if x == m.src {
        var i := WayUp(nodes, m.np);
        AncestorIs(nodes, m.src, m.np, i);
        if m.np in Gone(nodes, m) { GoneFacts(nodes, m, m.np); }
        SameWay(nodes, r, m, m.np, i);
        j := i;
      } else {
        ParentStays(nodes, m, x);
        j := NewWay(nodes, r, m, nodes[x].up, k - 1);
      }
      WayFrom(r, x, j);
      j := j + 1;
    }
  }

  lemma RootAlone(nodes: Nodes, a: nat, k: nat)
    requires Away(nodes, ROOT, k) && a != ROOT
    ensures !Above(nodes, a, ROOT, k)
  {
  }

  lemma MovedRooted(nodes: Nodes, r: Nodes, m: Move)
    requires Movable(nodes, m) && Moved(nodes, r, m)
    ensures Rooted(r) && NamesOk(r)
  {
    hide LinksOk, Movable, Gone, NewLinks, Named;
    MovableTree(nodes, m);
    if ROOT in Gone(nodes, m) { GoneFacts(nodes, m, ROOT); }
    forall d | IsDir(r, d) ensures Named(r, d) { MovedNamed(nodes, r, m, d); }
    forall d | IsDir(r, d) ensures exists k: nat :: Away(r, d, k) {
      var k := WayUp(nodes, d);
      var j := NewWay(nodes, r, m, d, k);
    }
  }

  // ---------- link counts ----------

  lemma IsSubdir(nodes: Nodes, d: nat, n: Name)
    requires IsDir(nodes, d)
    ensures n in Subdirs(nodes, d) <==> Entry(nodes, d, n).Some? && IsDir(nodes, Entry(nodes, d, n).value)
  {
  }

  // One name may enter a set and one may leave it.
  lemma Exchange<T>(was: set<T>, now: set<T>, gone: T, came: T)
    requires forall x :: x != gone && x != came ==> (x in now <==> x in was)
    ensures gone != came ==> |now| == |was| - One(gone in was) - One(came in was) + One(gone in now) + One(came in now)
    ensures gone == came ==> |now| == |was| - One(came in was) + One(came in now)
  {
    var rest := was - {gone, came};
    assert now - {gone, came} == rest;
    Sized(was, rest, gone, came);
    Sized(now, rest, gone, came);
  }

  lemma Sized<T>(s: set<T>, rest: set<T>, a: T, b: T)
    requires rest == s - {a, b}
    ensures |s| == |rest| + One(a in s) + (if a == b then 0 else One(b in s))
  {
    var mid := s - {a};
    Without(s, a);
    Without(mid, b);
    assert rest == mid - {b};
  }

  lemma Without<T>(s: set<T>, a: T)
    ensures |s - {a}| == |s| - One(a in s)
  {
    if a in s { assert s == (s - {a}) + {a}; } else { assert s == s - {a}; }
  }

  function One(b: bool): int { if b then 1 else 0 }

  lemma MovedSubdirs(nodes: Nodes, r: Nodes, m: Move, d: nat)
    requires Movable(nodes, m) && Moved(nodes, r, m) && IsDir(r, d)
    ensures IsDir(nodes, d)
    ensures |Subdirs(r, d)| == |Subdirs(nodes, d)| - One(d == m.op && IsDir(nodes, m.src))
            + One(d == m.np && IsDir(nodes, m.src))
                               - One(d == m.np && Entry(nodes, m.np, m.nn).Some?
                                     && IsDir(nodes, Entry(nodes, m.np, m.nn).value))
  {
    hide LinksOk, Links, Rooted, NamesOk, Movable, Gone, NewLinks, Subdirs, EntriesOk;
    MovableTree(nodes, m);
    MoveFacts(nodes, m);
    var was, now := Subdirs(nodes, d), Subdirs(r, d);
    forall n ensures n in now <==> Entry(r, d, n).Some? && IsDir(nodes, Entry(r, d, n).value) {
      MovedKind(nodes, r, m, d, n);
    }
    forall n ensures n in was <==> Entry(nodes, d, n).Some? && IsDir(nodes, Entry(nodes, d, n).value) {
      IsSubdir(nodes, d, n);
    }
    NotSame(nodes, m);
    if d == m.np && d == m.op {
      Exchange(was, now, m.on, m.nn);
    } else if d == m.np {
      Exchange(was, now, m.nn, m.nn);
    } else if d == m.op {
      Exchange(was, now, m.on, m.on);
    } else {
      assert was == now;
    }
  }

  lemma MovedKind(nodes: Nodes, r: Nodes, m: Move, d: nat, n: Name)
    requires Movable(nodes, m) && Moved(nodes, r, m) && IsDir(r, d)
    ensures n in Subdirs(r, d) <==> Entry(r, d, n).Some? && IsDir(nodes, Entry(r, d, n).value)
  {
    hide Movable, Subdirs, Gone, NewLinks;
    IsSubdir(r, d, n);
    if Entry(r, d, n).Some? {
      MovedEntries(nodes, r, m);
      EntryFacts(r, d, n);
    }
  }

  lemma MovedLinks(nodes: Nodes, r: Nodes, m: Move, f: nat)
    requires Movable(nodes, m) && Moved(nodes, r, m) && f in r && r[f].File?
    ensures |Links(r, f)| == |Links(nodes, f)| - One(Entry(nodes, m.np, m.nn) == Some(f))
    ensures Entry(nodes, m.np, m.nn) == Some(f) ==> nodes[f].links > 1
  {
    hide LinksOk, Links, Rooted, NamesOk, Movable, NewLinks, EntriesOk;
    MovableTree(nodes, m);
    MoveFacts(nodes, m);
    var was, now := Links(nodes, f), Links(r, f);
    forall e: (nat, Name)
        ensures (e in was <==> Entry(nodes, e.0, e.1) == Some(f)) && (e in now <==> Entry(r, e.0, e.1) == Some(f)) {
      Linked(nodes, f, e.0, e.1);
      Linked(r, f, e.0, e.1);
    }
    NotSame(nodes, m);
    Exchange(was, now, (m.op, m.on), (m.np, m.nn));
  }

  lemma NotSame(nodes: Nodes, m: Move)
    requires Movable(nodes, m)
    ensures (m.op, m.on) != (m.np, m.nn) && Entry(nodes, m.np, m.nn) != Some(m.src)
  {
    hide Tree, Ancestor;
  }

  lemma MovedCounts(nodes: Nodes, r: Nodes, m: Move)
    requires Movable(nodes, m) && Moved(nodes, r, m)
    ensures LinksOk(r)
  {
    hide Links, Subdirs, Rooted, NamesOk, Movable, EntriesOk, Gone;
    MovableTree(nodes, m);
    MoveFacts(nodes, m);
    forall i <- r ensures if r[i].Dir? then r[i].links == 2 + |Subdirs(r, i)| else r[i].links == |Links(r, i)| > 0 {
      if r[i].Dir? { MovedSubdirs(nodes, r, m, i); } else { MovedLinks(nodes, r, m, i); }
    }
  }

  /** A rename that passed its checks keeps the tree. */
  lemma MovedTree(nodes: Nodes, r: Nodes, m: Move)
    requires Movable(nodes, m) && Moved(nodes, r, m)
    ensures Tree(r)
  {
    hide EntriesOk, NamesOk, Rooted, LinksOk, Movable, Moved;
    MovedEntries(nodes, r, m);
    MovedRooted(nodes, r, m);
    MovedCounts(nodes, r, m);
  }
}
