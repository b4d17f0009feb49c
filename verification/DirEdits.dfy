/**
 Adding and removing one name: mkdir, rmdir, create, link and unlink of kernel/fs/ext2.c.
 */
module DirEdits {
  import opened Wrappers
  import opened DirTree
  import opened DirMoves

  // The name n of directory p comes to mean c, or nothing.
  datatype Edit = Edit(p: nat, n: Name, c: Option<nat>, born: set<nat>, dead: set<nat>)

  // The inode whose name is added or removed.
  function Subject(nodes: Nodes, e: Edit): Option<nat> { if e.c.Some? then e.c else Entry(nodes, e.p, e.n) }

  ghost predicate Edited(nodes: Nodes, r: Nodes, e: Edit) {
    && r.Keys == nodes.Keys + e.born - e.dead
    && (forall p: nat, n: Name {:trigger Entry(r, p, n)} ::
        Entry(r, p, n) == if (p, n) == (e.p, e.n) then e.c else Entry(nodes, p, n))
    && (forall i <- r :: i in nodes ==> (r[i].Dir? <==> nodes[i].Dir?) && (r[i].Dir? ==> r[i].up == nodes[i].up))
  }

  // A name is added to a new inode or to a file, or removed from a file or an empty directory that goes away.
  ghost predicate Fair(nodes: Nodes, r: Nodes, e: Edit) {
    && IsDir(nodes, e.p) && e.born !! nodes.Keys
    && (e.c.Some? ==> Nameable(e.n) && Entry(nodes, e.p, e.n).None? && e.c.value in r && e.c.value != ROOT
                      && e.born <= {e.c.value} && e.dead == {}
                      && (r[e.c.value].Dir? ==> e.c.value in e.born && r[e.c.value].up == e.p))
    && (e.c.None? ==> Entry(nodes, e.p, e.n).Some? && e.born == {} && e.dead <= {Entry(nodes, e.p, e.n).value}
                      && Leaves(nodes, e))
  }

  ghost predicate Leaves(nodes: Nodes, e: Edit)
    requires Entry(nodes, e.p, e.n).Some?
  {
    var d := Entry(nodes, e.p, e.n).value;
    d in nodes && if nodes[d].Dir? then d in e.dead
                                        && nodes[d].entries == map[] else (d in e.dead <==> nodes[d].links <= 1)
  }

  ghost predicate Recounted(nodes: Nodes, r: Nodes, e: Edit) {
    var sign := if e.c.Some? then 1 else -1;
    forall i <- r ::
      r[i].links == (if i in nodes then nodes[i].links else if r[i].Dir? then 2 else 0)
                    + (if i == e.p && Subject(nodes, e).Some?
                       && (IsDir(nodes, Subject(nodes, e).value) || IsDir(r, Subject(nodes, e).value)) then sign else 0)
                    + (if Subject(nodes, e) == Some(i) && r[i].File? then sign else 0)
  }

  lemma DeadFacts(nodes: Nodes, r: Nodes, e: Edit, d: nat, p: nat, n: Name)
    requires Tree(nodes) && Fair(nodes, r, e) && d in e.dead
    ensures e.c.None? && Entry(nodes, e.p, e.n) == Some(d) && d != ROOT && d != e.p
    ensures Entry(nodes, p, n) == Some(d) ==> (p, n) == (e.p, e.n)
    ensures Entry(nodes, d, n).None?
  {
    hide Links, EntryOk;
    EntryFacts(nodes, e.p, e.n);
    if IsDir(nodes, d) {
      NotOwnChild(nodes, e.p, e.n, d);
      if Entry(nodes, p, n) == Some(d) { OneName(nodes, e.p, e.n, p, n); }
    } else {
      if Entry(nodes, p, n) == Some(d) { LastName(nodes, d, e.p, e.n, p, n); }
    }
  }

  // Nothing names an inode that does not exist yet.
  lemma BornFacts(nodes: Nodes, p: nat, n: Name, c: nat)
    requires EntriesOk(nodes) && c !in nodes
    ensures Entry(nodes, p, n) != Some(c)
  {
    hide EntryOk;
    if Entry(nodes, p, n) == Some(c) { EntryFacts(nodes, p, n); }
  }

  lemma EditedEntry(nodes: Nodes, r: Nodes, e: Edit, p: nat, n: Name)
    requires Tree(nodes) && Edited(nodes, r, e) && Fair(nodes, r, e) && Entry(r, p, n).Some?
    ensures EntryOk(r, p, n)
  {
    hide Tree, Leaves;
    TreeParts(nodes);
    hide LinksOk, NamesOk, Rooted, EntriesOk;
    var c := Entry(r, p, n).value;
    if (p, n) == (e.p, e.n) {
      if c in e.born {
        forall x | x != n ensures Entry(r, p, x) != Some(c) { BornFacts(nodes, p, x, c); }
      }
    } else {
      EntryFacts(nodes, p, n);
      if c in e.dead { DeadFacts(nodes, r, e, c, p, n); }
      forall x | Entry(r, p, x) == Some(c) && nodes[c].Dir? ensures x == n {
        if (p, x) != (e.p, e.n) { OneName(nodes, p, n, p, x); }
      }
    }
  }

  lemma EditedNamed(nodes: Nodes, r: Nodes, e: Edit, d: nat)
    requires Tree(nodes) && Edited(nodes, r, e) && Fair(nodes, r, e) && IsDir(r, d)
    ensures Named(r, d)
  {
    hide Tree;
    TreeParts(nodes);
    hide LinksOk, Rooted, EntriesOk;
    if e.p in e.dead { DeadFacts(nodes, r, e, e.p, e.p, e.n); }
    if d in nodes {
      if d != ROOT {
        assert Named(nodes, d);
        var u := nodes[d].up;
        var n :| Entry(nodes, u, n) == Some(d);
        if u in e.dead { DeadFacts(nodes, r, e, u, u, n); }
        assert Entry(r, u, n) == Some(d);
      }
    } else {
      assert Entry(r, e.p, e.n) == Some(d);
    }
  }

  lemma StillUp(nodes: Nodes, r: Nodes, e: Edit, x: nat)
    requires Edited(nodes, r, e) && x !in e.dead && IsDir(nodes, x)
    ensures IsDir(r, x) && r[x].up == nodes[x].up
  {
  }

  lemma NameOf(nodes: Nodes, x: nat) returns (n: Name)
    requires NamesOk(nodes) && IsDir(nodes, x) && x != ROOT
    ensures Entry(nodes, nodes[x].up, n) == Some(x)
  {
    assert Named(nodes, x);
    n :| Entry(nodes, nodes[x].up, n) == Some(x);
  }

  lemma {:induction false} EditedWay(nodes: Nodes, r: Nodes, e: Edit, x: nat, k: nat)
    requires Tree(nodes) && Edited(nodes, r, e) && Fair(nodes, r, e) && Away(nodes, x, k) && x !in e.dead
    ensures Away(r, x, k)
    decreases k
  {
    hide Tree, Edited, Fair, EntryOk, Named, Leaves;
    TreeParts(nodes);
    hide LinksOk, Rooted, EntriesOk, NamesOk;
    if k > 0 {
      StillUp(nodes, r, e, x);
      var u := nodes[x].up;
      var n := NameOf(nodes, x);
      if u in e.dead { DeadFacts(nodes, r, e, u, u, n); }
      EditedWay(nodes, r, e, u, k - 1);
    }
  }

  lemma EditedRooted(nodes: Nodes, r: Nodes, e: Edit)
    requires Tree(nodes) && Edited(nodes, r, e) && Fair(nodes, r, e)
    ensures EntriesOk(r) && NamesOk(r) && Rooted(r)
  {
    hide Tree, EntryOk, Named, Leaves;
    TreeParts(nodes);
    hide LinksOk, EntriesOk;
    if ROOT in e.dead { DeadFacts(nodes, r, e, ROOT, e.p, e.n); }
    if e.p in e.dead { DeadFacts(nodes, r, e, e.p, e.p, e.n); }
    forall p: nat, n: Name | Entry(r, p, n).Some? ensures EntryOk(r, p, n) { EditedEntry(nodes, r, e, p, n); }
    forall d | IsDir(r, d) ensures Named(r, d) { EditedNamed(nodes, r, e, d); }
    forall d | IsDir(r, d) ensures exists k: nat :: Away(r, d, k) {
      if d in nodes {
        var k := WayUp(nodes, d);
        EditedWay(nodes, r, e, d, k);
      } else {
        var k := WayUp(nodes, e.p);
        EditedWay(nodes, r, e, e.p, k);
        WayFrom(r, d, k);
      }
    }
    assert EntriesFrom(r);
    EntriesFromOk(r);
  }

  ghost predicate EntriesFrom(nodes: Nodes) {
    forall p: nat, n: Name :: Entry(nodes, p, n).Some? ==> EntryOk(nodes, p, n)
  }

  lemma EntriesFromOk(nodes: Nodes)
    requires EntriesFrom(nodes)
    ensures EntriesOk(nodes)
  {
    hide EntryOk;
  }

  // ---------- link counts ----------

  lemma EditedSubdirs(nodes: Nodes, r: Nodes, e: Edit, d: nat)
    requires Tree(nodes) && Edited(nodes, r, e) && Fair(nodes, r, e) && EntriesOk(r) && IsDir(r, d) && d in nodes
    ensures var s := Subject(nodes, e);
            |Subdirs(r, d)| == |Subdirs(nodes, d)|
                + (if d == e.p && s.Some?
                   && (IsDir(nodes, s.value) || IsDir(r, s.value)) then if e.c.Some? then 1 else -1 else 0)
  {
    hide Tree, Subdirs, Leaves, EntriesOk;
    TreeParts(nodes);
    hide LinksOk, NamesOk, Rooted;
    var was, now := Subdirs(nodes, d), Subdirs(r, d);
    forall n | (d, n) != (e.p, e.n) ensures n in now <==> n in was { EditedKind(nodes, r, e, d, n); }
    if d == e.p {
      IsSubdir(nodes, d, e.n);
      IsSubdir(r, d, e.n);
      Exchange(was, now, e.n, e.n);
      if e.c.Some? && e.c.value !in e.born { BornOnly(nodes, r, e); }
    } else {
      assert was == now;
    }
  }

  lemma BornOnly(nodes: Nodes, r: Nodes, e: Edit)
    requires Edited(nodes, r, e) && Fair(nodes, r, e) && e.c.Some? && e.c.value !in e.born
    ensures !IsDir(r, e.c.value) && !IsDir(nodes, e.c.value)
  {
    hide Leaves;
  }

  lemma EditedKind(nodes: Nodes, r: Nodes, e: Edit, d: nat, n: Name)
    requires EntriesOk(nodes) && EntriesOk(r) && Edited(nodes, r, e) && IsDir(nodes, d) && IsDir(r, d)
             && (d, n) != (e.p, e.n)
    ensures n in Subdirs(r, d) <==> n in Subdirs(nodes, d)
  {
    hide Subdirs, EntriesOk;
    IsSubdir(nodes, d, n);
    IsSubdir(r, d, n);
    if Entry(nodes, d, n).Some? {
      EntryFacts(nodes, d, n);
      EntryFacts(r, d, n);
    }
  }

  lemma EditedLinks(nodes: Nodes, r: Nodes, e: Edit, f: nat)
    requires Tree(nodes) && Edited(nodes, r, e) && Fair(nodes, r, e) && f in r && r[f].File?
    ensures |Links(r, f)| == (if f in nodes then |Links(nodes, f)| else 0)
            + (if Subject(nodes, e) == Some(f) then if e.c.Some? then 1 else -1 else 0)
    ensures f !in nodes ==> e.c == Some(f)
    ensures e.c.None? && Subject(nodes, e) == Some(f) ==> nodes[f].links > 1
  {
    hide Tree, Links;
    TreeParts(nodes);
    hide LinksOk, NamesOk, Rooted;
    var was, now := Links(nodes, f), Links(r, f);
    forall x: (nat, Name)
        ensures (x in was <==> Entry(nodes, x.0, x.1) == Some(f)) && (x in now <==> Entry(r, x.0, x.1) == Some(f)) {
      Linked(nodes, f, x.0, x.1);
      Linked(r, f, x.0, x.1);
    }
    Exchange(was, now, (e.p, e.n), (e.p, e.n));
    if f !in nodes {
      forall x: (nat, Name) ensures x !in was { BornFacts(nodes, x.0, x.1, f); }
      assert was == {};
    }
  }

  /** Adding or removing one name in these ways keeps the tree. */
  lemma EditedTree(nodes: Nodes, r: Nodes, e: Edit)
    requires Tree(nodes) && Edited(nodes, r, e) && Fair(nodes, r, e) && Recounted(nodes, r, e)
    requires forall b <- e.born :: b in r && (r[b].Dir? ==> r[b].entries == map[])
    ensures Tree(r)
  {
    hide Tree, EntriesOk, NamesOk, Rooted, Links, Subdirs, Leaves;
    TreeParts(nodes);
    EditedRooted(nodes, r, e);
    forall i <- r ensures if r[i].Dir? then r[i].links == 2 + |Subdirs(r, i)| else r[i].links == |Links(r, i)| > 0 {
      if r[i].File? {
        EditedLinks(nodes, r, e, i);
      } else if i in nodes {
        EditedSubdirs(nodes, r, e, i);
      } else {
        NoSubdirs(r, i);
        BornNotParent(nodes, r, e, i);
      }
    }
    TreeFrom(r);
  }

  lemma BornNotParent(nodes: Nodes, r: Nodes, e: Edit, i: nat)
    requires Fair(nodes, r, e) && i !in nodes
    ensures i != e.p
  {
  }

  lemma NoSubdirs(nodes: Nodes, d: nat)
    requires IsDir(nodes, d) && nodes[d].entries == map[]
    ensures Subdirs(nodes, d) == {}
  {
  }

  lemma TreeFrom(nodes: Nodes)
    requires EntriesOk(nodes) && NamesOk(nodes) && Rooted(nodes) && LinksOk(nodes)
    ensures Tree(nodes)
  {
  }
}
