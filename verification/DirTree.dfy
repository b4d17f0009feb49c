/**
 The directory tree of kernel/fs/ext2.c: what mkdir, rmdir, link, unlink and rename keep.  A
 directory's own entry "." is implicit and ".." is its field `up`.
 */
module DirTree {
  import opened Wrappers

  const ROOT: nat := 2
  const LINK_MAX: nat := 32000

  const NAME_LEN: nat := 255

  type Name = seq<char>

  // A name a directory entry may have, "." and ".." aside.
  predicate Nameable(n: Name) { 0 < |n| <= NAME_LEN && n != "." && n != ".." }

  datatype Node =
    | Dir(entries: map<Name, nat>, up: nat, links: nat)
    | File(links: nat)

  type Nodes = map<nat, Node>

  // dir_lookup, for any name but "." and ".."
  function Entry(nodes: Nodes, p: nat, n: Name): Option<nat> {
    if p in nodes && nodes[p].Dir? && n in nodes[p].entries then Some(nodes[p].entries[n]) else None
  }

  predicate IsDir(nodes: Nodes, d: nat) { d in nodes && nodes[d].Dir? }

  // ---------- what a tree is ----------

  // An entry has a proper name and names an inode that exists; a directory has one name, where its ".." points.
  ghost predicate EntryOk(nodes: Nodes, p: nat, n: Name)
    requires Entry(nodes, p, n).Some?
  {
    var c := Entry(nodes, p, n).value;
    Nameable(n) && c in nodes && c != ROOT
        && (nodes[c].Dir? ==> nodes[c].up == p && forall m :: Entry(nodes, p, m) == Some(c) ==> m == n)
  }

  ghost predicate EntriesOk(nodes: Nodes) { forall p, n :: Entry(nodes, p, n).Some? ==> EntryOk(nodes, p, n) }

  // Every directory but the root is found in the directory its ".." names.
  ghost predicate Named(nodes: Nodes, d: nat) {
    IsDir(nodes, d) && (d != ROOT ==> IsDir(nodes, nodes[d].up) && exists n :: Entry(nodes, nodes[d].up, n) == Some(d))
  }

  ghost predicate NamesOk(nodes: Nodes) { IsDir(nodes, ROOT) && forall d :: IsDir(nodes, d) ==> Named(nodes, d) }

  // Exactly k steps along ".." lead to the root.
  ghost predicate Away(nodes: Nodes, d: nat, k: nat)
    decreases k
  {
    if k == 0 then d == ROOT else d != ROOT && IsDir(nodes, d) && Away(nodes, nodes[d].up, k - 1)
  }

  ghost predicate Rooted(nodes: Nodes) { forall d :: IsDir(nodes, d) ==> exists k: nat :: Away(nodes, d, k) }

  // The names of the subdirectories of a directory, and the names of a file.
  ghost function Subdirs(nodes: Nodes, d: nat): set<Name>
    requires IsDir(nodes, d)
  {
    set n | n in nodes[d].entries && IsDir(nodes, nodes[d].entries[n])
  }

  ghost function Links(nodes: Nodes, f: nat): set<(nat, Name)> {
    set p, n | p in nodes && nodes[p].Dir? && n in nodes[p].entries && nodes[p].entries[n] == f :: (p, n)
  }

  ghost predicate LinksOk(nodes: Nodes) {
    forall i <- nodes ::
        if nodes[i].Dir? then nodes[i].links == 2 + |Subdirs(nodes, i)| else nodes[i].links == |Links(nodes, i)| > 0
  }

  ghost predicate Tree(nodes: Nodes) { EntriesOk(nodes) && NamesOk(nodes) && Rooted(nodes) && LinksOk(nodes) }

  // ---------- the way up ----------

  // The directories met on the way to the root.
  ghost function Chain(nodes: Nodes, d: nat, k: nat): set<nat>
    decreases k
  {
    if k == 0 || !IsDir(nodes, d) then {d} else {d} + Chain(nodes, nodes[d].up, k - 1)
  }

  lemma {:induction false} AwayUnique(nodes: Nodes, d: nat, j: nat, k: nat)
    requires Away(nodes, d, j) && Away(nodes, d, k)
    ensures j == k
    decreases k
  {
    if j > 0 && k > 0 { AwayUnique(nodes, nodes[d].up, j - 1, k - 1); }
  }

  // Every member of the way up is closer to the root, so the way has no repetition.
  lemma {:induction false} ChainCloser(nodes: Nodes, d: nat, k: nat, x: nat) returns (j: nat)
    requires Away(nodes, d, k) && x in Chain(nodes, d, k)
    ensures j <= k && Away(nodes, x, j)
    decreases k
  {
    if x == d { j := k; } else { j := ChainCloser(nodes, nodes[d].up, k - 1, x); }
  }

  lemma {:induction false} ChainSize(nodes: Nodes, d: nat, k: nat)
    requires Away(nodes, d, k) && IsDir(nodes, ROOT)
    ensures Chain(nodes, d, k) <= nodes.Keys && |Chain(nodes, d, k)| == k + 1
    decreases k
  {
    if k > 0 {
      var u := nodes[d].up;
      ChainSize(nodes, u, k - 1);
      if d in Chain(nodes, u, k - 1) {
        var j := ChainCloser(nodes, u, k - 1, d);
        AwayUnique(nodes, d, j, k);
      }
    }
  }

  // a is among the directories on the way from x to the root, k steps away.
  ghost predicate Above(nodes: Nodes, a: nat, x: nat, k: nat)
    decreases k
  {
    x == a || (k > 0 && IsDir(nodes, x) && Above(nodes, a, nodes[x].up, k - 1))
  }

  ghost predicate Ancestor(nodes: Nodes, a: nat, x: nat) { exists k: nat :: Away(nodes, x, k) && Above(nodes, a, x, k) }

  datatype Answer = Fine | Below | Lost

  /**
   check_not_ancestor: in a tree the walk always ends before its bound, and it refuses exactly
   when the moved directory lies on the way from the new parent to the root.
   */
  method CheckNotAncestor(nodes: Nodes, ancestor: nat, start: nat, inodes: nat) returns (r: Answer)
    requires Tree(nodes) && IsDir(nodes, start) && |nodes| <= inodes
    ensures !r.Lost?
    ensures r.Below? <==> Ancestor(nodes, ancestor, start)
  {
    hide *;
    TreeParts(nodes);
    ghost var k := WayUp(nodes, start);
    ghost var left := k;
    ChainSize(nodes, start, k);
    Sizes(Chain(nodes, start, k), nodes.Keys);
    AncestorIs(nodes, ancestor, start, k);
    var cur := start;
    var steps := 0;
    while steps < inodes
      invariant steps + left == k && Away(nodes, cur, left) && IsDir(nodes, cur)
      invariant Above(nodes, ancestor, start, k) <==> Above(nodes, ancestor, cur, left)
      decreases left
    {
      OneUp(nodes, ancestor, cur, left);
      if cur == ancestor { return Below; }
      if cur == ROOT { return Fine; }
      cur := nodes[cur].up;
      left := left - 1;
      steps := steps + 1;
    }
    r := Lost;
  }

  lemma WayUp(nodes: Nodes, d: nat) returns (k: nat)
    requires Rooted(nodes) && IsDir(nodes, d)
    ensures Away(nodes, d, k)
  {
    k :| Away(nodes, d, k);
  }

  lemma AncestorIs(nodes: Nodes, a: nat, x: nat, k: nat)
    requires Away(nodes, x, k)
    ensures Ancestor(nodes, a, x) <==> Above(nodes, a, x, k)
  {
    if Ancestor(nodes, a, x) {
      var j: nat :| Away(nodes, x, j) && Above(nodes, a, x, j);
      AwayUnique(nodes, x, j, k);
    }
  }

  lemma OneUp(nodes: Nodes, a: nat, x: nat, k: nat)
    requires NamesOk(nodes) && IsDir(nodes, x) && Away(nodes, x, k)
    ensures x == ROOT <==> k == 0
    ensures x == a ==> Above(nodes, a, x, k)
    ensures x == ROOT != a ==> !Above(nodes, a, x, k)
    ensures x != ROOT ==> IsDir(nodes, x) && nodes[x].Dir? && IsDir(nodes, nodes[x].up)
                          && Away(nodes, nodes[x].up, k - 1)
    ensures x != ROOT && x != a ==> (Above(nodes, a, x, k) <==> Above(nodes, a, nodes[x].up, k - 1))
  {
    assert Named(nodes, x);
  }

  lemma Sizes(a: set<nat>, b: set<nat>)
    requires a <= b
    ensures |a| <= |b|
  {
    assert b == a + (b - a);
  }

  lemma TreeParts(nodes: Nodes)
    requires Tree(nodes)
    ensures EntriesOk(nodes) && NamesOk(nodes) && Rooted(nodes) && LinksOk(nodes) && IsDir(nodes, ROOT)
  {
  }

  /** A fresh file system, with nothing but its root, is a tree. */
  lemma FreshTree()
    ensures Tree(map[ROOT := Dir(map[], ROOT, 2)])
  {
    var nodes: Nodes := map[ROOT := Dir(map[], ROOT, 2)];
    assert Away(nodes, ROOT, 0);
    assert Subdirs(nodes, ROOT) == {};
  }
}
