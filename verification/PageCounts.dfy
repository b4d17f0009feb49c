/**
 The frames of a table tree counted against its flat map: which pages are owned, how many there are,
 and what it means that every frame is used once (kernel/mm/paging64.c).
 */
module PageCounts {
  import opened PageTables

  const USER_ENTRIES: nat := 256

  // The frames a process owns: pages it may use, and the tables that lead to them.
  function OwnedLeaf(x: Leaf): multiset<nat> { if x.Page? then multiset{x.frame} else multiset{} }

  function PagesPd(e: Entry<Leaf>): multiset<nat> { if e.Table? then Sum(e.kids, OwnedLeaf) else multiset{} }

  function PagesPdpt(e: Entry<Entry<Leaf>>): multiset<nat> { if e.Table? then Sum(e.kids, PagesPd) else multiset{} }

  function PagesPml4(e: Entry<Entry<Entry<Leaf>>>): multiset<nat> {
    if e.Table? then Sum(e.kids, PagesPdpt) else multiset{}
  }

  function TablesPd(e: Entry<Leaf>): multiset<nat> { if e.Table? then multiset{e.frame} else multiset{} }

  function TablesPdpt(e: Entry<Entry<Leaf>>): multiset<nat> {
    if e.Table? then multiset{e.frame} + Sum(e.kids, TablesPd) else multiset{}
  }

  function TablesPml4(e: Entry<Entry<Entry<Leaf>>>): multiset<nat> {
    if e.Table? then multiset{e.frame} + Sum(e.kids, TablesPdpt) else multiset{}
  }

  // Of the user half of a tree.
  function PagesOf(root: Pml4): multiset<nat>
    requires |root| == ENTRIES
  {
    Sum(root[..USER_ENTRIES], PagesPml4)
  }

  function TablesOf(root: Pml4): multiset<nat>
    requires |root| == ENTRIES
  {
    Sum(root[..USER_ENTRIES], TablesPml4)
  }

  // ---------- sums over a table ----------

  lemma {:induction false} SumHas<T(!new)>(s: seq<T>, f: T -> multiset<nat>, x: nat)
    ensures x in Sum(s, f) <==> exists i :: 0 <= i < |s| && x in f(s[i])
  {
    if s != [] {
      var last := |s| - 1;
      SumHas(s[..last], f, x);
      assert forall i :: 0 <= i < last ==> s[..last][i] == s[i];
      if x in Sum(s[..last], f) {
        var i :| 0 <= i < last && x in f(s[..last][i]);
        assert x in f(s[i]);
      }
    }
  }

  lemma {:induction false} SumPrefix<T(!new)>(s: seq<T>, f: T -> multiset<nat>, n: nat)
    requires n <= |s|
    ensures Sum(s[..n], f) <= Sum(s, f)
  {
    if n == |s| {
      assert s[..n] == s;
    } else {
      assert s[..|s| - 1][..n] == s[..n];
      SumPrefix(s[..|s| - 1], f, n);
    }
  }

  lemma {:induction false} SumBelow<T(!new)>(s: seq<T>, f: T -> multiset<nat>, g: T -> multiset<nat>,
      h: T -> multiset<nat>)
    requires forall i :: 0 <= i < |s| ==> f(s[i]) + g(s[i]) <= h(s[i])
    ensures Sum(s, f) + Sum(s, g) <= Sum(s, h)
  {
    if s != [] {
      var last := |s| - 1;
      assert forall i :: 0 <= i < last ==> s[..last][i] == s[i];
      SumBelow(s[..last], f, g, h);
      assert f(s[last]) + g(s[last]) <= h(s[last]);
    }
  }

  // ---------- owned pages and the flat map ----------

  function Compose(i: nat, j: nat, k: nat, l: nat): nat { i * PDPT_PAGES + j * PD_PAGES + k * ENTRIES + l }

  lemma ComposeDigits(i: nat, j: nat, k: nat, l: nat)
    requires j < ENTRIES && k < ENTRIES && l < ENTRIES
    ensures var g := Compose(i, j, k, l); I(g) == i && J(g) == j && K(g) == k && L(g) == l
  {
    var g, high, middle := Compose(i, j, k, l), i * ENTRIES + j, (i * ENTRIES + j) * ENTRIES + k;
    assert g == high * PD_PAGES + (k * ENTRIES + l) && g / PD_PAGES == high;
    assert g == middle * ENTRIES + l && g / ENTRIES == middle;
    assert high % ENTRIES == j && middle % ENTRIES == k;
  }

  predicate On(x: Leaf, f: nat) { x.Page? && x.frame == f }

  lemma OnPt(pt: Pt, f: nat)
    ensures f in Sum(pt, OwnedLeaf) <==> exists l: nat :: l < |pt| && On(pt[l], f)
  {
    SumHas(pt, OwnedLeaf, f);
    hide Sum;
    if l: nat :| l < |pt| && On(pt[l], f) { assert f in OwnedLeaf(pt[l]); }
    if l :| 0 <= l < |pt| && f in OwnedLeaf(pt[l]) { assert On(pt[l], f); }
  }

  lemma OnPd(e: Entry<Leaf>, f: nat)
    requires PdOk(e)
    ensures f in PagesPd(e) <==> exists l: nat :: l < ENTRIES && On(AtPd(e, l), f)
  {
    hide Sum;
    if e.Table? {
      OnPt(e.kids, f);
      if l: nat :| l < |e.kids| && On(e.kids[l], f) { assert On(AtPd(e, l), f); }
      if l: nat :| l < ENTRIES && On(AtPd(e, l), f) { assert On(e.kids[l], f); }
    }
  }

  lemma OnPdpt(e: Entry<Entry<Leaf>>, f: nat)
    requires PdptOk(e)
    ensures f in PagesPdpt(e) <==> exists k: nat, l: nat :: k < ENTRIES && l < ENTRIES && On(AtPdpt(e, k, l), f)
  {
    hide Sum, PagesPd;
    if e.Table? {
      SumHas(e.kids, PagesPd, f);
      if k :| 0 <= k < |e.kids| && f in PagesPd(e.kids[k]) {
        OnPd(e.kids[k], f);
        var l: nat :| l < ENTRIES && On(AtPd(e.kids[k], l), f);
        assert On(AtPdpt(e, k, l), f);
      }
      if k: nat, l: nat :| k < ENTRIES && l < ENTRIES && On(AtPdpt(e, k, l), f) {
        assert On(AtPd(e.kids[k], l), f);
        OnPd(e.kids[k], f);
      }
    }
  }

  lemma OnPml4(e: Entry<Entry<Entry<Leaf>>>, f: nat)
    requires Pml4Ok(e)
    ensures f in PagesPml4(e) <==>
              exists j: nat, k: nat, l: nat :: j < ENTRIES && k < ENTRIES && l < ENTRIES && On(AtPml4(e, j, k, l), f)
  {
    hide Sum, PagesPdpt, PdptOk;
    if e.Table? {
      SumHas(e.kids, PagesPdpt, f);
      if j :| 0 <= j < |e.kids| && f in PagesPdpt(e.kids[j]) {
        OnPdpt(e.kids[j], f);
        var k: nat, l: nat :| k < ENTRIES && l < ENTRIES && On(AtPdpt(e.kids[j], k, l), f);
        assert On(AtPml4(e, j, k, l), f);
      }
      if j: nat, k: nat, l: nat :| j < ENTRIES && k < ENTRIES && l < ENTRIES && On(AtPml4(e, j, k, l), f) {
        assert On(AtPdpt(e.kids[j], k, l), f);
        OnPdpt(e.kids[j], f);
      }
    }
  }

  /** The frames that destroying releases as pages are those the flat map owns below the user top. */
  lemma OwnedIffMapped(root: Pml4, f: nat)
    requires Ok(root)
    ensures f in PagesOf(root) <==> exists g: nat :: g < USER_PAGES && On(At(root, g), f)
  {
    var half := root[..USER_ENTRIES];
    SumHas(half, PagesPml4, f);
    hide Sum, PagesPml4, Pml4Ok;
    if i :| 0 <= i < |half| && f in PagesPml4(half[i]) {
      OnPml4(root[i], f);
      var j: nat, k: nat, l: nat :| j < ENTRIES && k < ENTRIES && l < ENTRIES && On(AtPml4(root[i], j, k, l), f);
      ComposeDigits(i, j, k, l);
      assert On(At(root, Compose(i, j, k, l)), f);
    }
    if g: nat :| g < USER_PAGES && On(At(root, g), f) {
      assert On(AtPml4(root[I(g)], J(g), K(g), L(g)), f);
      OnPml4(root[I(g)], f);
      assert half[I(g)] == root[I(g)];
    }
  }

  // ---------- how many ----------

  // The indices that G picks below each element, side by side at distance m.
  ghost function Flat<T(!new)>(s: seq<T>, G: T -> set<nat>, m: nat): set<nat> {
    if s == [] then {} else Flat(s[..|s| - 1], G, m) + Shifted(G(s[|s| - 1]), (|s| - 1) * m)
  }

  ghost function Shifted(a: set<nat>, d: nat): set<nat> { set y | y in a :: y + d }

  lemma {:induction false} ShiftedSize(a: set<nat>, d: nat)
    ensures |Shifted(a, d)| == |a|
  {
    if a != {} {
      var x :| x in a;
      ShiftedSize(a - {x}, d);
      assert a == (a - {x}) + {x};
      assert Shifted(a, d) == Shifted(a - {x}, d) + {x + d} by {
        forall z ensures z in Shifted(a, d) <==> z in Shifted(a - {x}, d) + {x + d} {
          if y :| y in a && y + d == z { assert y == x || y in a - {x}; }
        }
      }
      assert x + d !in Shifted(a - {x}, d);
    }
  }

  // Every index stays inside its span.
  ghost predicate Within<T(!new)>(s: seq<T>, G: T -> set<nat>, m: nat) {
    forall t, z :: 0 <= t < |s| && z in G(s[t]) ==> z < m
  }

  lemma WithinPrefix<T(!new)>(s: seq<T>, G: T -> set<nat>, m: nat)
    requires s != [] && Within(s, G, m)
    ensures Within(s[..|s| - 1], G, m)
  {
    var front := s[..|s| - 1];
    forall t, z | 0 <= t < |front| && z in G(front[t]) ensures z < m { assert z in G(s[t]); }
  }

  lemma {:induction false} FlatHas<T(!new)>(s: seq<T>, G: T -> set<nat>, m: nat, i: nat, y: nat)
    requires y < m && Within(s, G, m)
    ensures i * m + y in Flat(s, G, m) <==> i < |s| && y in G(s[i])
  {
    if s != [] {
      var last := |s| - 1;
      WithinPrefix(s, G, m);
      FlatHas(s[..last], G, m, i, y);
      if i < last { Apart(i, last, m, y); }
      if i * m + y in Shifted(G(s[last]), last * m) {
        var z :| z in G(s[last]) && z + last * m == i * m + y;
        Unpair(i, y, last, z, m);
      }
      if i == last && y in G(s[last]) { assert y + last * m in Shifted(G(s[last]), last * m); }
    }
  }

  lemma Apart(i: nat, last: nat, m: nat, y: nat)
    requires y < m && i < last
    ensures i * m + y < last * m
  {
    assert (i + 1) * m <= last * m;
  }

  lemma Unpair(i: nat, y: nat, t: nat, z: nat, m: nat)
    requires y < m && z < m && i * m + y == t * m + z
    ensures i == t && y == z
  {
    if i < t { Apart(i, t, m, y); } else if t < i { Apart(t, i, m, z); }
  }

  lemma {:induction false} FlatBelow<T(!new)>(s: seq<T>, G: T -> set<nat>, m: nat, x: nat)
    requires x in Flat(s, G, m) && Within(s, G, m)
    ensures x < |s| * m
  {
    var last := |s| - 1;
    WithinPrefix(s, G, m);
    if x in Flat(s[..last], G, m) {
      FlatBelow(s[..last], G, m, x);
    } else {
      var z :| z in G(s[last]) && z + last * m == x;
    }
  }

  lemma FlatAt<T(!new)>(s: seq<T>, G: T -> set<nat>, m: nat, x: nat)
    requires m > 0 && Within(s, G, m)
    ensures x in Flat(s, G, m) <==> x / m < |s| && x % m in G(s[x / m])
  {
    FlatHas(s, G, m, x / m, x % m);
    assert x / m * m + x % m == x;
  }

  lemma {:induction false} FlatSize<T(!new)>(s: seq<T>, f: T -> multiset<nat>, G: T -> set<nat>, m: nat)
    requires Within(s, G, m)
    requires forall t :: 0 <= t < |s| ==> |f(s[t])| == |G(s[t])|
    ensures |Sum(s, f)| == |Flat(s, G, m)|
  {
    if s != [] {
      var last := |s| - 1;
      WithinPrefix(s, G, m);
      forall t | 0 <= t < last ensures |f(s[..last][t])| == |G(s[..last][t])| { assert s[..last][t] == s[t]; }
      FlatSize(s[..last], f, G, m);
      FlatStep(s, G, m);
      hide Flat;
    }
  }

  lemma FlatStep<T(!new)>(s: seq<T>, G: T -> set<nat>, m: nat)
    requires s != [] && Within(s, G, m)
    ensures |Flat(s, G, m)| == |Flat(s[..|s| - 1], G, m)| + |G(s[|s| - 1])|
  {
    var last := |s| - 1;
    var d := last * m;
    WithinPrefix(s, G, m);
    var left, right := Flat(s[..last], G, m), Shifted(G(s[last]), d);
    assert Flat(s, G, m) == left + right;
    hide Flat, Shifted, Within;
    forall x | x in left ensures x !in right {
      FlatBelow(s[..last], G, m, x);
      ShiftedAbove(G(s[last]), d, x);
    }
    Union(left, right);
    ShiftedSize(G(s[last]), d);
  }

  lemma ShiftedAbove(a: set<nat>, d: nat, x: nat)
    ensures x in Shifted(a, d) ==> d <= x
  {
  }

  lemma Union(left: set<nat>, right: set<nat>)
    requires forall x | x in left :: x !in right
    ensures |left + right| == |left| + |right|
  {
    assert left !! right;
  }

  // The owned pages below an entry, by their distance from its first page.
  ghost function HereLeaf(x: Leaf): set<nat> { if x.Page? then {0} else {} }

  ghost function HerePd(e: Entry<Leaf>): set<nat> { if e.Table? then Flat(e.kids, HereLeaf, 1) else {} }

  ghost function HerePdpt(e: Entry<Entry<Leaf>>): set<nat> { if e.Table? then Flat(e.kids, HerePd, ENTRIES) else {} }

  ghost function HerePml4(e: Entry<Entry<Entry<Leaf>>>): set<nat> {
    if e.Table? then Flat(e.kids, HerePdpt, PD_PAGES) else {}
  }

  lemma HerePdIs(e: Entry<Leaf>, x: nat)
    requires PdOk(e)
    ensures x in HerePd(e) <==> x < ENTRIES && AtPd(e, x).Page?
    ensures |PagesPd(e)| == |HerePd(e)|
  {
    if e.Table? {
      FlatAt(e.kids, HereLeaf, 1, x);
      FlatSize(e.kids, OwnedLeaf, HereLeaf, 1);
    }
  }

  lemma HerePdptIs(e: Entry<Entry<Leaf>>, x: nat)
    requires PdptOk(e)
    ensures x in HerePdpt(e) <==> x < PD_PAGES && AtPdpt(e, x / ENTRIES, x % ENTRIES).Page?
    ensures |PagesPdpt(e)| == |HerePdpt(e)|
  {
    if e.Table? {
      forall k, z | 0 <= k < ENTRIES && z in HerePd(e.kids[k]) ensures z < ENTRIES { HerePdIs(e.kids[k], z); }
      forall k | 0 <= k < ENTRIES ensures |PagesPd(e.kids[k])| == |HerePd(e.kids[k])| { HerePdIs(e.kids[k], 0); }
      if x < PD_PAGES { HerePdIs(e.kids[x / ENTRIES], x % ENTRIES); }
      hide HerePd, PagesPd, Sum;
      FlatAt(e.kids, HerePd, ENTRIES, x);
      FlatSize(e.kids, PagesPd, HerePd, ENTRIES);
    }
  }

  lemma HerePml4Is(e: Entry<Entry<Entry<Leaf>>>, x: nat)
    requires Pml4Ok(e)
    ensures x in HerePml4(e) <==> x < PDPT_PAGES && AtPml4(e, x / PD_PAGES, x / ENTRIES % ENTRIES, x % ENTRIES).Page?
    ensures |PagesPml4(e)| == |HerePml4(e)|
  {
    if e.Table? {
      hide HerePdpt, PagesPdpt, Sum, PdptOk;
      forall j, z | 0 <= j < ENTRIES && z in HerePdpt(e.kids[j]) ensures z < PD_PAGES { HerePdptIs(e.kids[j], z); }
      forall j | 0 <= j < ENTRIES ensures |PagesPdpt(e.kids[j])| == |HerePdpt(e.kids[j])| { HerePdptIs(e.kids[j], 0); }
      if x < PDPT_PAGES { HerePdptIs(e.kids[x / PD_PAGES], x % PD_PAGES); }
      FlatAt(e.kids, HerePdpt, PD_PAGES, x);
      FlatSize(e.kids, PagesPdpt, HerePdpt, PD_PAGES);
      Inner(x, PD_PAGES);
    }
  }

  // Adding whole tables of pages shifts the index of the table and keeps the index within it.
  lemma Shift(y: nat, c: nat)
    ensures (y + c * ENTRIES) % ENTRIES == y % ENTRIES && (y + c * ENTRIES) / ENTRIES == y / ENTRIES + c
  {
  }

  lemma ShiftFar(y: nat, q: nat)
    ensures (y + q * PDPT_PAGES) / PD_PAGES == y / PD_PAGES + q * ENTRIES
  {
  }

  lemma Below(y: nat)
    ensures y < PD_PAGES ==> y / ENTRIES % ENTRIES == y / ENTRIES
    ensures y < PDPT_PAGES ==> y / PD_PAGES % ENTRIES == y / PD_PAGES
  {
    if y < PD_PAGES { assert y / ENTRIES < ENTRIES; }
    if y < PDPT_PAGES { assert y / PD_PAGES < ENTRIES; }
  }

  lemma Remainder(x: nat, m: nat) returns (q: nat)
    requires m == PD_PAGES || m == PDPT_PAGES
    ensures x == x % m + q * m && x % m < m
  {
    q := x / m;
  }

  // Indices within a span are the indices of the remainder.
  lemma Inner(x: nat, m: nat)
    requires m == PD_PAGES || m == PDPT_PAGES
    ensures x % m % ENTRIES == x % ENTRIES && (m == PDPT_PAGES ==> x % m / PD_PAGES == x / PD_PAGES % ENTRIES)
    ensures x % m / ENTRIES % ENTRIES == x / ENTRIES % ENTRIES
    ensures m == PD_PAGES ==> x % m / ENTRIES == x / ENTRIES % ENTRIES
  {
    var q := Remainder(x, m);
    var y, whole := x % m, if m == PD_PAGES then q else q * ENTRIES;
    assert x == y + whole * ENTRIES * ENTRIES;
    Shift(y, whole * ENTRIES);
    Shift(y / ENTRIES, whole);
    Below(y);
    if m == PDPT_PAGES {
      ShiftFar(y, q);
      Shift(y / PD_PAGES, q);
    }
  }

  ghost function OwnedPages(root: Pml4): set<nat>
    requires Ok(root)
  {
    set g: nat | g < USER_PAGES && At(root, g).Page?
  }

  /** As many pages are released as the flat map owns below the user top. */
  lemma OwnedCount(root: Pml4)
    requires Ok(root)
    ensures |PagesOf(root)| == |OwnedPages(root)|
  {
    var half := root[..USER_ENTRIES];
    hide HerePml4, PagesPml4, Sum, Pml4Ok;
    forall i, z | 0 <= i < USER_ENTRIES && z in HerePml4(half[i]) ensures z < PDPT_PAGES { HerePml4Is(half[i], z); }
    forall i | 0 <= i < USER_ENTRIES ensures |PagesPml4(half[i])| == |HerePml4(half[i])| { HerePml4Is(half[i], 0); }
    FlatSize(half, PagesPml4, HerePml4, PDPT_PAGES);
    forall g: nat ensures g in Flat(half, HerePml4, PDPT_PAGES) <==> g in OwnedPages(root) {
      FlatAt(half, HerePml4, PDPT_PAGES, g);
      if g < USER_PAGES { HerePml4Is(root[I(g)], g % PDPT_PAGES); }
      Inner(g, PDPT_PAGES);
    }
    assert Flat(half, HerePml4, PDPT_PAGES) == OwnedPages(root);
  }

  // ---------- every frame once ----------

  lemma HeldCoversPd(e: Entry<Leaf>)
    ensures PagesPd(e) + TablesPd(e) <= HeldPd(e)
  {
    if e.Table? { SumBelow(e.kids, OwnedLeaf, (x: Leaf) => multiset{}, HeldLeaf); }
  }

  lemma HeldCoversPdpt(e: Entry<Entry<Leaf>>)
    ensures PagesPdpt(e) + TablesPdpt(e) <= HeldPdpt(e)
  {
    if e.Table? {
      hide PagesPd, TablesPd, HeldPd, Sum;
      forall k | 0 <= k < |e.kids| ensures PagesPd(e.kids[k]) + TablesPd(e.kids[k]) <= HeldPd(e.kids[k]) {
        HeldCoversPd(e.kids[k]);
      }
      SumBelow(e.kids, PagesPd, TablesPd, HeldPd);
    }
  }

  lemma HeldCoversPml4(e: Entry<Entry<Entry<Leaf>>>)
    ensures PagesPml4(e) + TablesPml4(e) <= HeldPml4(e)
  {
    if e.Table? {
      hide PagesPdpt, TablesPdpt, HeldPdpt, Sum;
      forall j | 0 <= j < |e.kids| ensures PagesPdpt(e.kids[j]) + TablesPdpt(e.kids[j]) <= HeldPdpt(e.kids[j]) {
        HeldCoversPdpt(e.kids[j]);
      }
      SumBelow(e.kids, PagesPdpt, TablesPdpt, HeldPdpt);
    }
  }

  // What destroying releases is held by the tree.
  lemma HeldCovers(root: Pml4)
    requires |root| == ENTRIES
    ensures PagesOf(root) + TablesOf(root) <= Held(root)
  {
    hide PagesPml4, TablesPml4, HeldPml4, Sum;
    var half := root[..USER_ENTRIES];
    forall i | 0 <= i < |half| ensures PagesPml4(half[i]) + TablesPml4(half[i]) <= HeldPml4(half[i]) {
      HeldCoversPml4(half[i]);
    }
    SumBelow(half, PagesPml4, TablesPml4, HeldPml4);
    SumPrefix(root, HeldPml4, USER_ENTRIES);
  }

  ghost predicate Once(m: multiset<nat>) { forall f :: m[f] <= 1 }

  ghost predicate NoRepeats(s: seq<nat>) { forall i, j :: 0 <= i < j < |s| ==> s[i] != s[j] }

  // No frame in two places of the tree, be it a page or a table.
  ghost predicate Exclusive(root: Pml4) { Once(Held(root)) }

  lemma OnceBelow(part: multiset<nat>, whole: multiset<nat>)
    requires Once(whole) && part <= whole
    ensures Once(part)
  {
  }

  lemma {:induction false} OnceListed(s: seq<nat>)
    requires Once(multiset(s))
    ensures NoRepeats(s)
  {
    forall i, j | 0 <= i < j < |s| ensures s[i] != s[j] {
      assert s == s[..j] + s[j..];
      assert s[i] in s[..j] && s[j] in s[j..];
      assert multiset(s)[s[j]] == multiset(s[..j])[s[j]] + multiset(s[j..])[s[j]];
    }
  }

  // A tree and the frames it gave up: the list names each once, and none that is still in use.
  lemma OnceGivenUp(before: multiset<nat>, after: multiset<nat>, freed: seq<nat>)
    requires Once(before) && after + multiset(freed) == before
    ensures Once(after) && NoRepeats(freed) && forall f :: f in freed ==> f !in after
  {
    OnceBelow(after, before);
    OnceBelow(multiset(freed), before);
    OnceListed(freed);
    forall f | f in freed ensures f !in after { assert before[f] == after[f] + multiset(freed)[f]; }
  }
}
