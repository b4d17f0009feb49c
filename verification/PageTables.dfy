/**
 The four-level page tables of kernel/mm/paging64.c as a map from page numbers to leaves, and the
 frames a table tree holds.
 */
module PageTables {
  const ENTRIES: nat := 512
  const USER_PAGES: nat := 0x8_0000_0000     // PAGING_USER_TOP in pages
  const PDPT_PAGES: nat := 0x800_0000        // 512 GiB in pages
  const PD_PAGES: nat := 0x4_0000            // 1 GiB in pages

  // What PAGE_RW, PAGE_USER, PAGE_PROT_NONE and the NX bit say together.
  datatype Rights = Rights(user: bool, write: bool, noexec: bool)

  // A page table entry: empty, present but not the process's own, or an owned frame.
  datatype Leaf = NoPage | Alien(frame: nat) | Page(frame: nat, rights: Rights)

  // An entry of a higher table: empty, present but not a user table, or a user table.
  datatype Entry<T> = Absent | Foreign(raw: nat) | Table(frame: nat, kids: seq<T>)

  type Pt = seq<Leaf>
  type Pd = seq<Entry<Leaf>>
  type Pdpt = seq<Entry<Entry<Leaf>>>
  type Pml4 = seq<Entry<Entry<Entry<Leaf>>>>

  // ---------- page numbers ----------

  function I(g: nat): nat { g / PDPT_PAGES }

  function J(g: nat): (j: nat)
    ensures j < ENTRIES
  {
    g / PD_PAGES % ENTRIES
  }

  function K(g: nat): (k: nat)
    ensures k < ENTRIES
  {
    g / ENTRIES % ENTRIES
  }

  function L(g: nat): (l: nat)
    ensures l < ENTRIES
  {
    g % ENTRIES
  }

  lemma Digits(g: nat)
    ensures g == I(g) * PDPT_PAGES + J(g) * PD_PAGES + K(g) * ENTRIES + L(g)
    ensures I(g) * PDPT_PAGES <= g < (I(g) + 1) * PDPT_PAGES
    ensures I(g) * PDPT_PAGES + J(g) * PD_PAGES <= g < I(g) * PDPT_PAGES + (J(g) + 1) * PD_PAGES
  {
    var a := g / ENTRIES;
    var b := a / ENTRIES;
    var c := b / ENTRIES;
    Places(g, a, b);
    Places(a, b, c);
    assert g == c * PDPT_PAGES + (b % ENTRIES * PD_PAGES + a % ENTRIES * ENTRIES + g % ENTRIES);
    Quotients(g, b, c);
  }

  lemma Places(g: nat, a: nat, b: nat)
    requires a == g / ENTRIES && b == a / ENTRIES
    ensures g == b * PD_PAGES + a % ENTRIES * ENTRIES + g % ENTRIES && a % ENTRIES * ENTRIES + g % ENTRIES < PD_PAGES
  {
  }

  lemma Quotients(g: nat, b: nat, c: nat)
    requires b * PD_PAGES <= g < (b + 1) * PD_PAGES && c * PDPT_PAGES <= g < (c + 1) * PDPT_PAGES
    ensures g / PD_PAGES == b && g / PDPT_PAGES == c
  {
  }

  // Pages before the next boundary of a span share the indices above it.
  lemma SameI(a: nat, g: nat)
    requires a <= g < (I(a) + 1) * PDPT_PAGES
    ensures I(g) == I(a)
  {
  }

  lemma SameJ(a: nat, g: nat)
    requires a <= g < I(a) * PDPT_PAGES + (J(a) + 1) * PD_PAGES
    ensures I(g) == I(a) && J(g) == J(a)
  {
    Digits(a);
    Digits(g);
  }

  predicate SamePt(a: nat, g: nat) { I(g) == I(a) && J(g) == J(a) && K(g) == K(a) }

  lemma SameK(a: nat, g: nat)
    ensures SamePt(a, g) <==> a - L(a) <= g < a - L(a) + ENTRIES
  {
    Digits(a);
    Digits(g);
  }

  // ---------- well-formed trees and their map ----------

  predicate PdOk(e: Entry<Leaf>) { e.Table? ==> |e.kids| == ENTRIES }

  predicate PdptOk(e: Entry<Entry<Leaf>>) {
    e.Table? ==> |e.kids| == ENTRIES && forall k :: 0 <= k < ENTRIES ==> PdOk(e.kids[k])
  }

  predicate Pml4Ok(e: Entry<Entry<Entry<Leaf>>>) {
    e.Table? ==> |e.kids| == ENTRIES && forall j :: 0 <= j < ENTRIES ==> PdptOk(e.kids[j])
  }

  predicate Ok(root: Pml4) { |root| == ENTRIES && forall i :: 0 <= i < ENTRIES ==> Pml4Ok(root[i]) }

  function AtPd(e: Entry<Leaf>, l: nat): Leaf
    requires PdOk(e) && l < ENTRIES
  {
    if e.Table? then e.kids[l] else NoPage
  }

  function AtPdpt(e: Entry<Entry<Leaf>>, k: nat, l: nat): Leaf
    requires PdptOk(e) && k < ENTRIES && l < ENTRIES
  {
    if e.Table? then AtPd(e.kids[k], l) else NoPage
  }

  function AtPml4(e: Entry<Entry<Entry<Leaf>>>, j: nat, k: nat, l: nat): Leaf
    requires Pml4Ok(e) && j < ENTRIES && k < ENTRIES && l < ENTRIES
  {
    if e.Table? then AtPdpt(e.kids[j], k, l) else NoPage
  }

  // The flat map: the leaf of a page, or none where a table is missing or not the user's.
  function At(root: Pml4, g: nat): Leaf
    requires Ok(root)
  {
    if I(g) < ENTRIES then AtPml4(root[I(g)], J(g), K(g), L(g)) else NoPage
  }

  // ---------- frames ----------

  function Sum<T(!new)>(s: seq<T>, f: T -> multiset<nat>): multiset<nat> {
    if s == [] then multiset{} else Sum(s[..|s| - 1], f) + f(s[|s| - 1])
  }

  lemma {:induction false} SumUpdate<T(!new)>(s: seq<T>, f: T -> multiset<nat>, k: nat, x: T)
    requires k < |s|
    ensures f(s[k]) <= Sum(s, f) && Sum(s[k := x], f) == Sum(s, f) - f(s[k]) + f(x)
  {
    var last := |s| - 1;
    if k == last {
      assert s[k := x][..last] == s[..last];
    } else {
      assert s[k := x][..last] == s[..last][k := x] && s[..last][k] == s[k];
      SumUpdate(s[..last], f, k, x);
    }
  }

  lemma {:induction false} SumEmpty<T(!new)>(s: seq<T>, f: T -> multiset<nat>)
    requires forall i :: 0 <= i < |s| ==> f(s[i]) == multiset{}
    ensures Sum(s, f) == multiset{}
  {
    if s != [] { SumEmpty(s[..|s| - 1], f); }
  }

  // The frame of a present leaf, whoever owns it.
  function HeldLeaf(x: Leaf): multiset<nat> { if x.NoPage? then multiset{} else multiset{x.frame} }

  function HeldPd(e: Entry<Leaf>): multiset<nat> {
    if e.Table? then multiset{e.frame} + Sum(e.kids, HeldLeaf) else multiset{}
  }

  function HeldPdpt(e: Entry<Entry<Leaf>>): multiset<nat> {
    if e.Table? then multiset{e.frame} + Sum(e.kids, HeldPd) else multiset{}
  }

  function HeldPml4(e: Entry<Entry<Entry<Leaf>>>): multiset<nat> {
    if e.Table? then multiset{e.frame} + Sum(e.kids, HeldPdpt) else multiset{}
  }

  // All frames of a tree below its root: tables and pages.
  function Held(root: Pml4): multiset<nat> { Sum(root, HeldPml4) }

  // ---------- replacing one entry ----------

  function PutPd(root: Pml4, i: nat, j: nat, e: Entry<Entry<Leaf>>): Pml4
    requires i < |root| && root[i].Table? && j < |root[i].kids|
  {
    root[i := root[i].(kids := root[i].kids[j := e])]
  }

  function PutPt(root: Pml4, i: nat, j: nat, k: nat, e: Entry<Leaf>): Pml4
    requires i < |root| && root[i].Table? && j < |root[i].kids| && root[i].kids[j].Table? && k < |root[i].kids[j].kids|
  {
    PutPd(root, i, j, root[i].kids[j].(kids := root[i].kids[j].kids[k := e]))
  }

  // The path to a page table exists and is the user's.
  predicate HasPd(root: Pml4, i: nat, j: nat) {
    Ok(root) && i < ENTRIES && j < ENTRIES && root[i].Table? && root[i].kids[j].Table?
  }

  lemma PutPdFacts(root: Pml4, i: nat, j: nat, e: Entry<Entry<Leaf>>, g: nat)
    requires Ok(root) && i < ENTRIES && j < ENTRIES && root[i].Table? && PdptOk(e)
    ensures var r := PutPd(root, i, j, e);
            && Ok(r) && r[i].Table? && r[i].kids[j] == e
            && At(r, g) == if I(g) == i && J(g) == j then AtPdpt(e, K(g), L(g)) else At(root, g)
  {
    hide I, J, K, L, AtPdpt, PdptOk;
  }

  lemma PutPdHeld(root: Pml4, i: nat, j: nat, e: Entry<Entry<Leaf>>)
    requires i < |root| && root[i].Table? && j < |root[i].kids|
    ensures HeldPdpt(root[i].kids[j]) <= Held(root)
            && Held(PutPd(root, i, j, e)) == Held(root) - HeldPdpt(root[i].kids[j]) + HeldPdpt(e)
  {
    hide HeldPdpt;
    var t := root[i].(kids := root[i].kids[j := e]);
    SumUpdate(root[i].kids, HeldPdpt, j, e);
    SumUpdate(root, HeldPml4, i, t);
    Nested(Held(root), Sum(root[i].kids, HeldPdpt), multiset{root[i].frame}, HeldPdpt(root[i].kids[j]), HeldPdpt(e));
  }

  // Replacing a part of a part of a whole.
  lemma Nested(whole: multiset<nat>, kids: multiset<nat>, own: multiset<nat>, part: multiset<nat>, x: multiset<nat>)
    requires own + kids <= whole && part <= kids
    ensures part <= whole && whole - (own + kids) + (own + (kids - part + x)) == whole - part + x
  {
  }

  lemma PutPtFacts(root: Pml4, i: nat, j: nat, k: nat, e: Entry<Leaf>, g: nat)
    requires HasPd(root, i, j) && k < ENTRIES && PdOk(e)
    ensures var r := PutPt(root, i, j, k, e);
            && HasPd(r, i, j) && r[i].kids[j].kids[k] == e
            && At(r, g) == if I(g) == i && J(g) == j && K(g) == k then AtPd(e, L(g)) else At(root, g)
  {
    var d := root[i].kids[j];
    hide I, J, K, L, Ok, AtPd;
    PutPtOk(root, i, j, k, e);
    PutPdFacts(root, i, j, d.(kids := d.kids[k := e]), g);
    AtThrough(root, g);
  }

  lemma PutPtOk(root: Pml4, i: nat, j: nat, k: nat, e: Entry<Leaf>)
    requires HasPd(root, i, j) && k < ENTRIES && PdOk(e)
    ensures var d := root[i].kids[j]; PdptOk(d) && PdptOk(d.(kids := d.kids[k := e]))
  {
    hide PdOk;
    assert Pml4Ok(root[i]);
  }

  lemma AtThrough(root: Pml4, g: nat)
    requires Ok(root)
    ensures HasPd(root, I(g), J(g)) ==>
              PdptOk(root[I(g)].kids[J(g)]) && At(root, g) == AtPdpt(root[I(g)].kids[J(g)], K(g), L(g))
    ensures I(g) >= ENTRIES || !root[I(g)].Table? || !HasPd(root, I(g), J(g)) ==> At(root, g) == NoPage
  {
    hide I, J, K, L;
  }

  lemma PutPtHeld(root: Pml4, i: nat, j: nat, k: nat, e: Entry<Leaf>)
    requires HasPd(root, i, j) && k < ENTRIES
    ensures |root[i].kids[j].kids| == ENTRIES && HeldPd(root[i].kids[j].kids[k]) <= Held(root)
    ensures Held(PutPt(root, i, j, k, e)) == Held(root) - HeldPd(root[i].kids[j].kids[k]) + HeldPd(e)
  {
    assert Pml4Ok(root[i]) && PdptOk(root[i].kids[j]);
    hide HeldPd, Ok;
    var d := root[i].kids[j];
    SumUpdate(d.kids, HeldPd, k, e);
    PutPdHeld(root, i, j, d.(kids := d.kids[k := e]));
    Nested(Held(root), Sum(d.kids, HeldPd), multiset{d.frame}, HeldPd(d.kids[k]), HeldPd(e));
  }
}
