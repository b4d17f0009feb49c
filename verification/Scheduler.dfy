/**
 process_pick_next of kernel/core/process.c: the highest priority wins, and equals take turns in
 ring order.
 */
module Scheduler {
  import opened Wrappers

  datatype Proc = Proc(runnable: bool, priority: nat)

  // Processes are named by their position on the ring, counted from process_list.
  type Ring = seq<Proc>

  // A runnable process that no runnable one exceeds.
  predicate Top(ring: Ring, x: nat) {
    x < |ring| && ring[x].runnable && forall y ::
        0 <= y < |ring| && ring[y].runnable ==> ring[y].priority <= ring[x].priority
  }

  // Steps from the position after `from` to x, following next.
  function Steps(n: nat, from: int, x: int): int {
    if x > from then x - from - 1 else x - from - 1 + n
  }

  function Next(n: nat, x: int): int { if x + 1 == n then 0 else x + 1 }

  // The first top process met on the way round from the one after `from`.
  ghost predicate Chosen(ring: Ring, from: int, x: nat) {
    Top(ring, x) && forall y: nat :: Top(ring, y) ==> Steps(|ring|, from, x) <= Steps(|ring|, from, y)
  }

  /**
   process_pick_next: nothing only if nothing can run; otherwise a top process, the first one after
   `prev`, which itself comes last.
   */
  method PickNext(ring: Ring, prev: Option<nat>) returns (best: Option<nat>)
    requires prev.Some? ==> prev.value < |ring|
    ensures best.None? <==> forall x :: 0 <= x < |ring| ==> !ring[x].runnable
    ensures best.Some? ==> Chosen(ring, if prev.Some? then prev.value else -1, best.value)
  {
    hide BestOf, Steps, Chosen;
    best := None;
    if |ring| == 0 { return; }
    var n := |ring|;
    ghost var from: int := if prev.Some? then prev.value else -1;
    var start: nat := if prev.Some? then Next(n, prev.value) else 0;
    var it := start;
    ghost var k := 0;
    var more := true;
    BestStart(ring, prev, from);
    while more
      invariant 0 <= k <= n && it == Position(n, start, k) && start == Next(n, from) && (more <==> k < n)
      invariant BestOf(ring, prev, from, k, best) && (best.Some? ==> best.value < n)
      decreases n - k
    {
      At(n, from, start, k, it);
      ghost var was := best;
      if Some(it) != prev && ring[it].runnable && (best.None? || ring[it].priority > ring[best.value].priority) {
        best := Some(it);
      }
      BestNext(ring, prev, from, k, it, was, best);
      it := Next(n, it);
      k := k + 1;
      more := it != start;
    }
    if prev.Some? && ring[prev.value].runnable
        && (best.None? || ring[prev.value].priority > ring[best.value].priority) {
      best := prev;
    }
    Finished(ring, prev, from, best);
  }

  // Candidate after looking at the first k processes on the way round, prev aside.
  ghost predicate BestOf(ring: Ring, prev: Option<nat>, from: int, k: nat, best: Option<nat>) {
    && |ring| > 0 && (prev.Some? ==> prev.value < |ring| && from == prev.value) && (prev.None? ==> from == -1)
    && (best.None? ==> forall x: nat :: Seen(ring, prev, from, k, x) ==> !ring[x].runnable)
    && (best.Some? ==> Seen(ring, prev, from, k, best.value) && ring[best.value].runnable &&
                       forall x: nat :: Seen(ring, prev, from, k, x) && ring[x].runnable ==>
                         ring[x].priority <= ring[best.value].priority &&
                         (ring[x].priority == ring[best.value].priority ==>
                            Steps(|ring|, from, best.value) <= Steps(|ring|, from, x)))
  }

  ghost predicate Seen(ring: Ring, prev: Option<nat>, from: int, k: nat, x: nat) {
    x < |ring| && Some(x) != prev && Steps(|ring|, from, x) < k
  }

  // Where following next k times from start leads.
  function Position(n: nat, start: int, k: int): int { if start + k >= n then start + k - n else start + k }

  // The process looked at after k steps is the one k steps away.
  lemma At(n: nat, from: int, start: nat, k: nat, it: nat)
    requires -1 <= from < n && k < n && start == Next(n, from) && it == Position(n, start, k)
    ensures it < n && Steps(n, from, it) == k
    ensures forall x: nat :: x < n && Steps(n, from, x) == k ==> x == it
  {
  }

  lemma BestStart(ring: Ring, prev: Option<nat>, from: int)
    requires |ring| > 0 && (prev.Some? ==> prev.value < |ring| && from == prev.value) && (prev.None? ==> from == -1)
    ensures BestOf(ring, prev, from, 0, None)
  {
  }

  lemma BestNext(ring: Ring, prev: Option<nat>, from: int, k: nat, it: nat, was: Option<nat>, best: Option<nat>)
    requires BestOf(ring, prev, from, k, was) && it < |ring| && Steps(|ring|, from, it) == k
    requires forall x: nat :: x < |ring| && Steps(|ring|, from, x) == k ==> x == it
    requires best == if Some(it) != prev && ring[it].runnable
             && (was.None? || ring[it].priority > ring[was.value].priority) then Some(it) else was
    ensures BestOf(ring, prev, from, k + 1, best)
  {
    hide Steps;
    forall x: nat
        ensures Seen(ring, prev, from, k + 1, x) <==> Seen(ring, prev, from, k, x) || (x == it && Some(it) != prev) {}
  }

  lemma Finished(ring: Ring, prev: Option<nat>, from: int, best: Option<nat>)
    requires |ring| > 0 && (prev.Some? ==> prev.value < |ring| && from == prev.value) && (prev.None? ==> from == -1)
    requires exists b: Option<nat> :: BestOf(ring, prev, from, |ring|, b) &&
               best == if prev.Some? && ring[prev.value].runnable
                   && (b.None? || ring[prev.value].priority > ring[b.value].priority) then prev else b
    ensures best.None? <==> forall x :: 0 <= x < |ring| ==> !ring[x].runnable
    ensures best.Some? ==> Chosen(ring, from, best.value)
  {
    var b :| BestOf(ring, prev, from, |ring|, b) &&
             best == if prev.Some? && ring[prev.value].runnable
                 && (b.None? || ring[prev.value].priority > ring[b.value].priority) then prev else b;
    hide Steps;
    forall x: nat | x < |ring| && Some(x) != prev ensures Seen(ring, prev, from, |ring|, x) {}
    if prev.Some? { LastOfAll(|ring|, from); }
  }

  lemma LastOfAll(n: nat, from: int)
    requires 0 <= from < n
    ensures Steps(n, from, from) == n - 1 && forall x: nat :: x < n ==> Steps(n, from, x) <= n - 1
  {
  }

  // ---------- taking turns ----------

  // The number of top processes before x on the list.
  function Rank(tops: set<nat>, x: nat): nat { |set y | y in tops && y < x| }

  ghost predicate TopsAre(ring: Ring, tops: set<nat>) { forall x: nat :: x in tops <==> Top(ring, x) }

  /** A pick goes to the next top process in ring order, and from the last one back to the first. */
  lemma PickAdvances(ring: Ring, tops: set<nat>, from: nat, x: nat)
    requires TopsAre(ring, tops) && from in tops && Chosen(ring, from, x)
    ensures x in tops && Rank(tops, x) == if Rank(tops, from) + 1 < |tops| then Rank(tops, from) + 1 else 0
  {
    hide Top;
    assert x in tops;
    var below, upto := (set y | y in tops && y < from), (set y | y in tops && y <= from);
    assert upto == below + {from};
    if x > from {
      forall y | y in tops && y > from ensures y >= x { assert Top(ring, y); }
      assert (set y | y in tops && y < x) == upto;
      assert x !in upto && upto + {x} <= tops;
      Smaller(upto + {x}, tops);
    } else {
      forall y | y in tops ensures y <= from && x <= y {
        assert Top(ring, y);
        TopInside(ring, y);
      }
      assert upto == tops;
      assert (set y | y in tops && y < x) == {};
    }
  }

  lemma TopInside(ring: Ring, x: nat)
    requires Top(ring, x)
    ensures x < |ring|
  {
  }

  lemma Smaller(a: set<nat>, b: set<nat>)
    requires a <= b
    ensures |a| <= |b|
  {
    assert b == a + (b - a);
  }

  // picks[i + 1] was picked after picks[i] on rings[i]; who is on top never changes.
  ghost predicate Turns(rings: seq<Ring>, picks: seq<nat>, tops: set<nat>) {
    && |picks| == |rings| + 1 && picks[0] in tops
    && (forall i :: 0 <= i < |rings| ==> TopsAre(rings[i], tops) && Chosen(rings[i], picks[i], picks[i + 1]))
  }

  lemma {:induction false} TurnRank(rings: seq<Ring>, picks: seq<nat>, tops: set<nat>, i: nat, j: nat)
    requires Turns(rings, picks, tops) && i + j < |picks| && j < |tops|
    ensures picks[i + j] in tops
    ensures picks[i] in tops && Rank(tops, picks[i + j]) ==
            if Rank(tops, picks[i]) + j < |tops| then Rank(tops, picks[i]) + j else Rank(tops, picks[i]) + j - |tops|
  {
    hide Chosen, TopsAre, Rank;
    AllTops(rings, picks, tops, i);
    RankBound(tops, picks[i]);
    if j > 0 {
      TurnRank(rings, picks, tops, i, j - 1);
      var m := i + j - 1;
      assert TopsAre(rings[m], tops) && Chosen(rings[m], picks[m], picks[m + 1]);
      PickAdvances(rings[m], tops, picks[m], picks[m + 1]);
    }
  }

  lemma {:induction false} AllTops(rings: seq<Ring>, picks: seq<nat>, tops: set<nat>, i: nat)
    requires Turns(rings, picks, tops) && i < |picks|
    ensures picks[i] in tops
  {
    hide Chosen, TopsAre, Rank;
    if i > 0 {
      AllTops(rings, picks, tops, i - 1);
      var m := i - 1;
      assert TopsAre(rings[m], tops) && Chosen(rings[m], picks[m], picks[m + 1]);
      PickAdvances(rings[m], tops, picks[m], picks[m + 1]);
    }
  }

  lemma RankBound(tops: set<nat>, x: nat)
    requires x in tops
    ensures Rank(tops, x) < |tops|
  {
    var below := set y | y in tops && y < x;
    assert below + {x} <= tops;
    Smaller(below + {x}, tops);
  }

  /**
   While the same k processes stay on top, any k consecutive picks are all different: nobody at
   the top priority is passed over.
   */
  lemma TurnsAreFair(rings: seq<Ring>, picks: seq<nat>, tops: set<nat>, i: nat, j: nat)
    requires Turns(rings, picks, tops) && i < j < |picks| && j - i < |tops|
    ensures picks[i] != picks[j]
  {
    hide Turns, Rank;
    RankOnly(rings, picks, tops, i);
    TurnRank(rings, picks, tops, i, j - i);
  }

  lemma RankOnly(rings: seq<Ring>, picks: seq<nat>, tops: set<nat>, i: nat)
    requires Turns(rings, picks, tops) && i < |picks|
    ensures picks[i] in tops && Rank(tops, picks[i]) < |tops|
  {
    AllTops(rings, picks, tops, i);
    RankBound(tops, picks[i]);
  }

  /** And k picks later it is the same process's turn again. */
  lemma TurnsComeBack(rings: seq<Ring>, picks: seq<nat>, tops: set<nat>, i: nat)
    requires Turns(rings, picks, tops) && i + |tops| < |picks|
    ensures picks[i + |tops|] == picks[i]
  {
    hide Chosen, TopsAre, Rank;
    var k := |tops|;
    RankOnly(rings, picks, tops, i);
    TurnRank(rings, picks, tops, i, k - 1);
    var m := i + k - 1;
    assert TopsAre(rings[m], tops) && Chosen(rings[m], picks[m], picks[m + 1]);
    PickAdvances(rings[m], tops, picks[m], picks[m + 1]);
    RankInjective(tops, picks[i], picks[i + k]);
  }

  lemma RankInjective(tops: set<nat>, x: nat, y: nat)
    requires x in tops && y in tops && Rank(tops, x) == Rank(tops, y)
    ensures x == y
  {
    if x < y { RankLess(tops, x, y); }
    if y < x { RankLess(tops, y, x); }
  }

  lemma RankLess(tops: set<nat>, x: nat, y: nat)
    requires x in tops && x < y
    ensures Rank(tops, x) < Rank(tops, y)
  {
    var a, b := (set z | z in tops && z < x), (set z | z in tops && z < y);
    assert a + {x} <= b;
    Smaller(a + {x}, b);
  }
}
