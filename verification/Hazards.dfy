/** Exactly when a run that begins with a single batched block leaves the heap out of order. */
module Hazards {
  import opened Treap
  import opened MaxHeap
  import opened StaleHeap
  import opened Blocks
  import opened Allocator
  import opened Merging
  import opened Coalescing

  /** The block `id` lies between two free blocks, and erasing the right one, once the left one has
      been credited with both, traps an entry below it. */
  ghost predicate SandwichHazard(s: State, id: nat)
  {
    exists n, j :: n in Ids(s.tree) && j in Ids(s.tree) && HazardBetween(s, n, id, j)
  }

  /** The one block of the batch lies so. */
  ghost predicate BatchHazard(s: State, l: seq<nat>)
  {
    |l| == 1 && SandwichHazard(s, l[0])
  }

  lemma OneEntry(s: State, l: seq<nat>)
    ensures |l| == 1 ==> (BatchHazard(s, l) <==> SandwichHazard(s, l[0]))
  {
  }

  ghost predicate HazardBetween(s: State, n: nat, id: nat, j: nat)
  {
    Adjoins(s, n, id) && Adjoins(s, id, j) && HazardAt(Grown(Grown(s, n, id), n, j), n, j)
  }

  /** Back-indices of free blocks do not change as long as the heap array does not. */
  lemma SamePosition(s: State, s': State, held: set<nat>, held': set<nat>, pub: nat, i: nat)
    requires Sound(s, held, pub) && Sound(s', held', pub) && s'.h == s.h && i in Ids(s.tree) && i in Ids(s'.tree)
    ensures i < |s.heap| && i < |s'.heap| && s.heap[i] == s'.heap[i]
  {
    HeapReady(s, held, pub);
    HeapReady(s', held', pub);
    hide Sound, Ids;
    AtBackIndexOf(s.heap, s.h, i);
    AtBackIndexOf(s'.heap, s'.h, i);
  }

  /** Blocks are disjoint, so only one ends where another starts. */
  lemma OnePredecessor(s: State, rest: set<nat>, pub: nat, total: set<nat>, chunks: seq<nat>, committed: set<nat>,
                       n: nat, m: nat, id: nat)
    requires Resting(s, rest, pub, total, chunks, committed) && n in Ids(s.tree) && m in Ids(s.tree)
    requires Adjoins(s, n, id) && Adjoins(s, m, id)
    ensures n == m
  {
    hide Ids, Run, Pages;
    assert s.size[n] > 0 && s.size[m] > 0;
  }

  lemma HazardMoved(s0: State, s: State, held0: set<nat>, held: set<nat>, pub: nat, run: nat, id: nat, j: nat)
    requires Sound(s0, held0, pub) && Sound(s, held, pub) && s.h == s0.h && s.off == s0.off && s.tree == s0.tree
    requires Adjoins(s0, run, id) && s.size == Grown(s0, run, id).size && run in Ids(s.tree) && j in Ids(s.tree)
    requires j != run && id < |s0.size| && j < |s0.size|
    ensures HazardAt(Grown(s, run, j), run, j) <==> HazardAt(Grown(Grown(s0, run, id), run, j), run, j)
  {
    hide Sound, Ids, HazardAt;
    SamePosition(s0, s, held0, held, pub, run);
    SamePosition(s0, s, held0, held, pub, j);
    HazardSame(Grown(s, run, j), Grown(Grown(s0, run, id), run, j), run, j);
  }

  lemma HazardSame(s: State, s': State, run: nat, j: nat)
    requires s.h == s'.h && s.size == s'.size && s.tree == s'.tree && run < |s.heap| && run < |s'.heap|
    requires j < |s.heap| && j < |s'.heap| && s.heap[run] == s'.heap[run] && s.heap[j] == s'.heap[j]
    ensures HazardAt(s, run, j) <==> HazardAt(s', run, j)
  {
    hide Ids, Hazard;
  }

  /** The run has started in the free block before `id`. */
  lemma StartedBeside(s0: State, s: State, held0: set<nat>, held: set<nat>, pub: nat, rest: set<nat>, total: set<nat>,
                      chunks: seq<nat>, committed: set<nat>, run: nat, id: nat)
    requires Sound(s0, held0, pub) && Sound(s, held, pub) && s.h == s0.h && s.off == s0.off && s.tree == s0.tree
    requires Resting(s0, rest, pub, total, chunks, committed) && id in rest && run in Ids(s0.tree)
    requires Adjoins(s0, run, id) && s.size == Grown(s0, run, id).size
    ensures HazardAhead(s, run) <==> SandwichHazard(s0, id)
  {
    hide Sound, HazardAt, Run;
    Beside(s0, s, rest, pub, total, chunks, committed, run, id);
    hide Resting, Ids, Adjoins;
    if HazardAhead(s, run) {
      var j :| j in Ids(s.tree) && Adjoins(s, run, j) && HazardAt(Grown(s, run, j), run, j);
      HazardMoved(s0, s, held0, held, pub, run, id, j);
      assert HazardBetween(s0, run, id, j);
    }
    if SandwichHazard(s0, id) {
      var n, j :| n in Ids(s0.tree) && j in Ids(s0.tree) && HazardBetween(s0, n, id, j);
      OnePredecessor(s0, rest, pub, total, chunks, committed, n, run, id);
      HazardMoved(s0, s, held0, held, pub, run, id, j);
    }
  }

  /** What follows the run once it has been credited with `id` is what follows `id`. */
  lemma Beside(s0: State, s: State, rest: set<nat>, pub: nat, total: set<nat>,
               chunks: seq<nat>, committed: set<nat>, run: nat, id: nat)
    requires s.off == s0.off && s.tree == s0.tree && Resting(s0, rest, pub, total, chunks, committed)
    requires id in rest && run in Ids(s0.tree) && Adjoins(s0, run, id) && s.size == Grown(s0, run, id).size
    ensures forall j :: j in Ids(s0.tree) ==>
      j < |s0.size| && (Adjoins(s, run, j) <==> Adjoins(s0, id, j)) && (Adjoins(s0, id, j) ==> j != run)
  {
    hide Ids, Run, Pages;
    assert s0.size[id] > 0 && s0.size[run] > 0;
  }

  /** The run has started with `id` alone: nothing was before it. */
  lemma StartedApart(s: State, id: nat)
    requires id !in Ids(s.tree) && forall i :: i in Ids(s.tree) ==> !Adjoins(s, i, id)
    ensures !HazardAhead(s, id) && !SandwichHazard(s, id)
  {
    NoHazardOutside(s, id);
    hide Ids, HazardAt;
  }

  // ---------- a run of a single batched block ----------

  /** The run, started in `s`, has absorbed no batched block since, and at most one free one. */
  ghost predicate Lone(s: State, s': State, run: nat, hazard: bool)
  {
    || (s' == s && !hazard)
    || (&& (exists j :: j in Ids(s.tree) && Absorbs(s, s', run, j)) && s'.off == s.off
        && hazard == HazardAhead(s, run) && (InOrder(s, run) ==> (Mendable(s', run) <==> !hazard)))
  }

  lemma LoneBegins(s: State, run: nat)
    ensures Lone(s, s, run, false)
  {
  }

  lemma LoneStep(s0: State, s: State, s1: State, s2: State, run: nat, id: nat, insert: bool, l: seq<nat>,
                 i: nat, more: bool, any: bool, hazard: bool,
                 rest: set<nat>, pub: nat, total: set<nat>, chunks: seq<nat>, committed: set<nat>)
    requires Resting(s0, rest, pub, total, chunks, committed) && Begun(s0, s, run, id, insert) && id in rest
    requires Lone(s, s1, run, any) && Cascaded(s1, s2, run, l, i, i, more, hazard)
    ensures Lone(s, s2, run, any || hazard)
  {
    hide Ids, Run, Pages, InOrder, Mendable, HazardAhead, Complete;
    if more && s1 != s {
      var j :| j in Ids(s.tree) && Absorbs(s, s1, run, j);
      var k :| k in Ids(s1.tree) && Absorbs(s1, s2, run, k);
      OneNeighbour(s0, s, s1, run, id, insert, j, k, rest, pub, total, chunks, committed);
    }
  }

  /** Free blocks do not touch, so a run absorbs no two in a row. */
  lemma OneNeighbour(s0: State, s: State, s1: State, run: nat, id: nat, insert: bool, j: nat, k: nat,
                     rest: set<nat>, pub: nat, total: set<nat>, chunks: seq<nat>, committed: set<nat>)
    requires Resting(s0, rest, pub, total, chunks, committed) && Begun(s0, s, run, id, insert) && id in rest
    requires s1.off == s.off && j in Ids(s.tree) && Absorbs(s, s1, run, j)
    requires k in Ids(s1.tree)
    ensures !Adjoins(s1, run, k)
  {
    hide Ids, Run, Pages;
    assert s0.size[j] > 0 && s0.size[id] > 0;
  }

  /** When it ends, it has met a hazard exactly if the block lay in such a place to begin with. */
  lemma LoneEnd(s: State, s': State, run: nat, hazard: bool)
    requires Lone(s, s', run, hazard) && Complete(s', run)
    ensures (hazard <==> HazardAhead(s, run)) && (s' == s ==> !hazard)
    ensures s' != s && InOrder(s, run) ==> (Mendable(s', run) <==> !hazard)
  {
    hide Ids, InOrder, Mendable, HazardAt;
  }

  lemma LoneInserted(s0: State, s: State, run: nat, id: nat, insert: bool)
    requires Begun(s0, s, run, id, insert)
    ensures insert ==> !HazardAhead(s, run)
  {
    hide Ids, HazardAhead, Adjoins;
    if insert { NoHazardOutside(s, run); }
  }

  // ---------- a run that fills no gap ----------

  /** No hazard has been met if there was no gap to fill. */
  ghost predicate Untroubled(s0: State, s: State, run: nat, rest: set<nat>, hazard: bool)
  {
    !FillsGap(Free(s0), Held(s0, rest)) ==> Edged(s0, s, run, Held(s0, rest)) && !hazard
  }

  lemma UntroubledBegins(s0: State, s: State, run: nat, id: nat, rest: set<nat>)
    requires Edged(s0, s, run, Held(s0, rest))
    ensures Untroubled(s0, s, run, rest, false)
  {
  }

  lemma UntroubledStep(s0: State, s: State, s': State, run: nat, id: nat, l: seq<nat>, i0: nat, i: nat, i': nat,
                       more: bool, any: bool, hazard: bool,
                       pub: nat, total: set<nat>, chunks: seq<nat>, committed: set<nat>)
    requires Resting(s0, From(l, i0), pub, total, chunks, committed) && i0 <= i
    requires Underway(s0, s, run, id) && Untroubled(s0, s, run, From(l, i0), any)
    requires Cascaded(s, s', run, l, i, i', more, hazard) && run !in From(l, i)
    ensures Untroubled(s0, s', run, From(l, i0), any || hazard)
  {
    hide Resting, Edged, FillsGap, Underway, Cascaded, From, Free, Held;
    if !FillsGap(Free(s0), Held(s0, From(l, i0))) {
      EdgedStep(s0, s, s', run, id, l, i0, i, i', more, hazard, pub, total, chunks, committed);
    }
  }

  lemma UntroubledEnd(s0: State, s: State, run: nat, rest: set<nat>, hazard: bool)
    requires Untroubled(s0, s, run, rest, hazard)
    ensures !FillsGap(Free(s0), Held(s0, rest)) ==> !hazard
  {
  }

  lemma OnlyEntry(l: seq<nat>, l': seq<nat>)
    requires multiset(l') == multiset(l)
    ensures |l| == 1 ==> l' == l
  {
    assert |l'| == |multiset(l')| == |multiset(l)| == |l|;
    if |l| == 1 {
      assert l == [l[0]] && l' == [l'[0]];
      assert l'[0] in multiset(l);
    }
  }
}
