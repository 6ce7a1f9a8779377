/** One run of merges on the allocator's state: what each step makes of it. */
module Coalescing {
  import opened Options
  import opened Priority
  import opened Treap
  import opened TreapLinks
  import opened MaxHeap
  import opened StaleHeap
  import opened Blocks
  import opened Chunks
  import opened Merging
  import opened Allocator
  import opened Sequences
  import H = HeapOps
  import T = TreapOps
  import R = RadixSort

  /** Free pages, with those of the run being merged. */
  ghost function FreeWith(s: State, run: nat): set<nat>
  {
    Pages(s.off, s.size, Ids(s.tree) + {run})
  }

  /** The nodes held while `run` grows: a run that began in a free block stays in the treap. */
  ghost function HeldWith(s: State, run: nat, rest: set<nat>): set<nat>
  {
    if run in Ids(s.tree) then rest else rest + {run}
  }

  /** The heap is in order, but for the run if it is in it. */
  ghost predicate InOrder(s: State, run: nat)
  {
    if run in Ids(s.tree) then run < |s.heap| && Stale(s.h, s.size, s.heap[run]) else Ordered(s.h, s.size)
  }

  /** Finishing the run would leave the heap in order. */
  ghost predicate Mendable(s: State, run: nat)
  {
    if run in Ids(s.tree) then
      && run < |s.heap| && s.heap[run] < |s.h| && Sized(s.h, s.size)
      && Ordered(MaxHeap.Fix(s.h, s.size, s.heap[run]), s.size)
    else Ordered(s.h, s.size)
  }

  /** Between runs. */
  ghost predicate Resting(s: State, rest: set<nat>, pub: nat, total: set<nat>, chunks: seq<nat>, committed: set<nat>)
  {
    && Settled(s.off, s.size, Ids(s.tree), rest, pub, total)
    && Metered(chunks, committed, Free(s), pub)
  }

  /** Within a run. */
  ghost predicate Running(s: State, run: nat, rest: set<nat>, pub: nat, total: set<nat>,
                          chunks: seq<nat>, committed: set<nat>)
  {
    && Growing(s.off, s.size, Ids(s.tree) + {run}, rest, pub, total, run)
    && run < |s.off| && run < |s.size|
    && MeteredBut(chunks, committed, FreeWith(s, run), pub, s.off[run], s.size[run])
  }

  lemma Uncountable(s: State, rest: set<nat>, pub: nat, total: set<nat>, j: nat, chunks: seq<nat>, committed: set<nat>)
    requires Resting(s, rest, pub, total, chunks, committed) && j in rest
    ensures Ledger(chunks, Run(0, pub) - Free(s)) && j !in Ids(s.tree)
    ensures j < |s.off| && j < |s.size| && s.size[j] > 0 && s.off[j] + s.size[j] <= pub
    ensures Run(s.off[j], s.size[j]) <= Run(0, pub) - Free(s)
  {
    hide Run, Ids, Pages, Ledger;
    PagesDisjoint(s.off, s.size, Ids(s.tree), rest, pub);
    PagesIn(s.off, s.size, rest, j);
  }

  /** The run is added to the free block before it. */
  lemma StartedInPrev(s: State, s': State, rest: set<nat>, pub: nat, total: set<nat>, id: nat, n: nat,
                      chunks: seq<nat>, committed: set<nat>, chunks': seq<nat>)
    requires Resting(s, rest, pub, total, chunks, committed) && |chunks'| == |chunks|
    requires id in rest && n in Ids(s.tree) && id < |s.off| && n < |s.off| && id < |s.size| && n < |s.size|
    requires Ledger(chunks', Run(0, pub) - Free(s) - Run(s.off[id], s.size[id]))
    requires s.off[n] + s.size[n] == s.off[id]
    requires s'.off == s.off && s'.size == s.size[n := s.size[n] + s.size[id]] && Ids(s'.tree) == Ids(s.tree)
    ensures Running(s', n, rest - {id}, pub, total, chunks', committed)
  {
    var off: seq<nat>, size: seq<nat>, t: set<nat> := s.off, s.size, Ids(s.tree);
    hide Run, Ids, Pages, Ledger;
    JoinPrev(off, size, t, rest, pub, total, id, n, s'.size);
    assert t + {n} == t;
    hide Settled, Growing, Disjoint;
    UncountFirst(chunks, committed, Free(s), pub, off[id], size[id], chunks', FreeWith(s', n), off[n], s'.size[n]);
  }

  lemma StartedAlone(s: State, rest: set<nat>, pub: nat, total: set<nat>, id: nat, n: nat,
                     chunks: seq<nat>, committed: set<nat>, chunks': seq<nat>)
    requires Resting(s, rest, pub, total, chunks, committed) && |chunks'| == |chunks|
    requires id in rest && id < |s.off| && id < |s.size| && InRange(Ids(s.tree), s.off)
    requires Ledger(chunks', Run(0, pub) - Free(s) - Run(s.off[id], s.size[id]))
    requires T.IsPrev(s.tree, s.off, s.off[id], n)
    requires n != NIL ==> n < |s.off| && n < |s.size| && s.off[n] + s.size[n] != s.off[id]
    ensures id !in Ids(s.tree) && forall i :: i in Ids(s.tree) ==> !Adjoins(s, i, id)
    ensures Running(s, id, rest - {id}, pub, total, chunks', committed)
  {
    var off: seq<nat>, size: seq<nat>, t: set<nat> := s.off, s.size, Ids(s.tree);
    hide Run, Ids, Pages, Ledger;
    forall i | i in t && i < |off| ensures off[i] + size[i] != off[id] {
      assert size[i] > 0;
    }
    JoinNone(off, size, t, rest, pub, total, id);
    hide Settled, Growing, Disjoint;
    UncountFirst(chunks, committed, Free(s), pub, off[id], size[id], chunks', FreeWith(s, id), off[id], size[id]);
  }

  lemma GrewByBatch(s: State, s': State, run: nat, rest: set<nat>, pub: nat, total: set<nat>, j: nat,
                    chunks: seq<nat>, committed: set<nat>, chunks': seq<nat>)
    requires Running(s, run, rest, pub, total, chunks, committed) && |chunks'| == |chunks|
    requires j in rest && j < |s.off| && j < |s.size| && s.off[run] + s.size[run] == s.off[j]
    requires Ledger(chunks', Run(0, pub) - FreeWith(s, run) - Run(s.off[j], s.size[j]))
    requires s'.off == s.off && s'.size == s.size[run := s.size[run] + s.size[j]] && Ids(s'.tree) == Ids(s.tree)
    ensures Running(s', run, rest - {j}, pub, total, chunks', committed)
  {
    var off: seq<nat>, size: seq<nat>, t: set<nat> := s.off, s.size, Ids(s.tree) + {run};
    hide Run, Ids, Pages, Ledger, Disjoint;
    JoinBatch(off, size, t, rest, pub, total, run, j, s'.size);
    hide Growing;
    UncountMore(chunks, committed, FreeWith(s, run), pub, off[j], size[j], chunks', FreeWith(s', run),
                off[run], size[run]);
  }

  lemma BatchCounted(s: State, run: nat, rest: set<nat>, pub: nat, total: set<nat>, j: nat,
                     chunks: seq<nat>, committed: set<nat>)
    requires Running(s, run, rest, pub, total, chunks, committed) && j in rest
    ensures j < |s.off| && j < |s.size| && s.size[j] > 0 && s.off[j] + s.size[j] <= pub && j != run
    ensures Run(s.off[j], s.size[j]) <= Run(0, pub) - FreeWith(s, run)
    ensures Ledger(chunks, Run(0, pub) - FreeWith(s, run))
  {
    hide Run, Ids, Pages, Ledger;
    PagesDisjoint(s.off, s.size, Ids(s.tree) + {run}, rest, pub);
    PagesIn(s.off, s.size, rest, j);
  }

  lemma GrewByFree(s: State, s': State, run: nat, rest: set<nat>, pub: nat, total: set<nat>, j: nat,
                   chunks: seq<nat>, committed: set<nat>)
    requires Running(s, run, rest, pub, total, chunks, committed)
    requires j in Ids(s.tree) && j < |s.off| && j < |s.size| && s.off[run] + s.size[run] == s.off[j]
    requires s'.off == s.off && s'.size == s.size[run := s.size[run] + s.size[j]]
    requires Ids(s'.tree) == Ids(s.tree) - {j}
    ensures j != run
    ensures Running(s', run, rest, pub, total, chunks, committed)
  {
    var off: seq<nat>, size: seq<nat>, t: set<nat> := s.off, s.size, Ids(s.tree) + {run};
    hide Run, Ids, Pages, Ledger;
    assert size[run] > 0;
    hide Disjoint;
    JoinFree(off, size, t, rest, pub, total, run, j, s'.size);
    assert t - {j} == Ids(s'.tree) + {run};
    hide Growing;
    MeterWidens(chunks, committed, FreeWith(s, run), pub, off[run], size[run], size[j]);
  }

  /** No free block starts where the run ends. */
  ghost predicate Complete(s: State, run: nat)
  {
    forall j :: j in Ids(s.tree) && j < |s.off| && run < |s.off| && run < |s.size| ==>
      s.off[run] + s.size[run] != s.off[j]
  }

  lemma NothingFollows(s: State, run: nat, j: nat)
    requires run < |s.off| && run < |s.size| && InRange(Ids(s.tree), s.off)
    requires T.IsNext(s.tree, s.off, s.off[run] + s.size[run], j)
    requires j != NIL ==> j < |s.off| && s.off[run] + s.size[run] != s.off[j]
    ensures Complete(s, run)
  {
    hide Ids;
  }

  /** A complete run is settled once its memory has been decommitted. */
  lemma RunFinished(s: State, s': State, run: nat, rest: set<nat>, pub: nat, total: set<nat>,
                    chunks: seq<nat>, committed: set<nat>)
    requires Running(s, run, rest, pub, total, chunks, committed) && Complete(s, run)
    requires s'.off == s.off && s'.size == s.size && Ids(s'.tree) == Ids(s.tree) + {run}
    ensures pub <= 255 * |chunks| && s.size[run] > 0 && s.off[run] + s.size[run] <= pub
    ensures Resting(s', rest, pub, total, chunks,
                    committed - Interval(ChunkInterval(chunks, s.off[run], s.size[run], pub)))
  {
    var off: seq<nat>, size: seq<nat>, t: set<nat> := s.off, s.size, Ids(s.tree) + {run};
    hide Run, Ids, Pages, Ledger;
    assert size[run] > 0 && off[run] + size[run] <= pub;
    RunComplete(off, size, t, rest, pub, total, run);
    PagesIn(off, size, t, run);
    hide Growing, Settled, Disjoint;
    Decommitted(chunks, committed, FreeWith(s, run), pub, off[run], size[run]);
  }

  lemma RunInBounds(s: State, run: nat, rest: set<nat>, pub: nat, total: set<nat>, chunks: seq<nat>,
      committed: set<nat>)
    requires Running(s, run, rest, pub, total, chunks, committed)
    ensures pub <= 255 * |chunks| && run < |s.off| && run < |s.size| && run !in rest
    ensures s.size[run] > 0 && s.off[run] + s.size[run] <= pub
    ensures forall i :: i in Ids(s.tree) && i != run && i < |s.off| ==> s.off[i] != s.off[run]
  {
    hide Run, Ids, Pages, Ledger;
  }

  // ---------- heap order meanwhile ----------

  lemma StaleGrows(h: seq<nat>, size: seq<nat>, size': seq<nat>, e: nat)
    requires Stale(h, size, e) && |size'| == |size| && h[e] < |size| && size'[h[e]] >= size[h[e]]
    requires forall i :: i in h && i != h[e] && i < |size| ==> size'[i] == size[i]
    requires forall k :: 0 <= k < |h| && k != e ==> h[k] != h[e]
    ensures Stale(h, size', e)
  {
    forall k | 0 <= k < |h| && k != e ensures h[k] in h && size'[h[k]] == size[h[k]] {
    }
    forall i | 0 < i < |h| && i != e ensures Edge(h, size', i) {
      assert Edge(h, size, i);
    }
    forall i | 0 < e && 0 < i < |h| && Parent(i) == e ensures Key(h, size', i) <= Key(h, size', Parent(e)) {
      assert Key(h, size, i) <= Key(h, size, Parent(e));
    }
  }

  /** A free block that begins a run by growing. */
  lemma StartsStale(s: State, held: set<nat>, pub: nat, n: nat, size': seq<nat>, k: nat)
    requires Sound(s, held, pub) && n in Ids(s.tree) && Ordered(s.h, s.size)
    requires n < |s.size| && size' == s.size[n := s.size[n] + k]
    ensures n < |s.heap| && Stale(s.h, size', s.heap[n])
  {
    HeapReady(s, held, pub);
    AtBackIndexOf(s.heap, s.h, n);
    hide Sound, Ids;
    OrderedStale(s.h, s.size, s.heap[n]);
    hide Ordered, Stale;
    StaleGrows(s.h, s.size, size', s.heap[n]);
  }

  lemma RunGrows(s: State, s': State, held: set<nat>, pub: nat, run: nat, k: nat)
    requires Sound(s, held, pub) && InOrder(s, run) && run < |s.size| && s'.size == s.size[run := s.size[run] + k]
    requires s'.h == s.h && s'.tree == s.tree && s'.heap == s.heap
    ensures InOrder(s', run)
  {
    HeapReady(s, held, pub);
    hide Sound, Ids;
    if run in Ids(s.tree) {
      AtBackIndexOf(s.heap, s.h, run);
      hide Stale;
      StaleGrows(s.h, s.size, s'.size, s.heap[run]);
    } else {
      OrderedElsewhere(s.h, s.size, s'.size);
    }
  }

  /** Erasing a free block next to the run keeps the heap in order, but for the run, exactly
      when there is no hazard. */
  lemma RunErases(s: State, s': State, held: set<nat>, held': set<nat>, pub: nat, run: nat, j: nat)
    requires Sound(s, held, pub) && InOrder(s, run) && j in Ids(s.tree) && j != run
    requires Sound(s', held', pub) && Ids(s'.tree) == Ids(s.tree) - {j}
    requires j < |s.heap| && s.heap[j] < |s.h| && s.h[s.heap[j]] == j && Sized(s.h, s.size)
    requires s'.size == s.size && s'.h == Remove(s.h, s.size, s.heap[j])
    ensures InOrder(s', run) <==> !HazardAt(s, run, j)
    ensures Mendable(s', run) <==> !HazardAt(s, run, j)
  {
    HeapReady(s, held, pub);
    HeapReady(s', held', pub);
    hide Sound, Ids, Remove, Hazard, MaxHeap.Fix;
    if run in Ids(s.tree) {
      AtBackIndexOf(s.heap, s.h, run);
      AtBackIndexOf(s'.heap, s'.h, run);
      hide Stale, Ordered;
      var e := RemoveStale(s.h, s.size, s.heap[j], s.heap[run]);
    } else {
      RemoveOrders(s.h, s.size, s.heap[j]);
    }
  }

  /** Nodes that leave `held` do not disturb the heap. */
  lemma InOrderKept(s: State, s': State, held: set<nat>, held': set<nat>, pub: nat, run: nat)
    requires Sound(s, held, pub) && Sound(s', held', pub)
    requires s'.h == s.h && s'.size == s.size && s'.tree == s.tree
    ensures InOrder(s, run) ==> InOrder(s', run)
  {
    HeapReady(s, held, pub);
    HeapReady(s', held', pub);
    hide Sound, Ids, Stale, Ordered;
    if run in Ids(s.tree) {
      AtBackIndexOf(s.heap, s.h, run);
      AtBackIndexOf(s'.heap, s'.h, run);
    }
  }

  lemma StaysInOrder(s: State, run: nat)
    requires run !in Ids(s.tree)
    ensures Ordered(s.h, s.size) ==> InOrder(s, run)
  {
  }

  lemma BeginsInOrder(s: State, run: nat)
    requires run in Ids(s.tree) && run < |s.heap| && Stale(s.h, s.size, s.heap[run])
    ensures InOrder(s, run)
  {
  }

  lemma EndsInOrder(s: State, run: nat)
    requires run !in Ids(s.tree)
    ensures InOrder(s, run) ==> Ordered(s.h, s.size)
  {
  }

  /** A heap in order but for the run is mended. */
  lemma InOrderMendable(s: State, held: set<nat>, pub: nat, run: nat)
    requires Sound(s, held, pub) && InOrder(s, run)
    ensures Mendable(s, run)
  {
    HeapReady(s, held, pub);
    hide Sound, Ids, MaxHeap.Fix;
    if run in Ids(s.tree) {
      AtBackIndexOf(s.heap, s.h, run);
      StaleMends(s.h, s.size, s.heap[run]);
    }
  }

  /** The run is in the heap, and erasing `j` would trap an entry below it. */
  ghost predicate HazardAt(s: State, run: nat, j: nat)
  {
    && run in Ids(s.tree) && run < |s.heap| && j < |s.heap|
    && s.heap[run] < |s.h| && s.heap[j] < |s.h| && Sized(s.h, s.size)
    && Hazard(s.h, s.size, s.heap[j], s.heap[run])
  }

  /** The state once the run has been credited with `j`'s pages. */
  ghost function Grown(s: State, run: nat, j: nat): State
    requires run < |s.size| && j < |s.size|
  {
    s.(size := s.size[run := s.size[run] + s.size[j]])
  }

  /** Only the run's size has changed, by growing, and free blocks may have left the treap. */
  ghost predicate OnlyRun(s: State, s': State, run: nat)
  {
    && s'.off == s.off && |s'.size| == |s.size| && Ids(s'.tree) <= Ids(s.tree)
    && (run < |s.size| ==> s'.size[run] >= s.size[run])
    && forall k :: 0 <= k < |s.size| && k != run ==> s'.size[k] == s.size[k]
  }

  // ---------- the batch list ----------

  /** The entries from `i` on. */
  ghost function From(l: seq<nat>, i: nat): set<nat>
  {
    set k | i <= k < |l| :: l[k]
  }

  lemma FromStep(l: seq<nat>, i: nat)
    requires NoDup(l) && i < |l|
    ensures l[i] in From(l, i) && From(l, i + 1) == From(l, i) - {l[i]}
  {
    assert forall x :: x in From(l, i) <==> x == l[i] || x in From(l, i + 1);
  }

  /** The run's next neighbour is a free block whose erasure traps an entry below the run. */
  ghost predicate HazardAhead(s: State, run: nat)
  {
    exists j :: j in Ids(s.tree) && Adjoins(s, run, j) && HazardAt(Grown(s, run, j), run, j)
  }

  ghost predicate Adjoins(s: State, run: nat, j: nat)
  {
    && run < |s.off| && run < |s.size| && j < |s.off| && j < |s.size|
    && s.off[run] + s.size[run] == s.off[j]
  }

  /** Blocks are disjoint, so at most one free block follows the run. */
  lemma OneHazard(s: State, run: nat, rest: set<nat>, pub: nat, total: set<nat>,
                  chunks: seq<nat>, committed: set<nat>, j: nat)
    requires Running(s, run, rest, pub, total, chunks, committed)
    requires j in Ids(s.tree) && Adjoins(s, run, j)
    ensures HazardAhead(s, run) <==> HazardAt(Grown(s, run, j), run, j)
  {
    hide Run, Ids, Pages, Ledger, HazardAt, Grown;
    forall k | k in Ids(s.tree) && Adjoins(s, run, k) ensures k == j {
      assert s.size[k] > 0 && s.size[j] > 0;
    }
  }

  // ---------- when the heap stays in order throughout ----------

  /** Some stretch of batched pages exactly fills the gap between two free pages. */
  ghost predicate FillsGap(free: set<nat>, batched: set<nat>)
  {
    exists a, b :: 0 < a < b && GapAt(free, batched, a, b)
  }

  ghost predicate GapAt(free: set<nat>, batched: set<nat>, a: nat, b: nat)
  {
    0 < a < b && a - 1 in free && b in free && Run(a, b - a) <= batched
  }

  lemma NoGapWithoutBatch(free: set<nat>)
    ensures !FillsGap(free, {})
  {
    hide Run;
    forall a, b | 0 < a < b ensures !GapAt(free, {}, a, b) {
      assert a in Run(a, b - a);
    }
  }

  /** A run that began in a free block has since absorbed batched pages only. */
  ghost predicate Bordered(s0: State, s: State, run: nat, batched: set<nat>)
  {
    && run < |s0.off| && run < |s0.size| && run < |s.size|
    && s0.size[run] < s.size[run]
    && Run(s0.off[run] + s0.size[run], s.size[run] - s0.size[run]) <= batched
  }

  lemma BorderStarts(s0: State, s: State, run: nat, id: nat, rest: set<nat>)
    requires Adjoins(s0, run, id) && s.size == Grown(s0, run, id).size && id in rest && s0.size[id] > 0
    ensures Bordered(s0, s, run, Held(s0, rest))
  {
    hide Run;
    PagesIn(s0.off, s0.size, rest, id);
  }

  lemma BorderGrows(s0: State, s: State, s': State, run: nat, j: nat, rest: set<nat>)
    requires Bordered(s0, s, run, Held(s0, rest)) && OnlyRun(s0, s, run) && j in rest && j != run
    requires Adjoins(s, run, j) && s'.size == Grown(s, run, j).size
    ensures Bordered(s0, s', run, Held(s0, rest))
  {
    assert s.size[j] == s0.size[j];
    var a, k := s0.off[run] + s0.size[run], s.size[run] - s0.size[run];
    hide Run;
    RunSplit(a, k + s.size[j], k);
    PagesIn(s0.off, s0.size, rest, j);
  }

  /** A free block right of such a run is the far side of a gap. */
  lemma BorderMeets(s0: State, s: State, run: nat, j: nat, pub: nat, rest: set<nat>, total: set<nat>)
    requires Settled(s0.off, s0.size, Ids(s0.tree), rest, pub, total)
    requires Bordered(s0, s, run, Held(s0, rest)) && OnlyRun(s0, s, run) && run in Ids(s0.tree)
    requires j in Ids(s.tree) && Adjoins(s, run, j)
    ensures FillsGap(Free(s0), Held(s0, rest))
  {
    hide Ids, Run;
    assert s0.size[run] > 0 && s0.size[j] > 0;
    var a, b := s0.off[run] + s0.size[run], s0.off[j];
    PagesIn(s0.off, s0.size, Ids(s0.tree), run);
    PagesIn(s0.off, s0.size, Ids(s0.tree), j);
    assert a - 1 in Run(s0.off[run], s0.size[run]) && b in Run(s0.off[j], s0.size[j]);
    assert GapAt(Free(s0), Held(s0, rest), a, b);
  }

  /** In order of offset. */
  ghost predicate Ascending(l: seq<nat>, off: seq<nat>)
  {
    forall k, m :: 0 <= k < m < |l| && l[k] < |off| && l[m] < |off| ==> off[l[k]] <= off[l[m]]
  }

  /** After the run of `l[i]` the first page behind it is not batched any more. */
  lemma RunEndsBatch(off: seq<nat>, size: seq<nat>, t: set<nat>, l: seq<nat>, i: nat, pub: nat, total: set<nat>,
                     run: nat, lo: nat)
    requires Settled(off, size, t, From(l, i), pub, total) && Ascending(l, off) && run in t && run < |off| == |size|
    requires forall k :: i <= k < |l| && l[k] < |off| ==> lo <= off[l[k]]
    requires off[run] <= lo < off[run] + size[run]
    requires i < |l| && l[i] < |off| ==> off[run] + size[run] != off[l[i]]
    ensures forall p :: p in Pages(off, size, From(l, i)) ==> p > off[run] + size[run]
  {
    hide Run;
    forall p | p in Pages(off, size, From(l, i)) ensures p > off[run] + size[run] {
      var j :| j in From(l, i) && j < |off| && p in Run(off[j], size[j]);
      var k :| i <= k < |l| && l[k] == j;
      assert l[i] in From(l, i);
      assert off[l[i]] <= off[j] && size[l[i]] > 0;
    }
  }

  lemma GapWasThere(s0: State, s: State, run: nat, l: seq<nat>, i: nat, i': nat, pub: nat, total: set<nat>,
                    a: nat, b: nat)
    requires Settled(s.off, s.size, Ids(s.tree), From(l, i'), pub, total)
    requires s.off == s0.off && |s.size| == |s0.size| && run in Ids(s.tree) && Ids(s.tree) <= Ids(s0.tree) + {run}
    requires forall k :: 0 <= k < |s.size| && k != run ==> s.size[k] == s0.size[k]
    requires i < i' <= |l| && Ascending(l, s.off) && l[i] < |s.off| && run < |s.off| && run < |s.size|
    requires s.off[run] <= s.off[l[i]] < s.off[run] + s.size[run]
    requires i' < |l| && l[i'] < |s.off| ==> s.off[run] + s.size[run] != s.off[l[i']]
    requires GapAt(Free(s), Held(s, From(l, i')), a, b)
    ensures GapAt(Free(s0), Held(s0, From(l, i)), a, b)
  {
    hide Ids, Run;
    RunEndsBatch(s.off, s.size, Ids(s.tree), l, i', pub, total, run, s.off[l[i]]);
    assert a in Run(a, b - a);
    OldPage(s0, s, run, a - 1);
    OldPage(s0, s, run, b);
    HeldShrinks(s0, s, run, l, i, i', pub, total);
  }

  /** A finished run leaves no new gap. */
  lemma NoNewGap(s0: State, s: State, run: nat, l: seq<nat>, i: nat, i': nat, pub: nat, total: set<nat>)
    requires Settled(s.off, s.size, Ids(s.tree), From(l, i'), pub, total)
    requires s.off == s0.off && |s.size| == |s0.size| && run in Ids(s.tree) && Ids(s.tree) <= Ids(s0.tree) + {run}
    requires forall k :: 0 <= k < |s.size| && k != run ==> s.size[k] == s0.size[k]
    requires i < i' <= |l| && Ascending(l, s.off) && l[i] < |s.off| && run < |s.off| && run < |s.size|
    requires s.off[run] <= s.off[l[i]] < s.off[run] + s.size[run]
    requires i' < |l| && l[i'] < |s.off| ==> s.off[run] + s.size[run] != s.off[l[i']]
    ensures FillsGap(Free(s), Held(s, From(l, i'))) ==> FillsGap(Free(s0), Held(s0, From(l, i)))
  {
    if FillsGap(Free(s), Held(s, From(l, i'))) {
      var a, b :| 0 < a < b && GapAt(Free(s), Held(s, From(l, i')), a, b);
      GapWasThere(s0, s, run, l, i, i', pub, total, a, b);
    }
  }

  lemma OldPage(s0: State, s: State, run: nat, p: nat)
    requires s.off == s0.off && |s.size| == |s0.size| && Ids(s.tree) <= Ids(s0.tree) + {run}
    requires forall k :: 0 <= k < |s.size| && k != run ==> s.size[k] == s0.size[k]
    requires p in Free(s) && run < |s.off| && run < |s.size| && p >= s.off[run] + s.size[run]
    ensures p in Free(s0)
  {
    hide Ids, Run;
  }

  lemma HeldShrinks(s0: State, s: State, run: nat, l: seq<nat>, i: nat, i': nat, pub: nat, total: set<nat>)
    requires Settled(s.off, s.size, Ids(s.tree), From(l, i'), pub, total)
    requires s.off == s0.off && |s.size| == |s0.size| && i <= i' && run in Ids(s.tree)
    requires forall k :: 0 <= k < |s.size| && k != run ==> s.size[k] == s0.size[k]
    ensures Held(s, From(l, i')) <= Held(s0, From(l, i))
  {
    hide Ids, Run;
  }

  // ---------- a run from start to end ----------

  /** A run has been started with the batched block `id`. */
  ghost predicate Begun(s0: State, s: State, run: nat, id: nat, insert: bool)
  {
    && s.off == s0.off && Ids(s.tree) == Ids(s0.tree) && (insert <==> run !in Ids(s.tree))
    && (if insert then run == id && s.size == s0.size
        else Adjoins(s0, run, id) && s.size == Grown(s0, run, id).size)
  }

  /** The run has taken up the free block `j`. */
  ghost predicate Absorbs(s: State, s': State, run: nat, j: nat)
  {
    Adjoins(s, run, j) && s'.size == Grown(s, run, j).size && Ids(s'.tree) == Ids(s.tree) - {j}
  }

  /** The next batched block does not continue the run. */
  ghost predicate NothingJoins(s: State, run: nat, l: seq<nat>, i: nat)
  {
    i < |l| ==> !Adjoins(s, run, l[i])
  }

  /** What one step of a run has done: `more` if it absorbed a block, batched if `i` moved. */
  ghost predicate Cascaded(s: State, s': State, run: nat, l: seq<nat>, i: nat, i': nat, more: bool, hazard: bool)
  {
    && OnlyRun(s, s', run) && (run in Ids(s'.tree) <==> run in Ids(s.tree))
    && (if !more then
          i' == i && s' == s && Complete(s, run) && !hazard && NothingJoins(s, run, l, i)
        else if i' != i then
          i' == i + 1 && i < |l| && Adjoins(s, run, l[i]) && s'.size == Grown(s, run, l[i]).size && !hazard
        else
          && |Ids(s'.tree)| < |Ids(s.tree)| && hazard == HazardAhead(s, run)
          && (exists j :: j in Ids(s.tree) && Absorbs(s, s', run, j))
          && (InOrder(s, run) ==> (Mendable(s', run) <==> !hazard)))
    && (InOrder(s, run) ==> (InOrder(s', run) <==> !hazard))
  }

  /** The run holds page `p`. */
  ghost predicate Covers(s: State, run: nat, p: nat)
  {
    run < |s.off| && run < |s.size| && s.off[run] <= p < s.off[run] + s.size[run]
  }

  /** What one run's loop keeps of the state it started in. */
  ghost predicate Underway(s0: State, s: State, run: nat, id: nat)
  {
    && OnlyRun(s0, s, run) && (run in Ids(s.tree) <==> run in Ids(s0.tree))
    && id < |s0.off| && Covers(s, run, s0.off[id])
  }

  /** What it keeps besides as long as no gap has been filled. */
  ghost predicate Edged(s0: State, s: State, run: nat, batched: set<nat>)
  {
    run in Ids(s0.tree) ==> Bordered(s0, s, run, batched)
  }

  lemma UnderwayBegins(s0: State, s: State, run: nat, id: nat, insert: bool, rest: set<nat>, pub: nat, total: set<nat>,
                       chunks: seq<nat>, committed: set<nat>)
    requires Resting(s0, rest, pub, total, chunks, committed) && id in rest && Begun(s0, s, run, id, insert)
    ensures Underway(s0, s, run, id) && Edged(s0, s, run, Held(s0, rest))
  {
    hide Ids, Run, Ledger;
    if !insert { BorderStarts(s0, s, run, id, rest); }
  }

  lemma InsertsAlone(s0: State, s: State, run: nat, id: nat, insert: bool)
    requires Begun(s0, s, run, id, insert)
    ensures insert <==> run !in Ids(s0.tree)
  {
    hide Ids;
  }

  lemma UnderwayInTree(s0: State, s: State, run: nat, id: nat)
    requires Underway(s0, s, run, id)
    ensures run in Ids(s.tree) <==> run in Ids(s0.tree)
  {
    hide Ids;
  }

  lemma UnderwayGoesOn(s0: State, s: State, s': State, run: nat, id: nat, l: seq<nat>, i: nat, i': nat,
                       more: bool, hazard: bool)
    requires Underway(s0, s, run, id) && Cascaded(s, s', run, l, i, i', more, hazard)
    ensures Underway(s0, s', run, id) && i <= i'
    ensures more ==> i' > i || |Ids(s'.tree)| < |Ids(s.tree)|
    ensures !more ==> Complete(s', run) && NothingJoins(s', run, l, i')
  {
    hide Ids, InOrder, Mendable, HazardAhead;
  }

  /** One more step of a run that fills no gap: there is no hazard. */
  lemma EdgedStep(s0: State, s: State, s': State, run: nat, id: nat, l: seq<nat>, i0: nat, i: nat, i': nat,
                  more: bool, hazard: bool, pub: nat, total: set<nat>, chunks: seq<nat>, committed: set<nat>)
    requires Resting(s0, From(l, i0), pub, total, chunks, committed) && i0 <= i
    requires Underway(s0, s, run, id) && Edged(s0, s, run, Held(s0, From(l, i0)))
    requires Cascaded(s, s', run, l, i, i', more, hazard) && run !in From(l, i)
    requires !FillsGap(Free(s0), Held(s0, From(l, i0)))
    ensures Edged(s0, s', run, Held(s0, From(l, i0))) && !hazard
  {
    hide InOrder, Mendable, FillsGap, GapAt, Bordered, Ids, Run, Pages, HazardAt, Held, Free, Ledger;
    if run in Ids(s0.tree) {
      if more && i' != i {
        assert l[i] in From(l, i0) && l[i] in From(l, i);
        BorderGrows(s0, s, s', run, l[i], From(l, i0));
      } else if more {
        var j :| j in Ids(s.tree) && Absorbs(s, s', run, j);
        BorderMeets(s0, s, run, j, pub, From(l, i0), total);
      }
    } else {
      NoHazardOutside(s, run);
    }
  }

  /** As long as no erasure was hazardous, the heap is in order but for the run. */
  lemma OrderStep(s: State, s': State, run: nat, l: seq<nat>, i: nat, i': nat, more: bool, hazard: bool)
    requires Cascaded(s, s', run, l, i, i', more, hazard) && InOrder(s, run) && !hazard
    ensures InOrder(s', run)
  {
    hide InOrder, Mendable, Ids, HazardAhead, Complete;
  }

  lemma NoHazardOutside(s: State, run: nat)
    requires run !in Ids(s.tree)
    ensures !HazardAhead(s, run)
  {
    hide Ids, Hazard;
  }

  lemma RestingInRange(s: State, l: seq<nat>, i: nat, pub: nat, total: set<nat>, chunks: seq<nat>, committed: set<nat>)
    requires Resting(s, From(l, i), pub, total, chunks, committed)
    ensures i < |l| ==> l[i] < |s.off| && l[i] < |s.size|
  {
    hide Ids, Run, Ledger;
    assert i < |l| ==> l[i] in From(l, i);
  }

  lemma RunEnd(s0: State, s: State, s': State, run: nat, l: seq<nat>, i: nat, i': nat, pub: nat, total: set<nat>,
                chunks: seq<nat>, committed: set<nat>)
    requires Resting(s', From(l, i'), pub, total, chunks, committed)
    requires s'.off == s.off && s'.size == s.size && Ids(s'.tree) == Ids(s.tree) + {run}
    requires i < i' <= |l| && Ascending(l, s0.off) && Underway(s0, s, run, l[i])
    requires NothingJoins(s, run, l, i')
    ensures s'.off == s0.off
    ensures !FillsGap(Free(s0), Held(s0, From(l, i))) ==> !FillsGap(Free(s'), Held(s', From(l, i')))
  {
    RestingInRange(s', l, i', pub, total, chunks, committed);
    hide Ids, FillsGap, Ledger, Run;
    NoNewGap(s0, s', run, l, i, i', pub, total);
  }

  // ---------- the batch as a whole ----------

  /** What the allocator remembers of the batch: its pages, and its least and greatest offset. */
  ghost predicate Summed(s: State, l: seq<nat>, pages: nat, min: nat, max: nat)
  {
    && pages == |Held(s, From(l, 0))|
    && (if l == [] then min == NIL && max == NIL else Extremes(s.off, l, min, max))
  }

  ghost predicate Extremes(off: seq<nat>, l: seq<nat>, min: nat, max: nat)
  {
    && (forall k :: 0 <= k < |l| && l[k] < |off| ==> min <= off[l[k]] <= max)
    && (exists k :: 0 <= k < |l| && l[k] < |off| && off[l[k]] == min)
    && (exists k :: 0 <= k < |l| && l[k] < |off| && off[l[k]] == max)
  }

  /** Free, batched and used pages: every account of them agrees. */
  ghost predicate Balanced(s: State, l: seq<nat>, pages: nat, min: nat, max: nat, occupied: nat,
                           chunks: seq<nat>, committed: set<nat>, pub: nat)
  {
    && NoDup(l) && Resting(s, From(l, 0), pub, Free(s) + Held(s, From(l, 0)), chunks, committed)
    && Summed(s, l, pages, min, max) && occupied == |Run(0, pub) - (Free(s) + Held(s, From(l, 0)))|
  }

  lemma NothingBatched(s: State, l: seq<nat>)
    requires l == []
    ensures From(l, 0) == {} && Held(s, From(l, 0)) == {} && NoDup(l) && Summed(s, l, 0, NIL, NIL)
  {
  }

  lemma FromEnd(l: seq<nat>)
    ensures From(l, |l|) == {}
  {
  }

  /** The batch list can be sorted by offset. */
  lemma Sortable(s: State, l: seq<nat>, pub: nat, total: set<nat>, chunks: seq<nat>, committed: set<nat>)
    requires Resting(s, From(l, 0), pub, total, chunks, committed) && pub < NIL
    ensures R.Keyed(l, s.off) && R.Narrow(l, s.off)
  {
    hide Ids, Ledger, Run;
    forall k | 0 <= k < |l| ensures l[k] in From(l, 0) {
    }
  }

  lemma Sorted(s: State, l: seq<nat>, l': seq<nat>)
    requires multiset(l') == multiset(l) && NoDup(l)
    requires R.Keyed(l', s.off) && R.Sorted(l', s.off)
    ensures NoDup(l') && From(l', 0) == From(l, 0) && Ascending(l', s.off)
  {
    SameEntries(l, l');
    SameEntries(l', l);
    forall k, m | 0 <= k < m < |l'| ensures l'[k] != l'[m] {
      Once(l, l'[k]);
      if l'[k] == l'[m] { Twice(l', k, m); }
    }
  }

  lemma SameEntries(l: seq<nat>, l': seq<nat>)
    requires multiset(l') == multiset(l)
    ensures From(l, 0) <= From(l', 0)
  {
    forall k | 0 <= k < |l| ensures l[k] in From(l', 0) {
      assert l[k] in multiset(l');
      var m :| 0 <= m < |l'| && l'[m] == l[k];
    }
  }

  /** With nothing left in the batch, the free pages are all that were available. */
  lemma AllFreed(s: State, pub: nat, total: set<nat>, chunks: seq<nat>, committed: set<nat>)
    requires Resting(s, {}, pub, total, chunks, committed)
    ensures Free(s) == total && Held(s, {}) == {}
  {
    hide Ids, Ledger, Run;
  }

  lemma {:induction false} Once(l: seq<nat>, x: nat)
    requires NoDup(l)
    ensures multiset(l)[x] <= 1
  {
    if l != [] {
      Once(l[1..], x);
      assert l == [l[0]] + l[1..];
    }
  }

  lemma Twice(l: seq<nat>, k: nat, m: nat)
    requires k < m < |l| && l[k] == l[m]
    ensures multiset(l)[l[k]] >= 2
  {
    assert l == l[..k] + [l[k]] + l[k + 1..m] + [l[m]] + l[m + 1..];
  }

  // ---------- freeing into the batch ----------

  /** `o` and `n` have joined the least and greatest offset of the batch. */
  function Least(min: nat, o: nat): nat
  {
    if min == NIL || o < min then o else min
  }

  function Greatest(max: nat, o: nat): nat
  {
    if max == NIL || o > max then o else max
  }

  lemma JoinsBatch(s: State, s': State, l: seq<nat>, pub: nat, total: set<nat>, chunks: seq<nat>, committed: set<nat>,
                   id: nat, o: nat, n: nat)
    requires Resting(s, From(l, 0), pub, total, chunks, committed) && NoDup(l)
    requires id !in Ids(s.tree) && id !in From(l, 0) && id < |s.off| && id < |s.size|
    requires n > 0 && o + n <= pub && Run(o, n) !! total
    requires s'.off == s.off[id := o] && s'.size == s.size[id := n] && s'.tree == s.tree
    ensures NoDup(l + [id]) && From(l + [id], 0) == From(l, 0) + {id}
    ensures Free(s') == Free(s) && Held(s', From(l + [id], 0)) == Held(s, From(l, 0)) + Run(o, n)
    ensures Resting(s', From(l + [id], 0), pub, total + Run(o, n), chunks, committed)
  {
    hide Run, Ids, Pages, Ledger, From, NoDup, Settled;
    FromAppends(l, id);
    SettledJoins(s.off, s.size, Ids(s.tree), From(l, 0), pub, total, id, o, n);
  }

  lemma FromAppends(l: seq<nat>, id: nat)
    requires NoDup(l) && id !in From(l, 0)
    ensures NoDup(l + [id]) && From(l + [id], 0) == From(l, 0) + {id}
  {
    var l' := l + [id];
    forall k | 0 <= k < |l| ensures l[k] in From(l, 0) && l'[k] == l[k] {
    }
    assert l'[|l|] == id;
  }

  lemma SummedJoins(s: State, s': State, l: seq<nat>, id: nat, o: nat, n: nat, pages: nat, min: nat, max: nat)
    requires Summed(s, l, pages, min, max) && id !in From(l, 0) && id < |s.off| && o < NIL
    requires forall k :: 0 <= k < |l| ==> l[k] < |s.off| && s.off[l[k]] < NIL
    requires s'.off == s.off[id := o]
    requires Held(s', From(l + [id], 0)) == Held(s, From(l, 0)) + Run(o, n) && Run(o, n) !! Held(s, From(l, 0))
    ensures Summed(s', l + [id], pages + n, Least(min, o), Greatest(max, o))
  {
    var l' := l + [id];
    RunSize(o, n);
    hide Held, Run;
    forall k | 0 <= k < |l| ensures l'[k] == l[k] && s'.off[l'[k]] == s.off[l[k]] {
      assert l[k] in From(l, 0);
    }
    assert l'[|l|] == id && s'.off[l'[|l|]] == o;
    hide From;
    assert Extremes(s'.off, l', Least(min, o), Greatest(max, o)) by {
      if l != [] {
        var a :| 0 <= a < |l| && l[a] < |s.off| && s.off[l[a]] == min;
        var b :| 0 <= b < |l| && l[b] < |s.off| && s.off[l[b]] == max;
        assert s'.off[l'[a]] == min && s'.off[l'[b]] == max;
      }
    }
  }

  lemma BatchInBounds(s: State, l: seq<nat>, pub: nat, total: set<nat>, chunks: seq<nat>, committed: set<nat>)
    requires Resting(s, From(l, 0), pub, total, chunks, committed)
    ensures forall k :: 0 <= k < |l| ==> l[k] < |s.off| && s.off[l[k]] < pub
  {
    hide Run, Ids, Pages, Ledger;
    forall k | 0 <= k < |l| ensures l[k] in From(l, 0) {
    }
  }

  lemma RestingApart(s: State, rest: set<nat>, pub: nat, total: set<nat>, chunks: seq<nat>, committed: set<nat>)
    requires Resting(s, rest, pub, total, chunks, committed)
    ensures BlocksApart(s, rest, pub) && Free(s) + Held(s, rest) == total && Free(s) !! Held(s, rest) && Coalesced(s)
    ensures Ids(s.tree) !! rest
  {
    hide Run, Ids, Ledger;
    PagesDisjoint(s.off, s.size, Ids(s.tree), rest, pub);
  }

  lemma BalancedApart(s: State, l: seq<nat>, pages: nat, min: nat, max: nat, occupied: nat,
                      chunks: seq<nat>, committed: set<nat>, pub: nat)
    requires Balanced(s, l, pages, min, max, occupied, chunks, committed, pub)
    ensures BlocksApart(s, From(l, 0), pub) && Coalesced(s) && Free(s) !! Held(s, From(l, 0))
    ensures Free(s) <= Run(0, pub) && Held(s, From(l, 0)) <= Run(0, pub)
  {
    hide Resting, From, NoDup, Ids, Ledger, Run;
    RestingApart(s, From(l, 0), pub, Free(s) + Held(s, From(l, 0)), chunks, committed);
    WithinPublic(s, From(l, 0), pub);
  }

  lemma UsedShrinks(pub: nat, total: set<nat>, o: nat, n: nat)
    requires Run(o, n) <= Run(0, pub) - total
    ensures n <= |Run(0, pub) - total| && Run(o, n) !! total
    ensures Run(0, pub) - (total + Run(o, n)) == Run(0, pub) - total - Run(o, n)
    ensures |Run(0, pub) - (total + Run(o, n))| == |Run(0, pub) - total| - n
  {
    hide Run;
    RunSize(o, n);
    DifferenceSize(Run(0, pub) - total, Run(o, n));
    SubsetSize(Run(o, n), Run(0, pub) - total);
    assert Run(0, pub) - (total + Run(o, n)) == Run(0, pub) - total - Run(o, n);
  }

  /** Used pages can be batched. */
  lemma CanBatch(s: State, l: seq<nat>, pages: nat, min: nat, max: nat, occupied: nat,
                 chunks: seq<nat>, committed: set<nat>, pub: nat, o: nat, n: nat)
    requires Balanced(s, l, pages, min, max, occupied, chunks, committed, pub)
    requires Run(o, n) <= Run(0, pub) - (Free(s) + Held(s, From(l, 0)))
    ensures BlocksApart(s, From(l, 0), pub) && Run(o, n) !! Free(s) && Run(o, n) !! Held(s, From(l, 0))
    ensures n <= occupied
  {
    hide Run, Ids, Ledger, From, NoDup, Resting, Summed, Free, Held;
    RestingApart(s, From(l, 0), pub, Free(s) + Held(s, From(l, 0)), chunks, committed);
    UsedShrinks(pub, Free(s) + Held(s, From(l, 0)), o, n);
  }

  /** A block freed into the batch. */
  lemma Enlisted(s: State, s': State, l: seq<nat>, pages: nat, min: nat, max: nat, occupied: nat,
                 chunks: seq<nat>, committed: set<nat>, pub: nat, id: nat, o: nat, n: nat)
    requires Balanced(s, l, pages, min, max, occupied, chunks, committed, pub) && pub < NIL
    requires id !in Ids(s.tree) && id !in From(l, 0) && id < |s.off| && id < |s.size|
    requires n > 0 && o + n <= pub && Run(o, n) <= Run(0, pub) - (Free(s) + Held(s, From(l, 0)))
    requires s'.off == s.off[id := o] && s'.size == s.size[id := n] && s'.tree == s.tree
    ensures var l' := l + [id];
      && n <= occupied && From(l', 0) == From(l, 0) + {id}
      && Free(s') == Free(s) && Held(s', From(l', 0)) == Held(s, From(l, 0)) + Run(o, n)
      && Run(0, pub) - (Free(s') + Held(s', From(l', 0))) == Run(0, pub) - (Free(s) + Held(s, From(l, 0))) - Run(o, n)
      && Balanced(s', l', pages + n, Least(min, o), Greatest(max, o), occupied - n, chunks, committed, pub)
  {
    hide Run, Ids, Ledger, From, NoDup, Resting, Summed, Free, Held;
    var total := Free(s) + Held(s, From(l, 0));
    UsedShrinks(pub, total, o, n);
    BatchInBounds(s, l, pub, total, chunks, committed);
    RestingApart(s, From(l, 0), pub, total, chunks, committed);
    JoinsBatch(s, s', l, pub, total, chunks, committed, id, o, n);
    SummedJoins(s, s', l, id, o, n, pages, min, max);
    assert Free(s) + (Held(s, From(l, 0)) + Run(o, n)) == total + Run(o, n);
  }

  // ---------- taking pages ----------

  lemma UsedGrows(pub: nat, total: set<nat>, total': set<nat>, o: nat, n: nat)
    requires Run(o, n) <= total && total <= Run(0, pub) && total' == total - Run(o, n)
    ensures Run(0, pub) - total' == Run(0, pub) - total + Run(o, n)
    ensures |Run(0, pub) - total'| == |Run(0, pub) - total| + n
  {
    hide Run;
    RunSize(o, n);
    var used := Run(0, pub) - total;
    assert used !! Run(o, n);
    assert |used + Run(o, n)| == |used| + |Run(o, n)|;
  }

  lemma SummedStays(s: State, s': State, l: seq<nat>, pages: nat, min: nat, max: nat)
    requires Summed(s, l, pages, min, max) && Held(s', From(l, 0)) == Held(s, From(l, 0))
    requires Untouched(s.off, s.size, s'.off, s'.size, From(l, 0)) && |s.off| == |s.size|
    ensures Summed(s', l, pages, min, max)
  {
    hide Held;
    forall k | 0 <= k < |l| ensures l[k] in From(l, 0) {
    }
    hide From;
  }

  /** The blocks' pages lie in the public partition. */
  lemma WithinPublic(s: State, rest: set<nat>, pub: nat)
    requires BlocksApart(s, rest, pub)
    ensures Free(s) <= Run(0, pub) && Held(s, rest) <= Run(0, pub)
  {
    hide Run, Ids;
  }

  lemma TakenRests(s: State, s': State, l: seq<nat>, chunks: seq<nat>, committed: set<nat>, pub: nat,
                   o: nat, n: nat, chunks': seq<nat>, committed': set<nat>)
    requires Resting(s, From(l, 0), pub, Free(s) + Held(s, From(l, 0)), chunks, committed)
    requires RunTaken(s, s', From(l, 0), pub, o, n) && Ids(s'.tree) !! From(l, 0)
    requires Metered(chunks', committed', Free(s'), pub)
    ensures Resting(s', From(l, 0), pub, Free(s') + Held(s', From(l, 0)), chunks', committed')
  {
    hide Run, Ids, Ledger, From, Pages, Spaced, Disjoint, Metered;
  }

  lemma MeterTaken(chunks: seq<nat>, committed: set<nat>, free: set<nat>, pub: nat, o: nat, n: nat,
                   chunks': seq<nat>)
    requires Metered(chunks, committed, free, pub) && Run(o, n) <= free <= Run(0, pub) && n > 0 && o + n <= pub
    requires |chunks'| == |chunks| && Ledger(chunks', Run(0, pub) - free + Run(o, n))
    ensures pub <= 255 * |chunks|
    ensures Metered(chunks', committed + Interval(ChunkInterval(chunks, o, n, pub)), free - Run(o, n), pub)
  {
    hide Run, Ledger, ChunkInterval;
    assert Run(0, pub) - (free - Run(o, n)) == Run(0, pub) - free + Run(o, n);
    CommitKeeps(chunks, Run(0, pub) - free, committed, pub, o, n, chunks');
  }

  /** Free pages can be counted. */
  lemma CanTake(s: State, l: seq<nat>, pages: nat, min: nat, max: nat, occupied: nat,
                chunks: seq<nat>, committed: set<nat>, pub: nat, id: nat, left: nat, n: nat)
    requires Balanced(s, l, pages, min, max, occupied, chunks, committed, pub)
    requires id in Ids(s.tree) && id < |s.off| && id < |s.size| && n > 0 && left + n <= s.size[id]
    ensures BlocksApart(s, From(l, 0), pub) && s.off[id] + left + n <= pub <= 255 * |chunks|
    ensures Run(s.off[id] + left, n) <= Free(s) && Ledger(chunks, Run(0, pub) - Free(s))
  {
    hide Run, Ids, Ledger, From, NoDup, Summed;
    RestingApart(s, From(l, 0), pub, Free(s) + Held(s, From(l, 0)), chunks, committed);
    PagesIn(s.off, s.size, Ids(s.tree), id);
    hide Pages;
    assert Run(s.off[id] + left, n) <= Run(s.off[id], s.size[id]);
  }

  /** Free pages have become used. */
  lemma Taken(s: State, s': State, l: seq<nat>, pages: nat, min: nat, max: nat, occupied: nat,
              chunks: seq<nat>, committed: set<nat>, pub: nat, o: nat, n: nat, chunks': seq<nat>,
              all: set<nat>)
    requires Balanced(s, l, pages, min, max, occupied, chunks, committed, pub)
    requires RunTaken(s, s', From(l, 0), pub, o, n) && Sound(s', all, pub) && From(l, 0) <= all
    requires n > 0 && o + n <= pub <= 255 * |chunks| && Run(o, n) <= Free(s) && |chunks'| == |chunks|
    requires Ledger(chunks', Run(0, pub) - Free(s) + Run(o, n))
    ensures Free(s') == Free(s) - Run(o, n) && Held(s', From(l, 0)) == Held(s, From(l, 0))
    ensures Run(0, pub) - (Free(s') + Held(s', From(l, 0)))
         == Run(0, pub) - (Free(s) + Held(s, From(l, 0))) + Run(o, n)
    ensures Balanced(s', l, pages, min, max, occupied + n, chunks',
                     committed + Interval(ChunkInterval(chunks, o, n, pub)), pub)
  {
    hide Run, Ids, Ledger, From, NoDup, Summed, Sound, Free, Held, RunTaken, ChunkInterval, Committed, Settled;
    TakenPages(s, s', From(l, 0), pub, Free(s) + Held(s, From(l, 0)), chunks, committed, o, n);
    HeldApart(s', all, pub);
    MeterTaken(chunks, committed, Free(s), pub, o, n, chunks');
    TakenRests(s, s', l, chunks, committed, pub, o, n, chunks',
               committed + Interval(ChunkInterval(chunks, o, n, pub)));
    SummedStays(s, s', l, pages, min, max);
  }

  lemma HeldApart(s: State, held: set<nat>, pub: nat)
    requires Sound(s, held, pub)
    ensures Ids(s.tree) !! held
  {
    hide Ids;
  }

  lemma TakenPages(s: State, s': State, rest: set<nat>, pub: nat, total: set<nat>,
                   chunks: seq<nat>, committed: set<nat>, o: nat, n: nat)
    requires Resting(s, rest, pub, total, chunks, committed) && RunTaken(s, s', rest, pub, o, n)
    requires Run(o, n) <= Free(s)
    ensures Free(s) <= Run(0, pub) && |s.off| == |s.size|
    ensures Free(s') == Free(s) - Run(o, n) && Held(s', rest) == Held(s, rest)
    ensures Untouched(s.off, s.size, s'.off, s'.size, rest)
    ensures Run(0, pub) - (Free(s') + Held(s', rest)) == Run(0, pub) - total + Run(o, n)
    ensures |Run(0, pub) - (Free(s') + Held(s', rest))| == |Run(0, pub) - total| + n
  {
    RestingApart(s, rest, pub, total, chunks, committed);
    WithinPublic(s, rest, pub);
    hide Run, Ids, Ledger, Pages, Spaced, Settled, Metered;
    assert Free(s') == Free(s) - Run(o, n) && Held(s', rest) == Held(s, rest);
    hide Free, Held, Disjoint, Untouched;
    assert Free(s') + Held(s', rest) == total - Run(o, n);
    UsedGrows(pub, total, Free(s') + Held(s', rest), o, n);
  }

  // ---------- nodes that track slabs ----------

  lemma SameElsewhere(s: State, s': State, ids: set<nat>, id: nat, o: nat, n: nat)
    requires id !in ids && id < |s.off| && id < |s.size|
    requires s'.off == s.off[id := o] && s'.size == s.size[id := n]
    ensures Untouched(s.off, s.size, s'.off, s'.size, ids) && Pages(s'.off, s'.size, ids) == Pages(s.off, s.size, ids)
  {
    PagesFrame(s.off, s.size, s'.off, s'.size, ids);
  }

  /** A node that is no block's changes. */
  lemma BalancedElsewhere(s: State, s': State, l: seq<nat>, pages: nat, min: nat, max: nat, occupied: nat,
                          chunks: seq<nat>, committed: set<nat>, pub: nat, id: nat, o: nat, n: nat)
    requires Balanced(s, l, pages, min, max, occupied, chunks, committed, pub)
    requires id !in Ids(s.tree) && id !in From(l, 0) && id < |s.off| && id < |s.size|
    requires s'.off == s.off[id := o] && s'.size == s.size[id := n] && s'.tree == s.tree
    ensures Free(s') == Free(s) && Held(s', From(l, 0)) == Held(s, From(l, 0))
    ensures Balanced(s', l, pages, min, max, occupied, chunks, committed, pub)
  {
    hide Run, Ids, NoDup, From, Metered, Pages, Untouched, Settled, Summed;
    SameElsewhere(s, s', Ids(s.tree), id, o, n);
    SameElsewhere(s, s', From(l, 0), id, o, n);
    SettledElsewhere(s.off, s.size, s'.off, s'.size, Ids(s.tree), From(l, 0), pub, Free(s) + Held(s, From(l, 0)));
    SettledSizes(s.off, s.size, Ids(s.tree), From(l, 0), pub, Free(s) + Held(s, From(l, 0)));
    SummedStays(s, s', l, pages, min, max);
  }

  /** The books do not depend on the heap, the links or the free list. */
  lemma BalancedFields(s: State, s': State, l: seq<nat>, pages: nat, min: nat, max: nat, occupied: nat,
                       chunks: seq<nat>, committed: set<nat>, pub: nat)
    requires Balanced(s, l, pages, min, max, occupied, chunks, committed, pub)
    requires s'.off == s.off && s'.size == s.size && s'.tree == s.tree
    ensures Free(s') == Free(s) && Held(s', From(l, 0)) == Held(s, From(l, 0))
    ensures Balanced(s', l, pages, min, max, occupied, chunks, committed, pub)
  {
    hide Run, Ids, Ledger, NoDup, From, Pages, Settled, Metered;
  }

  // ---------- how full the batch can be ----------

  /** Every batched block has a page of its own. */
  lemma BatchFits(s: State, l: seq<nat>, pages: nat, min: nat, max: nat, occupied: nat,
                  chunks: seq<nat>, committed: set<nat>, pub: nat)
    requires Balanced(s, l, pages, min, max, occupied, chunks, committed, pub)
    ensures |l| <= pages && (l == [] ==> pages == 0)
  {
    if l == [] { NothingBatched(s, l); }
    hide Run, Ids, Ledger, From, NoDup, Metered;
    Subfamily(s.off, s.size, Ids(s.tree) + From(l, 0), From(l, 0), pub);
    hide Settled, Disjoint;
    FewerThanPages(s.off, s.size, From(l, 0), pub);
    EntriesCounted(l);
  }

  lemma BatchExtremes(s: State, l: seq<nat>, pages: nat, min: nat, max: nat, occupied: nat,
                      chunks: seq<nat>, committed: set<nat>, pub: nat)
    requires Balanced(s, l, pages, min, max, occupied, chunks, committed, pub) && l != []
    ensures min in Held(s, From(l, 0)) && max in Held(s, From(l, 0))
  {
    hide Ids, Ledger, NoDup, Metered, Pages;
    var k :| 0 <= k < |l| && l[k] < |s.off| && s.off[l[k]] == min;
    StartHeld(s, l, k, pub);
    var m :| 0 <= m < |l| && l[m] < |s.off| && s.off[l[m]] == max;
    StartHeld(s, l, m, pub);
  }

  lemma StartHeld(s: State, l: seq<nat>, k: nat, pub: nat)
    requires k < |l| && l[k] < |s.off| && Disjoint(s.off, s.size, Ids(s.tree) + From(l, 0), pub)
    ensures s.off[l[k]] in Held(s, From(l, 0))
  {
    hide Ids;
    assert l[k] in From(l, 0);
    PagesIn(s.off, s.size, From(l, 0), l[k]);
  }

  lemma FewerThanPages(off: seq<nat>, size: seq<nat>, ids: set<nat>, pub: nat)
    requires Disjoint(off, size, ids, pub)
    ensures |ids| <= |Pages(off, size, ids)|
  {
    var starts := StartsSize(off, size, ids, pub);
    hide Run;
    forall p | p in starts ensures p in Pages(off, size, ids) {
      var i :| i in ids && off[i] == p;
      assert p in Run(off[i], size[i]);
    }
    SubsetSize(starts, Pages(off, size, ids));
  }

  lemma {:induction false} EntriesCounted(l: seq<nat>)
    requires NoDup(l)
    ensures |From(l, 0)| == |l|
  {
    if l == [] {
      assert From(l, 0) == {};
    } else {
      var k := |l| - 1;
      EntriesCounted(l[..k]);
      forall i | 0 <= i < k ensures l[..k][i] == l[i] {
      }
      assert From(l, 0) == From(l[..k], 0) + {l[k]} && l[k] !in From(l[..k], 0);
    }
  }

  /** The positions of the heap's children, 2 i + 1 and 2 i + 2, are at most `pub` + 1. */
  lemma HeapHalfFull(s: State, l: seq<nat>, pages: nat, min: nat, max: nat, occupied: nat,
                     chunks: seq<nat>, committed: set<nat>, pub: nat, all: set<nat>)
    requires Balanced(s, l, pages, min, max, occupied, chunks, committed, pub) && Sound(s, all, pub)
    ensures 2 * |s.h| <= pub + 1
  {
    hide *;
    BalancedApart(s, l, pages, min, max, occupied, chunks, committed, pub);
    HeapReady(s, all, pub);
    BlocksHalf(s, From(l, 0), pub);
    HeapCounted(s.heap, s.h, Ids(s.tree));
  }

  lemma BlocksHalf(s: State, held: set<nat>, pub: nat)
    requires BlocksApart(s, held, pub) && Coalesced(s)
    ensures 2 * |Ids(s.tree)| <= pub + 1
  {
    hide Ids, Run;
    Subfamily(s.off, s.size, Ids(s.tree) + held, Ids(s.tree), pub);
    HalfAsMany(s.off, s.size, Ids(s.tree), pub);
  }

  lemma HeapCounted(heap: seq<nat>, h: seq<nat>, t: set<nat>)
    requires H.Linked(heap, h) && forall i :: i in h <==> i in t
    ensures |h| == |t|
  {
    forall k, m | 0 <= k < m < |h| ensures h[k] != h[m] {
    }
    EntriesCounted(h);
    forall k | 0 <= k < |h| ensures h[k] in t {
      assert h[k] in h;
    }
    assert From(h, 0) == t;
  }

  // ---------- at first ----------

  /** Node 0 is the only one, and its block the whole public partition. */
  ghost predicate First(s: State, pub: nat)
  {
    && Shaped(s, pub) && 0 < pub < NIL
    && s.off[0] == 0 && s.size[0] == pub && s.left[0] == NIL && s.right[0] == NIL && s.heap[0] == 0
    && s.h == [0] && s.root == 0 && s.head == NIL && s.next == 1 && s.tree == Node(Leaf, 0, Leaf) && s.free == []
  }

  lemma FirstSound(s: State, pub: nat)
    requires First(s, pub)
    ensures Sound(s, {}, pub) && Ordered(s.h, s.size)
  {
    hide Prio;
    assert Ids(s.tree) == {0};
    assert IsTree(s.left, s.right, NIL, Leaf);
    assert IsTree(s.left, s.right, s.root, s.tree);
    assert IsTreap(Leaf, s.off) && Ids(Leaf) == {};
    assert IsTreap(s.tree, s.off);
    assert HeapAgrees(s);
  }

  lemma FirstBalanced(s: State, pub: nat, chunks: seq<nat>)
    requires First(s, pub) && pub <= 255 * |chunks|
    requires forall c :: 0 <= c < |chunks| ==> chunks[c] == 0
    ensures Free(s) == Run(0, pub) && Balanced(s, [], 0, NIL, NIL, 0, chunks, {}, pub)
  {
    hide Run, Count;
    assert Ids(s.tree) == {0};
    NothingBatched(s, []);
    PagesOne(s.off, s.size, 0);
    hide From, NoDup, Summed;
    assert Run(0, pub) - Run(0, pub) == {} && Run(0, pub) + {} == Run(0, pub);
    assert Settled(s.off, s.size, {0}, {}, pub, Run(0, pub));
    forall c | 0 <= c < |chunks| ensures chunks[c] == Count({}, 255 * c, 255 * c + 255) {
      CountPositive({}, 255 * c, 255 * c + 255);
    }
  }
}
