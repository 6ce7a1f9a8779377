/** Merging batched blocks with their neighbours: what one run of merges keeps. `t` holds the
    free blocks together with the run being merged, `rest` the batched blocks still to come. */
module Merging {
  import opened Blocks
  import opened Chunks

  /** Between runs: no two free blocks touch, and free and batched pages add up to `total`. */
  ghost predicate Settled(off: seq<nat>, size: seq<nat>, t: set<nat>, rest: set<nat>, pub: nat, total: set<nat>)
  {
    && t !! rest && Disjoint(off, size, t + rest, pub) && Spaced(off, size, t)
    && Pages(off, size, t) + Pages(off, size, rest) == total
  }

  /** Only the run may end where another block starts. */
  ghost predicate SpacedBut(off: seq<nat>, size: seq<nat>, t: set<nat>, run: nat)
  {
    |off| == |size| &&
    forall i, j :: i in t && j in t && i != run && i < |off| && j < |off| ==> off[i] + size[i] != off[j]
  }

  /** While `run` grows to the right. */
  ghost predicate Growing(off: seq<nat>, size: seq<nat>, t: set<nat>, rest: set<nat>, pub: nat, total: set<nat>,
                          run: nat)
  {
    && run in t && t !! rest && Disjoint(off, size, t + rest, pub) && SpacedBut(off, size, t, run)
    && Pages(off, size, t) + Pages(off, size, rest) == total
  }

  /** The run starts in the free block before it. */
  lemma JoinPrev(off: seq<nat>, size: seq<nat>, t: set<nat>, rest: set<nat>, pub: nat, total: set<nat>,
                 run: nat, n: nat, size': seq<nat>)
    requires Settled(off, size, t, rest, pub, total) && run in rest && n in t && run < |off| && n < |off| == |size|
    requires off[n] + size[n] == off[run] && size' == size[n := size[n] + size[run]]
    ensures Growing(off, size', t, rest - {run}, pub, total, n)
    ensures Pages(off, size', t) == Pages(off, size, t) + Run(off[run], size[run])
  {
    hide Run, Pages;
    MergeBlocks(off, size, t + rest, pub, n, run);
    assert (t + rest) - {run} == t + (rest - {run});
    Subfamily(off, size, t + rest, t + {run}, pub);
    MergeBlocks(off, size, t + {run}, pub, n, run);
    assert t + {run} - {run} == t;
    Apart(off, size, t, rest, run);
    PagesFrame(off, size, off, size', rest - {run});
  }

  /** No free block ends where the run starts. */
  lemma JoinNone(off: seq<nat>, size: seq<nat>, t: set<nat>, rest: set<nat>, pub: nat, total: set<nat>, run: nat)
    requires Settled(off, size, t, rest, pub, total) && run in rest && run < |off| == |size|
    requires forall i :: i in t && i < |off| ==> off[i] + size[i] != off[run]
    ensures Growing(off, size, t + {run}, rest - {run}, pub, total, run)
    ensures Pages(off, size, t + {run}) == Pages(off, size, t) + Run(off[run], size[run])
  {
    hide Run, Pages;
    assert t + {run} + (rest - {run}) == t + rest;
    Apart(off, size, t, rest, run);
  }

  lemma Apart(off: seq<nat>, size: seq<nat>, t: set<nat>, rest: set<nat>, run: nat)
    requires run in rest && run < |off| == |size|
    ensures Pages(off, size, t + {run}) == Pages(off, size, t) + Run(off[run], size[run])
    ensures Pages(off, size, rest) == Pages(off, size, rest - {run}) + Run(off[run], size[run])
  {
    hide Run, Pages;
    PagesUnion(off, size, t, {run});
    PagesUnion(off, size, rest - {run}, {run});
    assert rest - {run} + {run} == rest;
    PagesOne(off, size, run);
  }

  /** The run absorbs a batched block. */
  lemma JoinBatch(off: seq<nat>, size: seq<nat>, t: set<nat>, rest: set<nat>, pub: nat, total: set<nat>,
                  run: nat, j: nat, size': seq<nat>)
    requires Growing(off, size, t, rest, pub, total, run) && j in rest && j < |off| && run < |off| == |size|
    requires off[run] + size[run] == off[j] && size' == size[run := size[run] + size[j]]
    ensures Growing(off, size', t, rest - {j}, pub, total, run)
    ensures Pages(off, size', t) == Pages(off, size, t) + Run(off[j], size[j])
  {
    hide Run, Pages;
    MergeBlocks(off, size, t + rest, pub, run, j);
    assert (t + rest) - {j} == t + (rest - {j});
    Subfamily(off, size, t + rest, t + {j}, pub);
    MergeBlocks(off, size, t + {j}, pub, run, j);
    assert t + {j} - {j} == t;
    Apart(off, size, t, rest, j);
    PagesFrame(off, size, off, size', rest - {j});
  }

  /** The run absorbs a free block. */
  lemma JoinFree(off: seq<nat>, size: seq<nat>, t: set<nat>, rest: set<nat>, pub: nat, total: set<nat>,
                 run: nat, j: nat, size': seq<nat>)
    requires Growing(off, size, t, rest, pub, total, run) && j in t && j != run && j < |off| && run < |off| == |size|
    requires off[run] + size[run] == off[j] && size' == size[run := size[run] + size[j]]
    ensures Growing(off, size', t - {j}, rest, pub, total, run)
    ensures Pages(off, size', t - {j}) == Pages(off, size, t)
  {
    hide Run, Pages;
    MergeBlocks(off, size, t + rest, pub, run, j);
    assert (t + rest) - {j} == t - {j} + rest;
    Subfamily(off, size, t + rest, t, pub);
    MergeBlocks(off, size, t, pub, run, j);
    PagesFrame(off, size, off, size', rest);
  }

  /** No free block starts where the run ends: it is complete. */
  lemma RunComplete(off: seq<nat>, size: seq<nat>, t: set<nat>, rest: set<nat>, pub: nat, total: set<nat>, run: nat)
    requires Growing(off, size, t, rest, pub, total, run) && run < |off| == |size|
    requires forall j :: j in t && j < |off| ==> off[run] + size[run] != off[j]
    ensures Settled(off, size, t, rest, pub, total)
  {
    hide Run, Pages;
  }

  lemma SpacedElsewhere(off: seq<nat>, size: seq<nat>, off': seq<nat>, size': seq<nat>, t: set<nat>)
    requires Spaced(off, size, t) && |off'| == |off| && |size'| == |size|
    requires forall i :: i in t && i < |off| ==> off'[i] == off[i] && size'[i] == size[i]
    ensures Spaced(off', size', t)
  {
  }

  /** One more batched block. */
  lemma SettledSizes(off: seq<nat>, size: seq<nat>, t: set<nat>, rest: set<nat>, pub: nat, total: set<nat>)
    requires Settled(off, size, t, rest, pub, total)
    ensures |off| == |size|
  {
  }

  /** Other nodes' fields do not matter. */
  lemma SettledElsewhere(off: seq<nat>, size: seq<nat>, off': seq<nat>, size': seq<nat>, t: set<nat>, rest: set<nat>,
                         pub: nat, total: set<nat>)
    requires Settled(off, size, t, rest, pub, total)
    requires Untouched(off, size, off', size', t) && Untouched(off, size, off', size', rest)
    ensures Settled(off', size', t, rest, pub, total)
  {
    PagesFrame(off, size, off', size', t);
    PagesFrame(off, size, off', size', rest);
    hide Pages;
    SpacedElsewhere(off, size, off', size', t);
  }

  lemma SettledJoins(off: seq<nat>, size: seq<nat>, t: set<nat>, rest: set<nat>, pub: nat, total: set<nat>,
                     id: nat, o: nat, n: nat)
    requires Settled(off, size, t, rest, pub, total) && id !in t && id !in rest && id < |off|
    requires n > 0 && o + n <= pub && Run(o, n) !! total
    ensures var (off', size') := (off[id := o], size[id := n]);
      && Settled(off', size', t, rest + {id}, pub, total + Run(o, n))
      && Pages(off', size', t) == Pages(off, size, t)
      && Pages(off', size', rest + {id}) == Pages(off, size, rest) + Run(o, n)
  {
    hide Run, Pages;
    var (off', size') := (off[id := o], size[id := n]);
    assert rest + t == t + rest;
    AddIn(off, size, rest, t, pub, id, o, n);
    assert (rest + {id}) + t == t + (rest + {id});
    PagesFrame(off, size, off', size', t);
    SpacedElsewhere(off, size, off', size', t);
    hide Spaced, Disjoint;
    assert Pages(off, size, t) + (Pages(off, size, rest) + Run(o, n)) == total + Run(o, n);
  }

  // ---------- the chunk ledger meanwhile ----------

  /** Every page outside the free blocks is counted, and the committed memory is in step. */
  ghost predicate Metered(chunks: seq<nat>, committed: set<nat>, free: set<nat>, pub: nat)
  {
    Ledger(chunks, Run(0, pub) - free) && Committed(chunks, committed, pub)
  }

  /** The committed memory may lag on the run. */
  ghost predicate MeteredBut(chunks: seq<nat>, committed: set<nat>, free: set<nat>, pub: nat, o: nat, n: nat)
  {
    Ledger(chunks, Run(0, pub) - free) && Lagging(chunks, committed, pub, o, n)
  }

  lemma UncountFirst(chunks: seq<nat>, committed: set<nat>, free: set<nat>, pub: nat, x: nat, k: nat,
                     chunks': seq<nat>, free': set<nat>, o: nat, n: nat)
    requires Metered(chunks, committed, free, pub) && |chunks'| == |chunks|
    requires Ledger(chunks', Run(0, pub) - free - Run(x, k)) && free' == free + Run(x, k)
    requires o <= x && x + k <= o + n
    ensures MeteredBut(chunks', committed, free', pub, o, n)
  {
    hide Run, Ledger;
    assert Run(0, pub) - free - Run(x, k) == Run(0, pub) - free';
    CommittedLags(chunks, committed, pub, x, k);
    UncountLags(chunks, Run(0, pub) - free, committed, pub, x, k, x, k, chunks', o, n);
  }

  lemma UncountMore(chunks: seq<nat>, committed: set<nat>, free: set<nat>, pub: nat, x: nat, k: nat,
                    chunks': seq<nat>, free': set<nat>, o: nat, n: nat)
    requires MeteredBut(chunks, committed, free, pub, o, n) && |chunks'| == |chunks|
    requires Ledger(chunks', Run(0, pub) - free - Run(x, k)) && free' == free + Run(x, k)
    requires x == o + n
    ensures MeteredBut(chunks', committed, free', pub, o, n + k)
  {
    hide Run, Ledger;
    assert Run(0, pub) - free - Run(x, k) == Run(0, pub) - free';
    UncountLags(chunks, Run(0, pub) - free, committed, pub, o, n, x, k, chunks', o, n + k);
  }

  lemma MeterWidens(chunks: seq<nat>, committed: set<nat>, free: set<nat>, pub: nat, o: nat, n: nat, k: nat)
    requires MeteredBut(chunks, committed, free, pub, o, n)
    ensures MeteredBut(chunks, committed, free, pub, o, n + k)
  {
    hide Run, Ledger;
    LaggingWidens(chunks, committed, pub, o, n, o, n + k);
  }

  lemma Decommitted(chunks: seq<nat>, committed: set<nat>, free: set<nat>, pub: nat, o: nat, n: nat)
    requires MeteredBut(chunks, committed, free, pub, o, n) && n > 0 && o + n <= pub && Run(o, n) <= free
    ensures pub <= 255 * |chunks|
    ensures Metered(chunks, committed - Interval(ChunkInterval(chunks, o, n, pub)), free, pub)
  {
    hide Run, Ledger;
    DecommitKeeps(chunks, Run(0, pub) - free, committed, pub, o, n);
  }
}
