/** How the allocator's state shows as plain blocks, and what each step of merging looks like there. */
module Pictures {
  import opened Options
  import opened Treap
  import opened MaxHeap
  import opened StaleHeap
  import opened Blocks
  import opened Chunks
  import opened Allocator
  import opened Merging
  import opened Coalescing
  import opened Pending
  import opened Bisect
  import opened Sequences
  import H = HeapOps
  import P = Plain

  ghost function HeapOf(s: State): seq<PageFree>
  {
    P.BlocksOf(s.off, s.size, s.h)
  }

  ghost function NodeBlock(s: State, id: nat): PageFree
  {
    P.BlockOf(s.off, s.size, id)
  }

  /** The blocks of the nodes `l`, from the `i`-th on. */
  ghost function Rest(s: State, l: seq<nat>, i: nat): seq<PageFree>
    requires i <= |l|
  {
    P.BlocksOf(s.off, s.size, l[i..])
  }

  ghost function RunOf(s: State, run: nat): P.Growing
  {
    P.Growing(HeapOf(s), NodeBlock(s, run), run in Ids(s.tree))
  }

  /** The heap holds the treap's nodes, each of which knows its place. */
  ghost predicate Heaped(s: State)
  {
    && Sized(s.h, s.off) && Sized(s.h, s.size) && H.Linked(s.heap, s.h)
    && forall i :: i in s.h <==> i in Ids(s.tree)
  }

  lemma SoundHeaped(s: State, held: set<nat>, pub: nat)
    requires Sound(s, held, pub)
    ensures Heaped(s) && |s.off| == |s.size| == pub
  {
    HeapReady(s, held, pub);
    hide Sound, Ids;
  }

  /** The heap shows the block of `id` where its node says. */
  ghost predicate HeldAt(s: State, id: nat)
  {
    && id < |s.heap| && s.heap[id] < |HeapOf(s)| && id < |s.off| && id < |s.size|
    && HeapOf(s)[s.heap[id]] == PageFree(s.off[id], s.size[id])
  }

  /** Where a free block is in the heap. */
  lemma HeapPlace(s: State, id: nat)
    requires Heaped(s) && id in Ids(s.tree)
    ensures id < |s.heap| && s.heap[id] < |s.h| && s.h[s.heap[id]] == id && id < |s.off| && id < |s.size|
    ensures |HeapOf(s)| == |s.h| && HeldAt(s, id)
    ensures forall k :: 0 <= k < |s.h| && k != s.heap[id] ==> s.h[k] != id
  {
    hide Ids;
    AtBackIndexOf(s.heap, s.h, id);
  }

  /** The one free block that starts at a page. */
  lemma StartPlace(s: State, id: nat)
    requires Heaped(s) && id in Ids(s.tree) && id < |s.off|
    requires forall i :: i in Ids(s.tree) && i != id && i < |s.off| ==> s.off[i] != s.off[id]
    ensures id < |s.heap| && P.StartingAt(HeapOf(s), s.off[id]) == s.heap[id]
  {
    HeapPlace(s, id);
    hide Ids;
    var b := HeapOf(s);
    forall k | 0 <= k < |b| && k != s.heap[id] ensures b[k].offset != s.off[id] {
      assert s.h[k] in s.h && s.h[k] != id;
    }
  }

  lemma NoStart(s: State, o: nat)
    requires Heaped(s) && forall i :: i in Ids(s.tree) && i < |s.off| ==> s.off[i] != o
    ensures P.StartingAt(HeapOf(s), o) == |s.h|
  {
    hide Ids;
    var b := HeapOf(s);
    forall k | 0 <= k < |b| ensures b[k].offset != o {
      assert s.h[k] in s.h;
    }
  }

  lemma EndPlace(s: State, id: nat, o: nat)
    requires Heaped(s) && id in Ids(s.tree) && id < |s.off| && id < |s.size| && s.off[id] + s.size[id] == o
    requires forall i :: i in Ids(s.tree) && i != id && i < |s.off| && i < |s.size| ==> s.off[i] + s.size[i] != o
    ensures id < |s.heap| && P.EndingAt(HeapOf(s), o) == s.heap[id]
  {
    HeapPlace(s, id);
    hide Ids;
    var b := HeapOf(s);
    forall k | 0 <= k < |b| && k != s.heap[id] ensures P.End(b[k]) != o {
      assert s.h[k] in s.h && s.h[k] != id;
    }
  }

  lemma NoEnd(s: State, o: nat)
    requires Heaped(s)
    requires forall i :: i in Ids(s.tree) && i < |s.off| && i < |s.size| ==> s.off[i] + s.size[i] != o
    ensures P.EndingAt(HeapOf(s), o) == |s.h|
  {
    hide Ids;
    var b := HeapOf(s);
    forall k | 0 <= k < |b| ensures P.End(b[k]) != o {
      assert s.h[k] in s.h;
    }
  }

  /** The run's block grows, in the heap if it is there. */
  lemma GrowShown(s: State, s': State, run: nat, n: nat)
    requires Heaped(s) && run < |s.off| && run < |s.size| && s'.off == s.off && s'.h == s.h
    requires s'.size == s.size[run := s.size[run] + n] && (run in Ids(s'.tree) <==> run in Ids(s.tree))
    requires forall i :: i in Ids(s.tree) && i != run && i < |s.off| ==> s.off[i] != s.off[run]
    ensures RunOf(s', run) == P.Grow(RunOf(s, run), n)
  {
    hide Ids;
    if run in Ids(s.tree) {
      HeapPlace(s, run);
      StartPlace(s, run);
      P.SetShown(s.off, s.size, s.off, s'.size, s.h, s.heap[run], s.off[run], s.size[run] + n);
      assert s.off[run := s.off[run]] == s.off;
    } else {
      P.SameShown(s.off, s.size, s'.off, s'.size, s.h);
    }
  }

  // ---------- a run begins ----------

  lemma StartedAloneShown(s: State, s': State, id: nat)
    requires Heaped(s) && s'.off == s.off && s'.size == s.size && s'.h == s.h && Ids(s'.tree) == Ids(s.tree)
    requires id < |s.off| && id < |s.size| && |s.off| == |s.size|
    requires id !in Ids(s.tree) && forall i :: i in Ids(s.tree) ==> !Adjoins(s, i, id)
    ensures RunOf(s', id) == P.Start(HeapOf(s), NodeBlock(s, id))
  {
    hide Ids;
    NoEnd(s, s.off[id]);
  }

  lemma StartedInPrevShown(s: State, s': State, rest: set<nat>, pub: nat, total: set<nat>, chunks: seq<nat>,
                           committed: set<nat>, id: nat, n: nat)
    requires Heaped(s) && s'.off == s.off && s'.h == s.h && s'.tree == s.tree
    requires Resting(s, rest, pub, total, chunks, committed) && n in Ids(s.tree) && id in rest
    requires Adjoins(s, n, id) && s'.size == Grown(s, n, id).size
    ensures RunOf(s', n) == P.Start(HeapOf(s), NodeBlock(s, id))
  {
    hide Ids, Run, Pages, Ledger;
    forall i | i in Ids(s.tree) && i != n && i < |s.off| && i < |s.size|
      ensures s.off[i] + s.size[i] != s.off[id] && s.off[i] != s.off[n]
    {
      assert s.size[i] > 0 && s.size[n] > 0;
    }
    hide Resting;
    EndPlace(s, n, s.off[id]);
    HeapPlace(s, n);
    GrowShown(s, s', n, s.size[id]);
  }

  // ---------- a run grows ----------

  /** The run stands alone: no free block but it starts where it does. */
  lemma RunAlone(s: State, run: nat, rest: set<nat>, pub: nat, total: set<nat>, chunks: seq<nat>, committed: set<nat>)
    requires Running(s, run, rest, pub, total, chunks, committed)
    ensures run < |s.off| && run < |s.size|
    ensures forall i :: i in Ids(s.tree) && i != run && i < |s.off| ==> s.off[i] != s.off[run]
    ensures forall i, j :: i in Ids(s.tree) && j in Ids(s.tree) && i != j && i < |s.off| && j < |s.off| ==>
              s.off[i] != s.off[j]
  {
    hide Run, Ids, Pages, Ledger;
    forall i, j | i in Ids(s.tree) && j in Ids(s.tree) && i != j && i < |s.off| && j < |s.off|
      ensures s.off[i] != s.off[j]
    {
      assert s.size[i] > 0 && s.size[j] > 0;
    }
  }

  lemma FirstOfRest(s: State, l: seq<nat>, i: nat)
    requires i < |l|
    ensures Rest(s, l, i) != [] && Rest(s, l, i)[0] == NodeBlock(s, l[i]) && Rest(s, l, i)[1..] == Rest(s, l, i + 1)
  {
  }

  /** Blocks that are still to come keep their sizes. */
  lemma RestKept(s: State, s': State, l: seq<nat>, i: nat, run: nat)
    requires i <= |l| && s'.off == s.off && |s'.size| == |s.size| && run !in From(l, i)
    requires forall k :: 0 <= k < |s.size| && k != run ==> s'.size[k] == s.size[k]
    ensures Rest(s', l, i) == Rest(s, l, i)
  {
    forall k | i <= k < |l| ensures l[k] != run {
      assert l[k] in From(l, i);
    }
  }

  /** One step of the run is one of plain blocks. */
  ghost predicate StepShown(s: State, s': State, run: nat, l: seq<nat>, i: nat, i': nat, more: bool, hazard: bool)
  {
    && i <= |l| && i' <= |l|
    && P.Step(RunOf(s, run), Rest(s, l, i)) == P.Stepped(RunOf(s', run), Rest(s', l, i'), more, hazard)
  }

  lemma BatchStepShown(s: State, s': State, run: nat, l: seq<nat>, i: nat)
    requires Heaped(s) && i < |l| && Adjoins(s, run, l[i]) && run !in From(l, i + 1)
    requires s'.off == s.off && s'.h == s.h && s'.tree == s.tree && s'.size == Grown(s, run, l[i]).size
    requires forall i :: i in Ids(s.tree) && i != run && i < |s.off| ==> s.off[i] != s.off[run]
    ensures StepShown(s, s', run, l, i, i + 1, true, false)
  {
    hide Ids, From;
    FirstOfRest(s, l, i);
    RestKept(s, s', l, i + 1, run);
    GrowShown(s, s', run, s.size[l[i]]);
  }

  lemma NextApart(s: State, run: nat, l: seq<nat>, i: nat)
    requires i <= |l| && NothingJoins(s, run, l, i) && run < |s.off| && run < |s.size| && s.size[run] > 0
    ensures Rest(s, l, i) == [] || Rest(s, l, i)[0].offset != s.off[run] + s.size[run]
  {
    if i < |l| { FirstOfRest(s, l, i); }
  }

  lemma StopShown(s: State, run: nat, l: seq<nat>, i: nat)
    requires Heaped(s) && i <= |l| && Complete(s, run) && NothingJoins(s, run, l, i)
    requires run < |s.off| && run < |s.size| && s.size[run] > 0
    ensures StepShown(s, s, run, l, i, i, false, false)
  {
    hide Ids;
    NextApart(s, run, l, i);
    NoStart(s, s.off[run] + s.size[run]);
  }

  /** A hazard shows as one. */
  lemma HazardousShown(s: State, run: nat, j: nat)
    requires Heaped(s) && j in Ids(s.tree) && run < |s.off| && run < |s.size|
    requires forall i :: i in Ids(s.tree) && i != run && i < |s.off| ==> s.off[i] != s.off[run]
    ensures j < |s.heap| && P.Hazardous(RunOf(s, run), s.heap[j]) == HazardAt(s, run, j)
  {
    hide Ids, Hazard;
    HeapPlace(s, j);
    if run in Ids(s.tree) {
      HeapPlace(s, run);
      StartPlace(s, run);
      P.HazardShown(s.off, s.size, s.h, s.heap[j], s.heap[run]);
    }
  }

  /** The run takes up a free block: `s1` is the state with the run's new size. */
  lemma FreeStepShown(s: State, s1: State, s': State, run: nat, l: seq<nat>, i: nat, j: nat, hazard: bool)
    requires Heaped(s) && i <= |l| && NothingJoins(s, run, l, i) && run !in From(l, i)
    requires run < |s.size| && s.size[run] > 0
    requires j in Ids(s.tree) && Adjoins(s, run, j) && j != run && s1 == Grown(s, run, j)
    requires forall a, b :: a in Ids(s.tree) && b in Ids(s.tree) && a != b && a < |s.off| && b < |s.off| ==>
               s.off[a] != s.off[b]
    requires forall i :: i in Ids(s.tree) && i != run && i < |s.off| ==> s.off[i] != s.off[run]
    requires hazard == HazardAt(s1, run, j)
    requires s'.off == s.off && s'.size == s1.size && Ids(s'.tree) == Ids(s.tree) - {j}
    requires j < |s.heap| && s.heap[j] < |s.h| && Sized(s.h, s1.size)
    requires s'.h == Remove(s.h, s1.size, s.heap[j])
    ensures StepShown(s, s', run, l, i, i, true, hazard)
  {
    hide Ids, HazardAt, Remove, From;
    NextApart(s, run, l, i);
    StartPlace(s, j);
    HeapPlace(s, j);
    RestKept(s, s', l, i, run);
    GrowShown(s, s1, run, s.size[j]);
    assert Heaped(s1);
    HazardousShown(s1, run, j);
    P.RemoveShown(s.off, s1.size, s.h, s.heap[j]);
  }

  /** A run of plain blocks leads to `t`, or has come there. */
  ghost predicate Leading(t: P.Stepped, s: State, run: nat, l: seq<nat>, i: nat, more: bool, hazard: bool)
  {
    && i <= |l|
    && if more then P.Leads(t, RunOf(s, run), Rest(s, l, i), hazard)
       else t == P.Stepped(RunOf(s, run), Rest(s, l, i), false, hazard)
  }

  lemma LeadingOn(t: P.Stepped, s: State, s': State, run: nat, l: seq<nat>, i: nat, i': nat, more: bool, any: bool,
                  hazard: bool)
    requires Leading(t, s, run, l, i, true, any) && StepShown(s, s', run, l, i, i', more, hazard)
    ensures Leading(t, s', run, l, i', more, any || hazard)
  {
    hide RunOf, Rest;
    P.LeadsOn(t, RunOf(s, run), Rest(s, l, i), any, P.Stepped(RunOf(s', run), Rest(s', l, i'), more, hazard));
  }

  /** What the run that starts with `l[i]` comes to. */
  ghost function WholeRun(s: State, l: seq<nat>, i: nat): P.Stepped
    requires i < |l|
  {
    P.Extend(P.Start(HeapOf(s), NodeBlock(s, l[i])), Rest(s, l, i + 1))
  }

  lemma LeadingBegins(s0: State, s: State, run: nat, l: seq<nat>, i: nat, insert: bool)
    requires i < |l| && Begun(s0, s, run, l[i], insert) && run !in From(l, i + 1)
    requires RunOf(s, run) == P.Start(HeapOf(s0), NodeBlock(s0, l[i]))
    ensures Leading(WholeRun(s0, l, i), s, run, l, i + 1, true, false)
  {
    hide Ids, From, RunOf, HeapOf, Rest, P.Start;
    RestKept(s0, s, l, i + 1, run);
  }

  /** A whole run of merges is one of plain blocks. */
  ghost predicate RunShown(s: State, s': State, l: seq<nat>, i: nat, i': nat, hazard: bool)
  {
    && i < |l| && i' <= |l|
    && var t := WholeRun(s, l, i); HeapOf(s') == P.Finish(t.run) && Rest(s', l, i') == t.rest && hazard == t.hazard
  }

  lemma RunEndShown(s0: State, s: State, s': State, run: nat, l: seq<nat>, i: nat, i': nat, hazard: bool)
    requires i < |l| && Leading(WholeRun(s0, l, i), s, run, l, i', false, hazard)
    requires s'.off == s.off && s'.size == s.size && HeapOf(s') == P.Finish(RunOf(s, run))
    ensures RunShown(s0, s', l, i, i', hazard)
  {
    hide RunOf, HeapOf, WholeRun;
  }

  lemma MergesShown(t: P.Merging, s: State, s': State, l: seq<nat>, i: nat, i': nat, any: bool, hazard: bool)
    requires i < |l| && P.Merges(t, HeapOf(s), Rest(s, l, i), any) && RunShown(s, s', l, i, i', hazard)
    ensures i' <= |l| && P.Merges(t, HeapOf(s'), Rest(s', l, i'), any || hazard)
  {
    hide HeapOf, P.Merges;
    FirstOfRest(s, l, i);
    hide Rest;
    P.MergesOn(t, HeapOf(s), Rest(s, l, i), any, WholeRun(s, l, i));
  }

  lemma MergesBegin(t: P.Merging, heap: seq<PageFree>, l: seq<PageFree>)
    requires t == P.MergeRuns(heap, l)
    ensures P.Merges(t, heap, l, false)
  {
  }

  lemma MergesEnd(t: P.Merging, s: State, l: seq<nat>, hazard: bool)
    requires P.Merges(t, HeapOf(s), Rest(s, l, |l|), hazard)
    ensures t == P.Merging(HeapOf(s), hazard)
  {
    assert Rest(s, l, |l|) == [];
    P.MergesEnd(t, HeapOf(s), hazard);
  }

  // ---------- the batch ----------

  /** The free and the batched blocks. */
  ghost function ImageOf(s: State, l: seq<nat>): P.Image
  {
    P.Image(HeapOf(s), P.BlocksOf(s.off, s.size, l))
  }

  lemma ListedIn(off: seq<nat>, size: seq<nat>, l: seq<nat>, l': seq<nat>)
    requires forall x :: x in l ==> x in l'
    ensures forall y :: y in P.BlocksOf(off, size, l) ==> y in P.BlocksOf(off, size, l')
  {
    var b, b' := P.BlocksOf(off, size, l), P.BlocksOf(off, size, l');
    forall y | y in b ensures y in b' {
      var k :| 0 <= k < |b| && b[k] == y;
      assert l[k] in l';
      var m :| 0 <= m < |l'| && l'[m] == l[k];
      assert b'[m] == y;
    }
  }

  ghost predicate StartApart(s: State, l: seq<nat>)
  {
    forall i, j :: 0 <= i < j < |l| ==>
      && l[i] < |s.off| && l[j] < |s.off| && l[i] < |s.size| && l[j] < |s.size| && s.off[l[i]] != s.off[l[j]]
  }

  lemma StillApart(s: State, l: seq<nat>, l': seq<nat>)
    requires StartApart(s, l) && NoDup(l') && forall x :: x in l' ==> x in l
    requires forall x :: x in l ==> x < |s.off| && x < |s.size|
    ensures StartApart(s, l')
  {
    forall i, j | 0 <= i < j < |l'|
      ensures l'[i] < |s.off| && l'[j] < |s.off| && l'[i] < |s.size| && l'[j] < |s.size|
      ensures s.off[l'[i]] != s.off[l'[j]]
    {
      assert l'[i] in l && l'[j] in l && l'[i] != l'[j];
      MembersApart(s, l, l'[i], l'[j]);
    }
  }

  lemma MembersApart(s: State, l: seq<nat>, x: nat, y: nat)
    requires StartApart(s, l) && x in l && y in l && x != y
    ensures x < |s.off| && y < |s.off| && x < |s.size| && y < |s.size| && s.off[x] != s.off[y]
  {
    var k :| 0 <= k < |l| && l[k] == x;
    var m :| 0 <= m < |l| && l[m] == y;
    var a, b := if k < m then k else m, if k < m then m else k;
    assert 0 <= a < b < |l| && s.off[l[a]] != s.off[l[b]];
  }

  /** Sorting the nodes sorts their blocks. */
  lemma SortShown(s: State, l: seq<nat>, l': seq<nat>)
    requires multiset(l') == multiset(l) && Ascending(l', s.off) && NoDup(l')
    requires StartApart(s, l) && forall x :: x in l ==> x < |s.off| && x < |s.size|
    ensures P.InOffsetOrder(P.BlocksOf(s.off, s.size, l)) == Rest(s, l', 0)
  {
    var b, b' := P.BlocksOf(s.off, s.size, l), P.BlocksOf(s.off, s.size, l');
    assert l'[0..] == l';
    assert forall x :: x in l <==> x in multiset(l);
    assert forall x :: x in l' <==> x in multiset(l');
    StillApart(s, l, l');
    ListedIn(s.off, s.size, l, l');
    ListedIn(s.off, s.size, l', l);
    P.SortedRises(b);
    P.RisingUnique(P.InOffsetOrder(b), b');
  }

  lemma BatchStarts(s: State, l: seq<nat>, pub: nat, total: set<nat>, chunks: seq<nat>, committed: set<nat>)
    requires Resting(s, From(l, 0), pub, total, chunks, committed)
    requires NoDup(l)
    ensures StartApart(s, l) && forall x :: x in l ==> x < |s.off| && x < |s.size|
  {
    hide Run, Ids, Pages, Ledger, From;
    ListedFrom(l);
    forall i, j | 0 <= i < j < |l| ensures l[i] < |s.off| && l[j] < |s.off| && s.off[l[i]] != s.off[l[j]] {
      assert s.size[l[i]] > 0 && s.size[l[j]] > 0;
    }
  }

  lemma ListedFrom(l: seq<nat>)
    ensures forall x :: x in l <==> x in From(l, 0)
    ensures forall k :: 0 <= k < |l| ==> l[k] in From(l, 0)
  {
  }

  /** A node outside the heap and the batch is given a block. */
  lemma FillShown(s: State, s': State, held: set<nat>, pub: nat, l: seq<nat>, id: nat, o: nat, n: nat)
    requires Sound(s, held, pub) && id !in Ids(s.tree) && id !in From(l, 0) && id < |s.off| && id < |s.size|
    requires s'.off == s.off[id := o] && s'.size == s.size[id := n] && s'.h == s.h
    ensures ImageOf(s', l) == ImageOf(s, l)
    ensures ImageOf(s', l + [id]) == P.Image(ImageOf(s, l).heap, ImageOf(s, l).batch + [PageFree(o, n)])
  {
    HeapReady(s, held, pub);
    hide Sound, Ids, From;
    ListedFrom(l);
    P.SameShown(s.off, s.size, s'.off, s'.size, s.h);
    P.SameShown(s.off, s.size, s'.off, s'.size, l);
  }

  lemma FreeStartApart(s: State, held: set<nat>, pub: nat)
    requires BlocksApart(s, held, pub)
    ensures forall i, j :: i in Ids(s.tree) && j in Ids(s.tree) && i != j && i < |s.off| && j < |s.off| ==>
      s.off[i] != s.off[j]
  {
    hide Ids;
    forall i, j | i in Ids(s.tree) && j in Ids(s.tree) && i != j && i < |s.off| && j < |s.off|
      ensures s.off[i] != s.off[j]
    {
      assert s.size[i] > 0 && s.size[j] > 0;
    }
  }

  // ---------- pages are taken ----------

  /** The free block `id` has changed and been sifted into place. */
  ghost predicate FixedAs(s: State, s': State, id: nat, o: nat, n: nat)
  {
    && id < |s.heap| && s.heap[id] < |HeapOf(s)|
    && HeapOf(s') == P.Fixed(HeapOf(s)[s.heap[id] := PageFree(o, n)], s.heap[id])
  }

  lemma FixedShown(s: State, s': State, id: nat, o: nat, n: nat)
    requires Heaped(s) && id in Ids(s.tree) && id < |s.off| && id < |s.size|
    requires s'.off == s.off[id := o] && s'.size == s.size[id := n] && id < |s.heap| && s.heap[id] < |s.h|
    requires Sized(s.h, s'.size) && s'.h == MaxHeap.Fix(s.h, s'.size, s.heap[id])
    ensures FixedAs(s, s', id, o, n)
  {
    hide Ids, MaxHeap.Fix;
    HeapPlace(s, id);
    P.SetShown(s.off, s.size, s'.off, s'.size, s.h, s.heap[id], o, n);
    P.FixShown(s'.off, s'.size, s.h, s.heap[id]);
  }

  lemma AddedShown(s: State, s1: State, s': State, held: set<nat>, pub: nat, id: nat, o: nat, n: nat)
    requires Sound(s, held, pub) && id !in Ids(s.tree) && id < |s.off| && id < |s.size|
    requires s1.off == s.off[id := o] && s1.size == s.size[id := n] && s1.h == s.h
    requires s'.off == s1.off && s'.size == s1.size && Sized(s1.h, s1.size) && s'.h == Push(s1.h, s1.size, id)
    ensures HeapOf(s') == P.Pushed(HeapOf(s), PageFree(o, n))
  {
    HeapReady(s, held, pub);
    hide Sound, Ids, Push;
    P.SameShown(s.off, s.size, s1.off, s1.size, s.h);
    P.PushShown(s1.off, s1.size, s1.h, id);
  }

  /** Pages have been cut out of the free block `id`. */
  ghost predicate CutAs(s: State, s': State, id: nat, left: nat, n: nat)
  {
    && id < |s.heap| && s.heap[id] < |HeapOf(s)| && left + n <= HeapOf(s)[s.heap[id]].pages
    && HeapOf(s') == P.Cut(HeapOf(s), s.heap[id], left, n)
  }

  lemma FrontCut(s: State, s': State, id: nat, n: nat)
    requires HeldAt(s, id) && 0 < n < s.size[id]
    requires FixedAs(s, s', id, s.off[id] + n, s.size[id] - n)
    ensures CutAs(s, s', id, 0, n)
  {
    hide HeapOf, P.Fixed, P.Pushed, P.Removed, P.Cut;
    P.CutUnfolds(HeapOf(s), s.heap[id], 0, n, s.off[id], s.size[id]);
  }

  lemma AllCut(s: State, s': State, id: nat)
    requires Heaped(s) && id in Ids(s.tree) && id < |s.off| && id < |s.size| && id < |s.heap| && s.heap[id] < |s.h|
    requires s'.off == s.off && s'.size == s.size && s'.h == Remove(s.h, s.size, s.heap[id])
    ensures CutAs(s, s', id, 0, s.size[id])
  {
    hide Ids, Remove, P.Cut;
    HeapPlace(s, id);
    P.CutUnfolds(HeapOf(s), s.heap[id], 0, s.size[id], s.off[id], s.size[id]);
    P.RemoveShown(s.off, s.size, s.h, s.heap[id]);
  }

  lemma RearCut(s: State, s': State, id: nat, left: nat, n: nat)
    requires HeldAt(s, id) && 0 < left && left + n == s.size[id]
    requires FixedAs(s, s', id, s.off[id], left)
    ensures CutAs(s, s', id, left, n)
  {
    hide HeapOf, P.Fixed, P.Pushed, P.Removed, P.Cut;
    P.CutUnfolds(HeapOf(s), s.heap[id], left, n, s.off[id], s.size[id]);
  }

  lemma MiddleCut(s: State, s1: State, s': State, id: nat, left: nat, n: nat)
    requires HeldAt(s, id) && 0 < left && left + n < s.size[id]
    requires FixedAs(s, s1, id, s.off[id], left)
    requires HeapOf(s') == P.Pushed(HeapOf(s1), PageFree(s.off[id] + left + n, s.size[id] - n - left))
    ensures CutAs(s, s', id, left, n)
  {
    hide HeapOf, P.Fixed, P.Pushed, P.Removed, P.Cut;
    P.CutUnfolds(HeapOf(s), s.heap[id], left, n, s.off[id], s.size[id]);
  }

  /** Taking free pages leaves the batch alone. */
  lemma BatchKept(s: State, s': State, l: seq<nat>, pub: nat, o: nat, n: nat)
    requires RunTaken(s, s', From(l, 0), pub, o, n) && |s.off| == |s.size|
    ensures ImageOf(s', l).batch == ImageOf(s, l).batch
  {
    hide Ids, Run, Pages, Spaced, Disjoint, From;
    ListedFrom(l);
  }

  /** What the search finds among the nodes is what it finds among plain blocks. */
  lemma FoundShown(s: State, q: Request)
    requires Heaped(s)
    ensures match PageBisect(s.h, s.off, s.size, 0, q)
      case Some(p) => p.id < |s.heap| && P.Found(HeapOf(s), q) == Some(Spot(s.heap[p.id], p.left))
      case None => P.Found(HeapOf(s), q) == None
  {
    P.BisectShown(s.off, s.size, s.h, 0, q);
    var r := P.Found(HeapOf(s), q);
    hide Ids, PageBisect, P.Found;
    if r.Some? { HeapPlace(s, s.h[r.value.id]); }
  }

  lemma TakeShown(s: State, s': State, p: Spot, q: Request, v: P.Image, o: nat)
    requires HeldAt(s, p.id) && P.Found(HeapOf(s), q) == Some(Spot(s.heap[p.id], p.left))
    requires CutAs(s, s', p.id, p.left, q.pages) && v.heap == HeapOf(s) && o == s.off[p.id] + p.left
    ensures P.Take(v, q) == P.Answer(Some(o), v.(heap := HeapOf(s')))
  {
    hide HeapOf, P.Found, P.Cut;
  }

  lemma TakeAtShown(s: State, s': State, id: nat, n: nat, v: P.Image)
    requires HeldAt(s, id) && P.StartingAt(HeapOf(s), s.off[id]) == s.heap[id]
    requires CutAs(s, s', id, 0, n) && v.heap == HeapOf(s)
    ensures P.TakeAt(v, s.off[id], n) == P.Answer(Some(s.off[id]), v.(heap := HeapOf(s')))
  {
    hide HeapOf, P.Cut, P.StartingAt;
  }

  /** A free block starts at `o`, if any; with fewer than `n` pages there are none to take. */
  lemma NothingTaken(s: State, o: nat, n: nat, v: P.Image)
    requires Heaped(s) && v.heap == HeapOf(s)
    requires forall i :: i in Ids(s.tree) && i < |s.off| && i < |s.size| ==> s.off[i] != o || s.size[i] < n
    ensures P.TakeAt(v, o, n) == P.Answer(None, v)
  {
    hide Ids, P.Cut;
    var k := P.StartingAt(HeapOf(s), o);
    if k < |s.h| { assert s.h[k] in s.h; }
  }

  lemma FirstShown(s: State, pub: nat)
    requires First(s, pub)
    ensures ImageOf(s, []) == P.Image([PageFree(0, pub)], [])
  {
  }

  // ---------- what the plain blocks say ----------

  /** The pages of the blocks shown are those of the nodes. */
  lemma PagesShown(off: seq<nat>, size: seq<nat>, l: seq<nat>, ids: set<nat>)
    requires |off| == |size| && forall i :: i in l <==> i in ids
    ensures PendingPages(P.BlocksOf(off, size, l)) == Pages(off, size, ids)
  {
    hide Run;
    var b := P.BlocksOf(off, size, l);
    forall p | p in PendingPages(b) ensures p in Pages(off, size, ids) {
      var k :| 0 <= k < |b| && p in PagesOf(b[k]);
      assert l[k] in ids;
      NoPagesAtAll();
    }
    forall p | p in Pages(off, size, ids) ensures p in PendingPages(b) {
      var i :| i in ids && i < |off| && i < |size| && p in Run(off[i], size[i]);
      var k :| 0 <= k < |l| && l[k] == i;
      assert p in PagesOf(b[k]);
    }
  }

  lemma HeapedMembers(s: State)
    requires Heaped(s)
    ensures Sized(s.h, s.off) && Sized(s.h, s.size) && forall i :: i in s.h <==> i in Ids(s.tree)
  {
    hide Ids;
  }

  lemma FreeAndHeld(s: State, held: set<nat>)
    ensures Free(s) == Pages(s.off, s.size, Ids(s.tree)) && Held(s, held) == Pages(s.off, s.size, held)
  {
  }

  lemma NoPagesAtAll()
    ensures Run(0, 0) == {}
  {
  }

  lemma {:induction false} TotalShown(off: seq<nat>, size: seq<nat>, l: seq<nat>, pub: nat)
    requires NoDup(l) && Disjoint(off, size, From(l, 0), pub)
    ensures |Pages(off, size, From(l, 0))| == P.Total(P.BlocksOf(off, size, l))
  {
    var b := P.BlocksOf(off, size, l);
    if l == [] {
      assert Pages(off, size, From(l, 0)) == {};
    } else {
      var n := |l| - 1;
      var m := l[..n];
      assert l == m + [l[n]] && b[..n] == P.BlocksOf(off, size, m);
      assert l[n] !in From(m, 0) && NoDup(m);
      FromAppends(m, l[n]);
      hide From, Run, Pages;
      Subfamily(off, size, From(l, 0), From(m, 0), pub);
      TotalShown(off, size, m, pub);
      PagesUnion(off, size, From(m, 0), {l[n]});
      PagesDisjoint(off, size, From(m, 0), {l[n]}, pub);
      PagesOne(off, size, l[n]);
      RunSize(off[l[n]], size[l[n]]);
    }
  }

  lemma StraddlesShown(off: seq<nat>, size: seq<nat>, l: seq<nat>, min: nat, max: nat, o: nat)
    requires |off| == |size| && Extremes(off, l, min, max) && forall k :: 0 <= k < |l| ==> l[k] < |off|
    ensures P.Straddles(P.BlocksOf(off, size, l), o) <==> min <= o <= max
  {
    var b := P.BlocksOf(off, size, l);
    assert forall k :: 0 <= k < |l| ==> b[k].offset == off[l[k]];
    if min <= o <= max {
      var i :| 0 <= i < |l| && l[i] < |off| && off[l[i]] == min;
      var j :| 0 <= j < |l| && l[j] < |off| && off[l[j]] == max;
      assert b[i].offset <= o && o <= b[j].offset;
    }
  }

  // ---------- a run ends ----------

  lemma FixedRunShown(s: State, s': State, run: nat)
    requires Heaped(s) && run in Ids(s.tree) && s'.off == s.off && s'.size == s.size
    requires forall i :: i in Ids(s.tree) && i != run && i < |s.off| ==> s.off[i] != s.off[run]
    requires run < |s.heap| && s.heap[run] < |s.h| && s'.h == MaxHeap.Fix(s.h, s.size, s.heap[run])
    ensures HeapOf(s') == P.Finish(RunOf(s, run))
  {
    hide Ids, MaxHeap.Fix;
    HeapPlace(s, run);
    StartPlace(s, run);
    P.FixShown(s.off, s.size, s.h, s.heap[run]);
  }

  lemma PushedRunShown(s: State, s': State, run: nat)
    requires Heaped(s) && run !in Ids(s.tree) && s'.off == s.off && s'.size == s.size
    requires run < |s.off| && run < |s.size| && s'.h == Push(s.h, s.size, run)
    ensures HeapOf(s') == P.Finish(RunOf(s, run))
  {
    hide Ids, Push;
    P.PushShown(s.off, s.size, s.h, run);
  }
}
