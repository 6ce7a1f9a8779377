/** A run of one client at the end of which merging a single freed block leaves the heap out of order. */
module HazardRuns {
  import opened Options
  import opened MaxHeap
  import opened StaleHeap
  import opened Blocks
  import opened Bisect
  import opened Searching
  import opened Pending
  import opened AddressSpaces
  import opened LocalSpaces
  import P = Plain
  import PS = PlainSpaces
  import S = Slabs

  const PAGES: nat := 100
  const BUFFER: nat := 300

  // ---------- the blocks ----------

  /** Where the blocks start and how large they are, in the order of their pages. */
  function Start(rank: nat): nat
  {
    if rank == 0 then 0 else if rank == 1 then 31 else if rank == 2 then 35 else if rank == 3 then 45
    else if rank == 4 then 47 else if rank == 5 then 67 else if rank == 6 then 69 else if rank == 7 then 71
    else if rank == 8 then 80 else if rank == 9 then 82 else if rank == 10 then 84 else if rank == 11 then 86
    else 88
  }

  function Size(rank: nat): nat
  {
    if rank == 0 then 30 else if rank == 1 then 3 else if rank == 2 then 9 else if rank == 3 then 2
    else if rank == 4 then 20 else if rank == 7 then 8 else if rank == 12 then 7 else 1
  }

  /** The blocks in the order in which they are freed: twelve, and then the one between blocks 3 and 7. */
  function Rank(i: nat): nat
  {
    if i <= 3 then i else if i <= 6 then i + 2 else if i == 7 then 5 else if i <= 11 then i + 1 else 4
  }

  function Block(i: nat): PageFree
  {
    PageFree(Start(Rank(i)), Size(Rank(i)))
  }

  function Freed(from: nat, to: nat): (r: seq<PageFree>)
    requires from <= to
    ensures |r| == to - from && forall i :: 0 <= i < to - from ==> r[i] == Block(from + i)
  {
    seq(to - from, i requires 0 <= i < to - from => Block(from + i))
  }

  /** Each block ends before the next one starts, or where it does for the last one freed. */
  lemma {:induction false} Ascends(r: nat, q: nat)
    requires r < q < 13
    ensures Start(r) + Size(r) <= Start(q) && (r != 4 && q != 4 ==> Start(r) + Size(r) < Start(q))
    decreases q
  {
    if r + 1 < q { Ascends(r, q - 1); }
  }

  lemma Apart(i: nat, j: nat)
    requires i < 13 && j < 13 && i != j
    ensures P.End(Block(i)) <= Block(j).offset || P.End(Block(j)) <= Block(i).offset
    ensures i < 12 && j < 12 ==> P.End(Block(i)) != Block(j).offset
    ensures Block(i).pages > 0 && P.End(Block(i)) <= PAGES
  {
    if Rank(i) < Rank(j) { Ascends(Rank(i), Rank(j)); } else { Ascends(Rank(j), Rank(i)); }
  }

  lemma Within(i: nat)
    requires i < 13
    ensures Block(i).pages > 0 && P.End(Block(i)) <= PAGES
  {
    Apart(i, if i == 0 then 1 else 0);
  }

  lemma EntrySizes(k: nat)
    requires k < 12
    ensures Block(k).pages == [30, 3, 9, 2, 1, 8, 1, 1, 1, 1, 1, 7][k]
  {
  }

  lemma FreedOrdered(n: nat)
    requires n <= 12
    ensures P.InOrder(Freed(0, n))
  {
    hide Start, Size, Rank;
    var b := Freed(0, n);
    forall i | 0 < i < n ensures Key(P.Places(n), P.Sizes(b), i) <= Key(P.Places(n), P.Sizes(b), Parent(i)) {
      hide Block;
      EntrySizes(i);
      EntrySizes(Parent(i));
    }
  }

  // ---------- blocks that touch no other ----------

  lemma PushedLast(b: seq<PageFree>, x: PageFree)
    requires P.InOrder(b + [x])
    ensures P.Pushed(b, x) == b + [x]
  {
    var n, c := |b|, b + [x];
    assert P.Places(n) + [n] == P.Places(n + 1);
    assert n > 0 ==> Edge(P.Places(n + 1), P.Sizes(c), n);
    assert P.Arranged(c, P.Places(n + 1)) == c;
  }

  ghost predicate Untouching(b: seq<PageFree>)
  {
    forall i, j :: 0 <= i < |b| && 0 <= j < |b| ==> P.End(b[i]) != b[j].offset
  }

  lemma RunAlone(heap: seq<PageFree>, x: PageFree, rest: seq<PageFree>)
    requires Untouching(heap + [x] + rest)
    ensures P.Extend(P.Start(heap, x), rest) == P.Stepped(P.Growing(heap, x, false), rest, false, false)
  {
    var b := heap + [x] + rest;
    assert b[|heap|] == x && (forall i :: 0 <= i < |heap| ==> b[i] == heap[i]);
    assert rest != [] ==> b[|heap| + 1] == rest[0];
    hide P.Removed;
    assert P.EndingAt(heap, x.offset) == |heap|;
    assert P.StartingAt(heap, P.End(x)) == |heap|;
  }

  /** Blocks that touch neither each other nor a free one are pushed one after the other. */
  lemma {:induction false} MergesApart(heap: seq<PageFree>, l: seq<PageFree>)
    requires Untouching(heap + l) && forall n :: 0 <= n <= |l| ==> P.InOrder(heap + l[..n])
    ensures P.MergeRuns(heap, l) == P.Merging(heap + l, false)
    decreases |l|
  {
    hide P.InOrder, P.Pushed, Untouching, P.Extend, P.Start;
    if l == [] {
      assert heap + l == heap;
    } else {
      var x, rest := l[0], l[1..];
      assert heap + [x] + rest == heap + l && l[..1] == [x];
      RunAlone(heap, x, rest);
      PushedLast(heap, x);
      forall n | 0 <= n <= |rest| ensures P.InOrder(heap + [x] + rest[..n]) {
        assert heap + [x] + rest[..n] == heap + l[..n + 1];
      }
      MergesApart(heap + [x], rest);
    }
  }

  lemma Sorted(l: seq<PageFree>)
    requires P.Rising(l)
    ensures P.InOffsetOrder(l) == l
  {
    P.SortedRises(l);
    P.RisingUnique(P.InOffsetOrder(l), l);
  }

  lemma FreedUntouching(n: nat)
    requires n <= 12
    ensures Untouching(Freed(0, n))
  {
    forall i, j | 0 <= i < n && 0 <= j < n ensures P.End(Block(i)) != Block(j).offset {
      if i != j { Apart(i, j); } else { Within(i); }
    }
    hide Block;
  }

  /** Blocks `from` to `to` are freed in the order of their pages, and merged. */
  lemma GroupMerges(from: nat, to: nat)
    requires (from == 0 && to == 7) || (from == 7 && to == 12)
    ensures P.MergeBatch(P.Image(Freed(0, from), Freed(from, to))) == P.Joined(P.Image(Freed(0, to), []), false)
  {
    hide Block, P.InOrder, Untouching, P.Rising, P.MergeRuns, P.InOffsetOrder;
    var heap, l := Freed(0, from), Freed(from, to);
    assert heap + l == Freed(0, to);
    GroupRises(from, to);
    Sorted(l);
    FreedUntouching(to);
    forall n | 0 <= n <= |l| ensures P.InOrder(heap + l[..n]) {
      assert heap + l[..n] == Freed(0, from + n);
      FreedOrdered(from + n);
    }
    MergesApart(heap, l);
  }

  lemma GroupRises(from: nat, to: nat)
    requires (from == 0 && to == 7) || (from == 7 && to == 12)
    ensures P.Rising(Freed(from, to))
  {
    forall i, j | from <= i < j < to ensures Block(i).offset < Block(j).offset {
      Ascends(Rank(i), Rank(j));
      Within(i);
    }
  }

  /** Block 3 ends where the last block starts, and that one where block 7 does; erasing block 7 from
      under block 3, grown to 23 pages, traps the 7 pages of block 11 below it, above which stands
      block 1 with 3. */
  lemma LastHazard()
    ensures P.MergeBatch(P.Image(Freed(0, 12), Freed(12, 13))).hazard
  {
    var heap, l := Freed(0, 12), Freed(12, 13);
    assert l == [Block(12)] && Block(12) == PageFree(47, 20);
    assert l[..0] == [] && P.InOffsetOrder(l) == l;
    Neighbours(heap);
    var m := P.Start(heap, l[0]);
    RunStarts(heap);
    assert l[1..] == [];
    RunMeets(m);
  }

  /** Where the run starts, and what follows it. */
  lemma Neighbours(heap: seq<PageFree>)
    requires heap == Freed(0, 12)
    ensures P.EndingAt(heap, 47) == 3 && P.StartingAt(heap, 45) == 3 && heap[3] == PageFree(45, 2)
    ensures P.StartingAt(heap, 67) == 7 && heap[7] == PageFree(67, 1)
    ensures heap[11].pages == 7 && heap[1].pages == 3
  {
    assert Block(3) == PageFree(45, 2) && Block(7) == PageFree(67, 1) && Block(12) == PageFree(47, 20);
    EntrySizes(11);
    EntrySizes(1);
    forall i | 0 <= i < 12 && i != 3 ensures P.End(Block(i)) != 47 && Block(i).offset != 45 {
      Apart(i, 12);
      Apart(i, 3);
      Within(i);
    }
    forall i | 0 <= i < 12 && i != 7 ensures Block(i).offset != 67 {
      Apart(i, 7);
      Within(i);
    }
    hide Block;
    OnlyOne(heap, 3);
    OnlyOne(heap, 7);
  }

  lemma OnlyOne(b: seq<PageFree>, k: nat)
    requires k < |b|
    ensures (forall i :: 0 <= i < |b| && i != k ==> b[i].offset != b[k].offset) ==> P.StartingAt(b, b[k].offset) == k
    ensures (forall i :: 0 <= i < |b| && i != k ==> P.End(b[i]) != P.End(b[k])) ==> P.EndingAt(b, P.End(b[k])) == k
  {
  }

  lemma RunStarts(heap: seq<PageFree>)
    requires |heap| == 12 && P.EndingAt(heap, 47) == 3 && P.StartingAt(heap, 45) == 3 && heap[3] == PageFree(45, 2)
    ensures P.Start(heap, PageFree(47, 20)) == P.Growing(heap[3 := PageFree(45, 22)], PageFree(45, 22), true)
  {
  }

  lemma RunMeets(m: P.Growing)
    requires m == P.Growing(Freed(0, 12)[3 := PageFree(45, 22)], PageFree(45, 22), true)
    ensures P.Extend(m, []).hazard
  {
    var heap := Freed(0, 12);
    Neighbours(heap);
    hide Block;
    SameStarts(heap, 3, PageFree(45, 22), 67);
    SameStarts(heap, 3, PageFree(45, 22), 45);
    SameStarts(heap, 3, PageFree(45, 23), 45);
    var g := P.Growing(heap[3 := PageFree(45, 23)], PageFree(45, 23), true);
    assert m.heap[3 := PageFree(45, 23)] == g.heap;
    assert P.Grow(m, 1) == g;
    TrapsEleven(g.heap);
    assert P.Hazardous(g, 7);
    hide P.Hazardous, P.Removed;
    assert P.Step(m, []).hazard && P.Step(m, []).more;
  }

  /** Growing a block does not move it. */
  lemma SameStarts(b: seq<PageFree>, k: nat, x: PageFree, o: nat)
    requires k < |b| && x.offset == b[k].offset
    ensures P.StartingAt(b[k := x], o) == P.StartingAt(b, o)
  {
    var c := b[k := x];
    var i, j := P.StartingAt(b, o), P.StartingAt(c, o);
    assert i < |b| ==> c[i].offset == o;
    assert j < |b| ==> b[j].offset == o;
  }

  lemma TrapsEleven(b: seq<PageFree>)
    requires |b| == 12 && b[3].pages == 23 && b[11].pages == 7 && b[1].pages == 3
    ensures Hazard(P.Places(12), P.Sizes(b), 7, 3)
  {
    var h, size := P.Places(12), P.Sizes(b);
    assert Above(3, 7);
    assert Key(h, size, 11) == 7 && Key(h, size, 3) == 23 && Key(h, size, 1) == 3;
  }

  // ---------- the run ----------

  function Everything(): Request
  {
    Request(PAGES, 1, 0)
  }

  lemma TakesAll()
    ensures Legal(Everything()) && Safe(Everything(), PAGES)
    ensures P.Take(P.Image([PageFree(0, PAGES)], []), Everything()) == P.Answer(Some(0), P.Image([], []))
  {
    var b, q := [PageFree(0, PAGES)], Everything();
    assert Place(0, PAGES, q) == Some(0);
    assert P.Found(b, q) == Some(Spot(0, 0));
    assert P.Cut(b, 0, 0, PAGES) == [];
  }

  /** A space of this size whose client has freed the first `n` blocks of all its pages. */
  ghost predicate Reached(space: LocalSpace, n: nat)
    reads space, space.pages, space.Repr()
  {
    && space.Valid() && space.Quiet() && space.Cfg() == PS.Config(PAGES, BUFFER, 0, 2, 0, [])
    && space.LivePages() == Run(0, PAGES) - PendingPages(Freed(0, n))
  }

  lemma PendingJoined(a: seq<PageFree>, b: seq<PageFree>)
    ensures PendingPages(a + b) == PendingPages(a) + PendingPages(b)
  {
    hide PagesOf;
    var c := a + b;
    forall p | p in PendingPages(c) ensures p in PendingPages(a) + PendingPages(b) {
      var k :| 0 <= k < |c| && p in PagesOf(c[k]);
      assert if k < |a| then c[k] == a[k] else c[k] == b[k - |a|];
    }
    forall p | p in PendingPages(a) ensures p in PendingPages(c) {
      var k :| 0 <= k < |a| && p in PagesOf(a[k]);
      assert c[k] == a[k];
    }
    forall p | p in PendingPages(b) ensures p in PendingPages(c) {
      var k :| 0 <= k < |b| && p in PagesOf(b[k]);
      assert c[|a| + k] == b[k];
    }
  }

  lemma BlocksApart(i: nat, j: nat)
    requires i < 13 && j < 13 && i != j
    ensures PagesOf(Block(i)) !! PagesOf(Block(j)) && PagesOf(Block(i)) <= Run(0, PAGES)
  {
    hide Block;
    Apart(i, j);
  }

  lemma GroupQueued(from: nat, to: nat)
    requires from <= to <= 13
    ensures Queued(Freed(from, to), Run(0, PAGES) - PendingPages(Freed(0, from)), PAGES)
    ensures PendingPages(Freed(0, to)) == PendingPages(Freed(0, from)) + PendingPages(Freed(from, to))
  {
    hide Block, PagesOf, Run;
    var a, b := Freed(0, from), Freed(from, to);
    assert Freed(0, to) == a + b;
    PendingJoined(a, b);
    forall k | 0 <= k < |b|
      ensures b[k].pages > 0 && P.End(b[k]) <= PAGES && PagesOf(b[k]) <= Run(0, PAGES) - PendingPages(a)
    {
      Within(from + k);
      BlocksApart(from + k, if from + k == 0 then 1 else 0);
      forall m | 0 <= m < |a| ensures PagesOf(a[m]) !! PagesOf(b[k]) {
        BlocksApart(m, from + k);
      }
    }
    forall k, m | 0 <= k < m < |b| ensures PagesOf(b[k]) !! PagesOf(b[m]) {
      BlocksApart(from + k, from + m);
    }
  }

  lemma LastSize()
    ensures Block(12).pages == 20
  {
  }

  lemma {:induction false} TotalAtMost(l: seq<PageFree>, n: nat)
    requires forall i :: 0 <= i < |l| ==> l[i].pages <= n
    ensures P.Total(l) <= n * |l|
  {
    if l != [] {
      TotalAtMost(l[..|l| - 1], n);
      assert n * |l| == n * (|l| - 1) + n;
    }
  }

  lemma {:induction false} TotalBelow(l: seq<PageFree>, i: nat)
    requires i <= |l|
    ensures P.Total(l[..i]) <= P.Total(l)
    decreases |l| - i
  {
    if i < |l| {
      TotalBelow(l, i + 1);
      assert l[..i + 1][..i] == l[..i];
    } else {
      assert l[..i] == l;
    }
  }

  /** A new space, all of whose pages the client takes. */
  method TakeAll() returns (space: LocalSpace)
    ensures fresh(space) && fresh(space.Repr()) && Reached(space, 0) && space.pages.Image() == P.Image([], [])
  {
    hide LocalSpace.Valid, LocalSpace.LivePages, LocalSpace.LiveBlocks, LocalSpace.Repr, AddressSpace.HeapOrdered;
    hide AddressSpace.Image, LocalSpace.Store;
    space := new LocalSpace(PAGES, BUFFER, 0, 2, 0, []);
    TakePages(space);
  }

  method TakePages(space: LocalSpace)
    requires space.Valid() && space.Quiet() && space.Cfg() == PS.Config(PAGES, BUFFER, 0, 2, 0, [])
    requires space.LivePages() == {} && space.pages.Image() == P.Image([PageFree(0, PAGES)], [])
    modifies space.Repr()
    ensures space.Repr() == old(space.Repr()) && Reached(space, 0) && space.pages.Image() == P.Image([], [])
  {
    hide LocalSpace.Valid, LocalSpace.LivePages, LocalSpace.LiveBlocks, LocalSpace.Store, AddressSpace.HeapOrdered;
    hide AddressSpace.Image, Safe, Legal, Unanswerable, Answers, Run, Fewer, LocalSpace.Unused, P.Take;
    TakesAll();
    ghost var w := space.Shown();
    var r, entries, hazard := space.PageAllocate(Everything());
    NothingFreed();
    assert PS.Allocated(space.Cfg(), w, Everything()) == PS.Settle(w, P.Answer(Some(0), P.Image([], [])));
  }

  lemma NothingFreed()
    ensures PendingPages(Freed(0, 0)) == {} && {} + Run(0, PAGES) == Run(0, PAGES) - {}
  {
  }

  /** Blocks are freed one by one; the batch is too large to be merged. */
  method FreeAll(space: LocalSpace, l: seq<PageFree>)
    requires space.Valid() && space.Quiet() && Queued(l, space.LivePages(), PAGES)
    requires space.Cfg() == PS.Config(PAGES, BUFFER, 0, 2, 0, []) && space.pages.Image().batch == []
    requires P.Total(l) < BUFFER
    modifies space.Repr()
    ensures space.Repr() == old(space.Repr()) && space.Valid() && space.Quiet()
    ensures space.LivePages() == old(space.LivePages()) - PendingPages(l)
    ensures space.pages.Image() == P.Image(old(space.pages.Image()).heap, l)
  {
    hide LocalSpace.Valid, LocalSpace.LivePages, LocalSpace.LiveBlocks, LocalSpace.Store, AddressSpace.HeapOrdered;
    hide AddressSpace.Image, Queued, PendingPages, P.Total, Run, Fewer;
    ghost var live := space.LivePages() - PendingPages(l);
    assert l[0..] == l;
    var i := 0;
    while i < |l|
      invariant i <= |l| && space.Repr() == old(space.Repr()) && space.Valid() && space.Quiet()
      invariant Queued(l[i..], space.LivePages(), PAGES) && space.LivePages() - PendingPages(l[i..]) == live
      invariant space.pages.Image() == P.Image(old(space.pages.Image()).heap, l[..i])
    {
      Dequeue(l, i, space.LivePages(), PAGES);
      TotalBelow(l, i + 1);
      assert l[..i] + [l[i]] == l[..i + 1];
      FreeOne(space, l[i]);
      i := i + 1;
    }
    assert l[|l|..] == [] && l[..|l|] == l;
    NothingQueued(space.LivePages(), PAGES);
  }

  method FreeOne(space: LocalSpace, x: PageFree)
    requires space.Valid() && space.Quiet() && x.pages > 0 && P.End(x) <= PAGES && PagesOf(x) <= space.LivePages()
    requires space.Cfg() == PS.Config(PAGES, BUFFER, 0, 2, 0, [])
    requires P.Total(space.pages.Image().batch + [x]) < BUFFER
    modifies space.Repr()
    ensures space.Repr() == old(space.Repr()) && space.Valid() && space.Quiet()
    ensures space.LivePages() == old(space.LivePages()) - PagesOf(x)
    ensures space.pages.Image() == P.Image(old(space.pages.Image()).heap, old(space.pages.Image()).batch + [x])
  {
    hide LocalSpace.Valid, LocalSpace.LivePages, LocalSpace.LiveBlocks, LocalSpace.Store, AddressSpace.HeapOrdered;
    hide AddressSpace.Image, P.Total, Run, Fewer, PS.Drained, P.MergeBatch;
    PS.NothingDrained(space.Cfg(), space.Shown());
    var entries, hazard := space.Deallocate(x.offset, x.pages);
  }

  /** The blocks up to `to` are freed and merged. */
  method FreeGroup(space: LocalSpace, from: nat, to: nat)
    requires (from == 0 && to == 7) || (from == 7 && to == 12)
    requires Reached(space, from) && space.pages.Image() == P.Image(Freed(0, from), [])
    modifies space.Repr()
    ensures space.Repr() == old(space.Repr()) && Reached(space, to) && space.pages.Image() == P.Image(Freed(0, to), [])
  {
    hide LocalSpace.Valid, LocalSpace.LivePages, LocalSpace.LiveBlocks, LocalSpace.Store, AddressSpace.HeapOrdered;
    hide AddressSpace.Image, Queued, PendingPages, P.Total, Run, P.MergeBatch, Freed;
    GroupQueued(from, to);
    GroupTotal(from, to);
    GroupMerges(from, to);
    FreeAll(space, Freed(from, to));
    ghost var hazard := space.Merge();
  }

  lemma GroupTotal(from: nat, to: nat)
    requires from <= to <= 13 && to - from <= 7
    ensures P.Total(Freed(from, to)) < BUFFER
  {
    hide Start, Size, Rank;
    forall i | 0 <= i < 13 ensures Block(i).pages <= 30 {
      if i < 12 { EntrySizes(i); } else { LastSize(); }
    }
    TotalAtMost(Freed(from, to), 30);
  }

  /** Merging the last block freed leaves the heap, which was in order, out of order. */
  method MergeDisorders() returns (space: LocalSpace)
    ensures fresh(space) && space.Valid() && space.Quiet() && !space.pages.HeapOrdered()
    ensures space.LivePages() == Run(0, PAGES) - PendingPages(Freed(0, 13))
  {
    hide LocalSpace.Valid, LocalSpace.LivePages, LocalSpace.LiveBlocks, LocalSpace.Store, AddressSpace.HeapOrdered;
    hide AddressSpace.Image, PendingPages, Run, Freed;
    space := TakeAll();
    NothingYet();
    FreeGroup(space, 0, 7);
    FreeGroup(space, 7, 12);
    FreeLast(space);
  }

  lemma NothingYet()
    ensures Freed(0, 0) == []
  {
  }

  method FreeLast(space: LocalSpace)
    requires Reached(space, 12) && space.pages.Image() == P.Image(Freed(0, 12), [])
    modifies space.Repr()
    ensures space.Repr() == old(space.Repr()) && Reached(space, 13) && !space.pages.HeapOrdered()
  {
    hide LocalSpace.Valid, LocalSpace.LivePages, LocalSpace.LiveBlocks, LocalSpace.Store, AddressSpace.HeapOrdered;
    hide AddressSpace.Image, Queued, PendingPages, P.Total, Run, P.MergeBatch, Freed, P.InOrder;
    GroupQueued(12, 13);
    GroupTotal(12, 13);
    FreedOrdered(12);
    LastHazard();
    FreeAll(space, Freed(12, 13));
    OneLeft(space);
    ghost var hazard := space.Merge();
  }

  lemma OneLeft(space: LocalSpace)
    requires space.Valid() && space.pages.Image() == P.Image(Freed(0, 12), Freed(12, 13)) && P.InOrder(Freed(0, 12))
    ensures space.pages.HeapOrdered() && space.pages.batchSize == 1
  {
    hide LocalSpace.Joint, AddressSpace.HeapOrdered, AddressSpace.Image, PendingPages, P.InOrder;
    space.ImageOfPages();
    space.BatchLength();
  }
}
