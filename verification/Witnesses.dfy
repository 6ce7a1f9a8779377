/** Short runs of the allocator in which it does not do what its comments say. */
module Witnesses {
  import opened Options
  import opened Blocks
  import opened Bisect
  import opened Searching
  import opened Coalescing
  import opened Pending
  import opened SlabPages
  import opened AddressSpaces
  import opened LocalSpaces
  import P = Plain
  import PS = PlainSpaces
  import S = Slabs

  function OnePage(): Request
  {
    Request(1, 1, 0)
  }

  lemma PageZero()
    ensures Run(0, 1) == {0} && Answers(OnePage(), 0, {0}) && Legal(OnePage()) && Safe(OnePage(), 1)
    ensures Unanswerable(OnePage(), {}) && !Unanswerable(OnePage(), {0})
    ensures forall o :: Answers(OnePage(), o, {0}) ==> o == 0
  {
    assert Run(0, 1) == {0};
    forall o | Answers(OnePage(), o, {0}) ensures o == 0 {
      assert o in Run(o, 1);
    }
    assert Answers(OnePage(), 0, {0});
    forall o ensures !Answers(OnePage(), o, {}) {
      assert o in Run(o, 1);
    }
  }

  /** A region of one page and a batch of one entry, without slabs. */
  ghost predicate Tiny(space: LocalSpace)
    reads space, space.pages, space.Repr()
  {
    && space.Valid() && space.pages.pub == 1 && space.pages.buffer == 1 && space.pages.batchSize == 0
    && space.pages.slabs == map[]
  }

  method TinySpace() returns (space: LocalSpace)
    ensures fresh(space) && fresh(space.Repr()) && Tiny(space) && space.LivePages() == {} && space.Quiet()
    ensures space.pages.HeapOrdered()
  {
    hide LocalSpace.Valid, LocalSpace.LivePages, LocalSpace.LiveBlocks, LocalSpace.Repr, AddressSpace.HeapOrdered;
    space := new LocalSpace(1, 1, 0, 2, 0, []);
  }

  /** The page is allocated. */
  method TakeThePage(space: LocalSpace)
    requires Tiny(space) && space.LivePages() == {} && space.Quiet() && space.pages.HeapOrdered()
    modifies space.Repr()
    ensures space.Repr() == old(space.Repr()) && Tiny(space) && space.LivePages() == {0} && space.Quiet()
  {
    hide TakenFrom, P.Take, PS.Entries;
    hide LocalSpace.Valid, LocalSpace.LivePages, LocalSpace.LiveBlocks, Safe, Legal, Unanswerable, Answers, Run, Fewer;
    hide LocalSpace.Store, AddressSpace.HeapOrdered, LocalSpace.Gapless, LocalSpace.Unused, PS.Allocated,
        LocalSpace.Shown;
    PageZero();
    AllIdle(space);
    ghost var slabs := space.pages.slabs;
    var r, entries, hazard := space.PageAllocate(OnePage());
    NoneFewer(slabs, space.pages.slabs);
    SmallBatch(space);
    UnusedAll(space);
    if r.None? { AllIdle(space); }
  }

  lemma NoneFewer(slabs: map<nat, nat>, slabs': map<nat, nat>)
    requires slabs == map[] && Fewer(slabs, slabs')
    ensures slabs' == map[]
  {
  }

  lemma SmallBatch(space: LocalSpace)
    requires space.Valid() && space.pages.buffer == 1
    ensures space.pages.batchSize == 0
  {
    hide AddressSpace.Consistent, S.SlabPool.Valid;
  }

  lemma UnusedAll(space: LocalSpace)
    requires space.pages.pub == 1 && space.pages.slabs == map[]
    ensures space.Unused({}) == {0}
  {
    hide Run;
    PageZero();
  }

  /** The one page has been freed elsewhere. */
  lemma NothingFree(space: LocalSpace)
    requires space.Valid() && space.pages.pub == 1 && space.remotePage == [PageFree(0, 1)]
    ensures space.pages.FreePages() == {}
  {
    hide LocalSpace.Valid, LocalSpace.LivePages, AddressSpace.FreePages, AddressSpace.BatchedPages,
        AddressSpace.SlabPages;
    PageZero();
    space.PagesPartition();
    assert space.remotePage[0] == PageFree(0, 1);
    assert 0 in PagesOf(space.remotePage[0]);
  }

  lemma AllIdle(space: LocalSpace)
    requires Tiny(space) && space.LivePages() == {} && space.Quiet()
    ensures space.Gapless() && space.IdlePages() == {0} && space.Unused({}) == {0}
  {
    hide LocalSpace.Valid, LocalSpace.LivePages, FillsGap, Run;
    PageZero();
    space.NothingLodged();
    NoGapWithoutBatch(space.pages.FreePages());
  }

  /** A region of one page and a batch of one entry: the page is allocated and then freed by another
      thread.  Draining that fills the batch, so the drain merges it, and the next request is refused
      although the page is idle. */
  method RefusesThoughIdle() returns (space: LocalSpace, r: Option<nat>)
    ensures fresh(space) && space.Valid() && r == None
    ensures space.LivePages() == {} && Answers(OnePage(), 0, space.IdlePages())
  {
    hide LocalSpace.Valid, LocalSpace.LivePages, Answers, LocalSpace.Store;
    space := TinySpace();
    TakeThePage(space);
    FreeElsewhere(space);
    r := AskAgain(space);
    PageZero();
    AllIdle(space);
  }

  method FreeElsewhere(space: LocalSpace)
    requires Tiny(space) && space.LivePages() == {0} && space.Quiet()
    modifies space.Repr()
    ensures space.Repr() == old(space.Repr()) && Tiny(space) && space.LivePages() == {} && |space.remotePage| == 1
    ensures space.pages.FreePages() == {}
  {
    hide LocalSpace.Valid, LocalSpace.LivePages, LocalSpace.LiveBlocks, Run, LocalSpace.Store;
    PageZero();
    space.FreePagesElsewhere(0, 1);
    NothingFree(space);
  }

  method AskAgain(space: LocalSpace) returns (r: Option<nat>)
    requires Tiny(space) && space.LivePages() == {} && |space.remotePage| == 1 && space.pages.FreePages() == {}
    modifies space.Repr()
    ensures space.Repr() == old(space.Repr()) && Tiny(space) && space.LivePages() == {} && space.Quiet() && r == None
  {
    hide TakenFrom, P.Take, PS.Entries;
    hide LocalSpace.Valid, LocalSpace.LivePages, LocalSpace.LiveBlocks, Safe, Legal, Unanswerable, Answers, Run, Fewer;
    hide LocalSpace.Store, AddressSpace.HeapOrdered, LocalSpace.Gapless, LocalSpace.Unused, PS.Allocated,
        LocalSpace.Shown;
    PageZero();
    ghost var slabs := space.pages.slabs;
    ghost var entries, hazard := 0, false;
    r, entries, hazard := space.PageAllocate(OnePage());
    NoneFewer(slabs, space.pages.slabs);
    SmallBatch(space);
  }

  // ---------- a slab that is forgotten ----------

  /** Four pages, slabs of two, one class of one block; nothing batched, no pages in use or waiting. */
  ghost predicate Slabbed(space: LocalSpace)
    reads space, space.pages, space.Repr()
  {
    && space.Valid() && space.Cfg() == PS.Config(4, 2, 0, 2, 0, [1]) && space.LivePages() == {}
    && space.remotePage == [] && space.pages.Image().batch == [] && space.pages.HeapOrdered()
  }

  function TwoPages(): Request
  {
    Request(2, 2, 0)
  }

  lemma PagesInPairs()
    ensures Legal(TwoPages()) && Safe(TwoPages(), 4)
    ensures Run(0, 2) == {0, 1} && Run(2, 2) == {2, 3} && Run(0, 4) == {0, 1, 2, 3}
    ensures forall pages: set<nat> :: Run(0, 2) <= pages || Run(2, 2) <= pages ==> !Unanswerable(TwoPages(), pages)
  {
    assert Run(0, 2) == {0, 1} && Run(2, 2) == {2, 3} && Run(0, 4) == {0, 1, 2, 3};
    forall pages: set<nat> | Run(0, 2) <= pages || Run(2, 2) <= pages ensures !Unanswerable(TwoPages(), pages) {
      assert Run(0, 2) <= pages ==> Answers(TwoPages(), 0, pages);
      assert Run(2, 2) <= pages ==> Answers(TwoPages(), 2, pages);
    }
  }

  /** One slab leaves room for another. */
  lemma RoomForASlab(space: LocalSpace)
    requires Slabbed(space) && |space.pages.slabs| <= 1
    ensures !space.Justified(space.SlabRequest()) && Safe(space.SlabRequest(), space.pages.pub)
  {
    hide LocalSpace.Valid, LocalSpace.LivePages, AddressSpace.HeapOrdered, AddressSpace.Image, Run, Unanswerable, Safe;
    PagesInPairs();
    space.SlabsLodged();
    if space.pages.slabs == map[] {
      NoSlabPages(space);
    } else {
      var s :| s in space.pages.slabs;
      OneSlab(space.pages.slabs, s);
    }
  }

  lemma OneSlab(slabs: map<nat, nat>, s: nat)
    requires s in slabs && |slabs| == 1 && slabs[s] % 2 == 0
    ensures LodgedPages(slabs, 2) == Run(slabs[s], 2)
    ensures Run(0, 2) !! Run(slabs[s], 2) || Run(2, 2) !! Run(slabs[s], 2)
  {
    hide Run;
    var rest := slabs.Keys - {s};
    assert |rest| == 0;
    assert forall r :: r in slabs ==> r == s || r in rest;
    OnePair(slabs[s]);
  }

  lemma OnePair(o: nat)
    requires o % 2 == 0
    ensures Run(0, 2) !! Run(o, 2) || Run(2, 2) !! Run(o, 2)
  {
    if o == 0 { assert Run(2, 2) !! Run(0, 2); }
  }

  /** With nothing batched and no slab given up, the pages of a slab are looked for at once. */
  lemma SoughtAtOnce(cfg: PS.Config, w: PS.Space)
    requires w.image.batch == [] && w.remotePage == []
    requires S.AllReturned(w.pool, cfg.blocks, w.remoteSlab).gone == []
    ensures var a := P.Take(w.image, PS.SlabOf(cfg));
      var p := S.AllReturned(w.pool, cfg.blocks, w.remoteSlab).pool;
      && PS.Sought(cfg, w) == PS.Grant(a.offset, PS.Effect(PS.Space(a.image, p, w.slabs, [], []), 0, false))
      && a.image.batch == []
  {
    hide S.AllReturned, P.Take;
    var p := S.AllReturned(w.pool, cfg.blocks, w.remoteSlab).pool;
    var v := PS.Space(w.image, p, w.slabs, [], []);
    assert PS.SlabBlocks(w.slabs, cfg.slabPages, []) + [] == [];
    assert PS.Members([]) == {} && w.slabs - {} == w.slabs;
    assert PS.Drained(cfg, w) == PS.Effect(v, 0, false);
    hide PS.Drained;
    assert v.image.batch == [] ==> PS.MergedMany(cfg, v) == PS.Effect(v, 0, false);
    PS.NothingRetried(cfg, v, PS.SlabOf(cfg));
    TakesFromHeap(w.image, PS.SlabOf(cfg));
  }

  lemma TakesFromHeap(v: P.Image, q: Request)
    ensures P.Take(v, q).image.batch == v.batch
  {
    hide P.Cut, P.Found;
  }

  /** No erasure is hazardous then. */
  lemma NothingRisked(cfg: PS.Config, w: PS.Space, c: nat, s: nat)
    requires w.image.batch == [] && w.remotePage == []
    requires S.AllReturned(w.pool, cfg.blocks, w.remoteSlab).gone == []
    ensures var h := PS.SlabAllocated(cfg, w, c, s);
      && !h.effect.hazard && h.effect.space.image.batch == []
      && (!PS.HasList(w, c) ==> PS.Quiet(h.effect.space))
  {
    hide S.AllReturned, P.Take, S.Popped, S.Opened, PS.Sought;
    SoughtAtOnce(cfg, w);
  }

  /** A new slab of one block that has been handed out has left its list. */
  lemma OnlyBlockTaken(cfg: PS.Config, w: PS.Space, s: nat)
    requires cfg.blocks == [1] && w.pool == S.NoSlabs(4, 1) && w.remoteSlab == []
    requires w.image.batch == [] && w.remotePage == [] && PS.SlabAllocated(cfg, w, 0, s).block.Some?
    ensures var p := PS.SlabAllocated(cfg, w, 0, s).effect.space.pool;
      && |p.heads| == 1 && p.heads[0] == NIL && s < |p.count| && p.count[s] == 0
  {
    hide P.Take, PS.Sought;
    assert S.AllReturned(w.pool, cfg.blocks, []) == S.Returns(w.pool, []);
    SoughtAtOnce(cfg, w);
  }

  lemma NoneGivenUp(p: S.Pool, blocks: seq<nat>, s: nat, b: nat)
    requires s < |p.count| && p.count[s] == 0
    ensures S.AllReturned(p, blocks, [(s, b)]).gone == []
  {
    assert [(s, b)][..0] == [];
    hide S.Returned;
  }

  lemma OneSlabMore(slabs: map<nat, nat>, slabs': map<nat, nat>)
    requires slabs == map[] && OneMore(slabs, slabs')
    ensures |slabs'| == 1
  {
    var s :| s in slabs' && Fewer(slabs, slabs' - {s});
    OneFewer(slabs', s);
  }

  /** The only block of a new slab is handed out. */
  method HandOut(space: LocalSpace) returns (s: nat, b: nat)
    requires Slabbed(space) && space.Shown() == PS.NewSpace(space.Cfg()) && space.LiveBlocks() == {}
    requires space.pool.AllListed()
    modifies space.Repr()
    ensures space.Repr() == old(space.Repr()) && Slabbed(space) && space.Quiet() && |space.pages.slabs| == 1
    ensures space.LiveBlocks() == {(s, b)} && space.pool.AllListed() && space.NoList(0) && space.OfClass(s, b, 0)
    ensures s < |space.pool.Now().count| && space.pool.Now().count[s] == 0
  {
    hide LocalSpace.Valid, LocalSpace.LivePages, LocalSpace.LiveBlocks, LocalSpace.Store, AddressSpace.HeapOrdered;
    hide AddressSpace.Image, S.Listed, Fewer, Stay, LocalSpace.Justified, Safe, PS.SlabAllocated, S.SlabPool.Now;
    hide LocalSpace.Gapless, LocalSpace.Overtaken, OneMore, S.NoSlabs, S.TakesDue, LocalSpace.LiesRight, PS.Sought;
    ghost var w, slabs := space.Shown(), space.pages.slabs;
    NewLists(space);
    NotOvertaken(space);
    space.ListShown(0);
    RoomForASlab(space);
    var r, entries, hazard := space.SlabAllocate(0);
    ghost var node := if r.Some? then r.value.0 else 0;
    NothingReturned(w.pool, [1]);
    NothingRisked(space.Cfg(), w, 0, node);
    if r == None {
      NoneFewer(slabs, space.pages.slabs);
      RoomForASlab(space);
      assert false;
    }
    s, b := r.value.0, r.value.1;
    OneSlabMore(slabs, space.pages.slabs);
    OnlyBlockTaken(space.Cfg(), w, s);
    space.NoListNow(0);
  }

  lemma NothingReturned(p: S.Pool, blocks: seq<nat>)
    ensures S.AllReturned(p, blocks, []).gone == []
  {
  }

  lemma NotOvertaken(space: LocalSpace)
    requires space.remoteSlab == []
    ensures !space.Overtaken(0)
  {
  }

  lemma NewLists(space: LocalSpace)
    requires space.Valid() && space.Shown() == PS.NewSpace(space.Cfg()) && space.Cfg().blocks == [1]
    ensures space.NoList(0) && space.pool.Now() == S.NoSlabs(space.pages.pub, 1)
  {
    hide LocalSpace.Valid, AddressSpace.Image;
    space.ListOf(0);
  }

  /** A slab's only block is allocated and freed by another thread.  The next allocation drains it, and
      with it gives the class a list, just before it puts a new slab in place of that list: the first
      slab then has a free block and is in no list. */
  method ForgetsASlab() returns (space: LocalSpace, r: Option<(nat, nat)>)
    ensures fresh(space) && space.Valid() && r.Some? && !space.pool.AllListed()
  {
    hide LocalSpace.Valid, LocalSpace.LivePages, LocalSpace.LiveBlocks, AddressSpace.HeapOrdered, AddressSpace.Image;
    hide S.Listed, LocalSpace.Store, S.SlabPool.Now, PS.NewSpace;
    space := new LocalSpace(4, 2, 0, 2, 0, [1]);
    NewBatch(space);
    var s, b := HandOut(space);
    space.FreeBlockElsewhere(s, b);
    r := HandOutAgain(space, s, b);
  }

  lemma NewBatch(space: LocalSpace)
    requires space.Shown() == PS.NewSpace(space.Cfg())
    ensures space.pages.Image().batch == []
  {
    hide AddressSpace.Image;
  }

  method HandOutAgain(space: LocalSpace, ghost s: nat, ghost b: nat) returns (r: Option<(nat, nat)>)
    requires Slabbed(space) && space.remoteSlab == [(s, b)] && |space.pages.slabs| == 1
    requires space.pool.AllListed() && space.NoList(0) && s < |space.pool.Now().count| && space.pool.Now().count[s] == 0
    requires s < |space.pool.Now().size| && space.pool.Now().size[s] == 0
    modifies space.Repr()
    ensures space.Repr() == old(space.Repr()) && space.Valid() && r.Some? && !space.pool.AllListed()
  {
    hide LocalSpace.Valid, LocalSpace.LivePages, LocalSpace.LiveBlocks, LocalSpace.Store, AddressSpace.HeapOrdered;
    hide AddressSpace.Image, S.Listed, Fewer, Stay, LocalSpace.Justified, Safe, PS.SlabAllocated, S.SlabPool.Now;
    hide LocalSpace.Gapless, OneMore, LocalSpace.OfClass, S.TakesDue, LocalSpace.LiesRight, PS.Sought;
    ghost var w, slabs := space.Shown(), space.pages.slabs;
    RoomForASlab(space);
    assert space.remoteSlab[0] == (s, b);
    NoneGivenUp(w.pool, [1], s, b);
    ghost var entries, hazard := 0, false;
    r, entries, hazard := space.SlabAllocate(0);
    NothingRisked(space.Cfg(), w, 0, if r.Some? then r.value.0 else 0);
    if r == None {
      NotMore(slabs, space.pages.slabs);
      RoomForASlab(space);
      assert false;
    }
  }

  lemma NotMore(slabs: map<nat, nat>, slabs': map<nat, nat>)
    requires Fewer(slabs, slabs')
    ensures |slabs'| <= |slabs|
  {
  }

  // ---------- growing in place ----------

  function AllPages(): Request
  {
    Request(3, 1, 0)
  }

  /** Three pages, a batch of two entries, no slabs, nothing waiting. */
  ghost predicate Small(space: LocalSpace)
    reads space, space.pages, space.Repr()
  {
    && space.Valid() && space.pages.pub == 3 && space.pages.buffer == 2 && space.pages.slabs == map[] && space.Quiet()
  }

  lemma ThreePages()
    ensures Run(0, 3) == {0, 1, 2} && Run(1, 1) == {1} && Run(2, 1) == {2} && Run(1, 2) == {1, 2}
    ensures Legal(AllPages()) && Safe(AllPages(), 3) && !Unanswerable(AllPages(), {0, 1, 2})
    ensures forall o: nat :: Answers(AllPages(), o, {0, 1, 2}) ==> Run(o, 3) == {0, 1, 2}
  {
    assert Run(0, 3) == {0, 1, 2} && Run(1, 1) == {1} && Run(2, 1) == {2} && Run(1, 2) == {1, 2};
    forall o: nat | Answers(AllPages(), o, {0, 1, 2}) ensures o == 0 {
      assert o in Run(o, 3) && o + 2 in Run(o, 3);
    }
    assert Answers(AllPages(), 0, {0, 1, 2});
  }

  /** What the pages of a small space are. */
  lemma SmallPages(space: LocalSpace)
    requires Small(space)
    ensures space.pages.SlabPages() == {} && PendingPages(space.remotePage) == {}
    ensures space.pages.FreePages() + space.pages.BatchedPages() + space.LivePages() == {0, 1, 2}
    ensures space.pages.FreePages() !! space.pages.BatchedPages() !! space.LivePages()
    ensures space.IdlePages() == {0, 1, 2} - space.LivePages()
    ensures space.pages.batchSize == 0 ==> space.pages.BatchedPages() == {} && space.pages.batchPages == 0
  {
    hide LocalSpace.Valid, LocalSpace.LivePages, AddressSpace.FreePages, AddressSpace.BatchedPages, Run;
    hide AddressSpace.SlabPages, PendingPages;
    ThreePages();
    NonePending();
    NoSlabPages(space);
    space.PagesPartition();
    ThreeSets(space.pages.FreePages(), space.pages.BatchedPages(), space.LivePages());
    if space.pages.batchSize == 0 { EmptyBatch(space); }
  }

  lemma NoSlabPages(space: LocalSpace)
    requires space.pages.slabs == map[]
    ensures space.pages.SlabPages() == {}
  {
  }

  lemma EmptyBatch(space: LocalSpace)
    requires Small(space) && space.pages.batchSize == 0
    ensures space.pages.BatchedPages() == {} && space.pages.batchPages == 0
  {
    hide LocalSpace.Valid, AddressSpace.BatchedPages;
    space.NothingLodged();
    space.ValidJoint();
    space.EnoughPages();
  }

  lemma ThreeSets(a: set<nat>, b: set<nat>, c: set<nat>)
    requires a !! b !! {} !! c !! {}
    ensures a !! b !! c && a + b + {} + c + {} == a + b + c
  {
  }

  /** All three pages are allocated. */
  method TakesAll() returns (space: LocalSpace)
    ensures fresh(space) && fresh(space.Repr()) && Small(space) && space.LivePages() == {0, 1, 2}
  {
    hide LocalSpace.Valid, LocalSpace.LivePages, LocalSpace.LiveBlocks, LocalSpace.Repr, AddressSpace.HeapOrdered;
    space := new LocalSpace(3, 2, 0, 2, 0, []);
    TakeAll(space);
  }

  method TakeAll(space: LocalSpace)
    requires Small(space) && space.LivePages() == {} && space.pages.HeapOrdered() && space.pages.batchSize == 0
    modifies space.Repr()
    ensures space.Repr() == old(space.Repr()) && Small(space) && space.LivePages() == {0, 1, 2}
  {
    hide TakenFrom, P.Take, PS.Entries;
    hide LocalSpace.Valid, LocalSpace.LivePages, LocalSpace.LiveBlocks, Safe, Legal, Unanswerable, Answers, Run, Fewer;
    hide LocalSpace.Store, AddressSpace.HeapOrdered, LocalSpace.Unused, FillsGap, AddressSpace.BatchedPages;
    hide PS.Allocated, LocalSpace.Shown;
    ThreePages();
    SmallPages(space);
    NoGapWithoutBatch(space.pages.FreePages());
    ghost var slabs := space.pages.slabs;
    var r, entries, hazard := space.PageAllocate(AllPages());
    NoneFewer(slabs, space.pages.slabs);
    UnusedThree(space);
    if r == None { SmallPages(space); }
  }

  lemma UnusedThree(space: LocalSpace)
    requires space.pages.pub == 3 && space.pages.slabs == map[]
    ensures space.Unused({}) == {0, 1, 2}
  {
    hide Run;
    ThreePages();
  }

  /** Page 1 is freed and merged, page 2 freed and batched. */
  method FreesTwo(space: LocalSpace)
    requires Small(space) && space.LivePages() == {0, 1, 2}
    modifies space.Repr()
    ensures space.Repr() == old(space.Repr()) && Small(space) && space.LivePages() == {0}
    ensures space.pages.FreePages() == {1} && space.pages.BatchedPages() == {2}
  {
    hide LocalSpace.Valid, LocalSpace.LivePages, LocalSpace.LiveBlocks, Run, Fewer, LocalSpace.Store, FillsGap;
    hide AddressSpace.HeapOrdered, AddressSpace.FreePages, AddressSpace.BatchedPages, LocalSpace.Shown,
        PS.Deallocated, PS.Merged, PS.Reserved;
    ThreePages();
    FreesOne(space);
    ghost var slabs := space.pages.slabs;
    ghost var entries, hazard := space.Deallocate(2, 1);
    NoneFewer(slabs, space.pages.slabs);
    SmallPages(space);
  }

  method FreesOne(space: LocalSpace)
    requires Small(space) && space.LivePages() == {0, 1, 2}
    modifies space.Repr()
    ensures space.Repr() == old(space.Repr()) && Small(space) && space.LivePages() == {0, 2}
    ensures space.pages.FreePages() == {1} && space.pages.batchPages == 0
  {
    hide LocalSpace.Valid, LocalSpace.LivePages, LocalSpace.LiveBlocks, Run, Fewer, LocalSpace.Store, FillsGap;
    hide AddressSpace.HeapOrdered, AddressSpace.FreePages, AddressSpace.BatchedPages, LocalSpace.Shown,
        PS.Deallocated, PS.Merged, PS.Reserved;
    ThreePages();
    ghost var slabs := space.pages.slabs;
    ghost var entries, hazard := space.Deallocate(1, 1);
    NoneFewer(slabs, space.pages.slabs);
    hazard := space.Merge();
    SmallPages(space);
  }

  /** Of three allocated pages the second is freed and merged, the third freed and batched: growing the
      first by both is refused, although both are idle. */
  method DoesNotGrow() returns (space: LocalSpace, grown: nat)
    ensures fresh(space) && space.Valid() && grown == 0
    ensures space.LivePages() == {0} && Run(1, 2) <= space.IdlePages()
  {
    hide LocalSpace.Valid, LocalSpace.LivePages, LocalSpace.LiveBlocks, Run, Fewer, LocalSpace.Store, FillsGap;
    hide AddressSpace.HeapOrdered, AddressSpace.FreePages, AddressSpace.BatchedPages, LocalSpace.Shown,
        PS.Deallocated, PS.Merged, PS.Reserved;
    space := TakesAll();
    FreesTwo(space);
    grown := GrowsNot(space);
    ThreePages();
    SmallPages(space);
  }

  method GrowsNot(space: LocalSpace) returns (grown: nat)
    requires Small(space) && space.LivePages() == {0}
    requires space.pages.FreePages() == {1} && space.pages.BatchedPages() == {2}
    modifies space.Repr()
    ensures space.Repr() == old(space.Repr()) && Small(space) && space.LivePages() == {0} && grown == 0
  {
    hide LocalSpace.Valid, LocalSpace.LivePages, LocalSpace.LiveBlocks, Run, Fewer, LocalSpace.Store, FillsGap;
    hide AddressSpace.HeapOrdered, AddressSpace.FreePages, AddressSpace.BatchedPages, LocalSpace.Shown,
        PS.Deallocated, PS.Merged, PS.Reserved;
    hide LocalSpace.Ends, LocalSpace.Extends;
    ThreePages();
    NoRoomToGrow(space);
    ghost var slabs, entries, hazard := space.pages.slabs, 0, false;
    grown, entries, hazard := space.PageReserve(1, 2);
    NoneFewer(slabs, space.pages.slabs);
    EmptyRun(1);
  }

  /** Page 0 is in use, page 1 free and page 2 batched. */
  lemma NoRoomToGrow(space: LocalSpace)
    requires Small(space) && space.LivePages() == {0}
    requires space.pages.FreePages() == {1} && space.pages.BatchedPages() == {2}
    ensures space.Ends(1) && !space.Extends(1, 2)
  {
    hide LocalSpace.Valid, LocalSpace.LivePages, Run, LocalSpace.Extends, LocalSpace.Stock, AddressSpace.FreePages;
    hide AddressSpace.BatchedPages;
    ThreePages();
    LeastIsTwo(space);
    space.QuietExtends(1, 2);
  }

  lemma EmptyRun(o: nat)
    ensures Run(o, 0) == {}
  {
  }

  lemma LeastIsTwo(space: LocalSpace)
    requires Small(space) && space.pages.BatchedPages() == {2}
    ensures space.pages.batchSize > 0 ==> space.pages.batchMin == 2
  {
    hide AddressSpace.Consistent, AddressSpace.BatchedPages, S.SlabPool.Valid;
    if space.pages.batchSize > 0 { space.pages.ExtremesBatched(); }
  }
}
