/** What a thread allocates from: pages, the slabs that lie in them, and the blocks that other
    threads have freed and that wait to be taken back. */
module LocalSpaces {
  import opened Options
  import opened Blocks
  import opened Bisect
  import opened Searching
  import opened Allocator
  import opened Coalescing
  import opened Hazards
  import opened Pending
  import opened SlabPages
  import opened AddressSpaces
  import P = Plain
  import PS = PlainSpaces
  import S = Slabs

  /** Slab blocks that other threads have freed. */
  ghost function Named(q: seq<(nat, nat)>): set<(nat, nat)>
  {
    set b | b in q
  }

  ghost predicate Waiting(q: seq<(nat, nat)>, live: set<(nat, nat)>)
  {
    && (forall k :: 0 <= k < |q| ==> q[k] in live)
    && forall k, m :: 0 <= k < m < |q| ==> q[k] != q[m]
  }

  lemma WaitsNext(q: seq<(nat, nat)>, i: nat, live: set<(nat, nat)>)
    requires i < |q| && Waiting(q[i..], live)
    ensures q[i] in live && Waiting(q[i + 1..], live - {q[i]})
    ensures live - {q[i]} - Named(q[i + 1..]) == live - Named(q[i..])
  {
    var r, t := q[i..], q[i + 1..];
    assert r[0] == q[i] && r == [q[i]] + t;
    forall k | 0 <= k < |t| ensures t[k] == r[k + 1] {
    }
  }

  lemma WaitsMore(q: seq<(nat, nat)>, b: (nat, nat), live: set<(nat, nat)>)
    requires Waiting(q, live) && b in live - Named(q)
    ensures Waiting([b] + q, live) && live - Named([b] + q) == live - Named(q) - {b}
  {
    var r := [b] + q;
    forall k | 0 < k < |r| ensures r[k] == q[k - 1] && r[k] in q {
    }
  }

  lemma WaitsStill(q: seq<(nat, nat)>, live: set<(nat, nat)>, live': set<(nat, nat)>)
    requires Waiting(q, live) && live <= live'
    ensures Waiting(q, live')
  {
  }

  lemma NoneWaiting()
    ensures Named([]) == {}
  {
  }

  lemma NoneGone(slabs: map<nat, nat>, slabPages: nat)
    ensures PS.SlabBlocks(slabs, slabPages, []) == [] && slabs - PS.Members([]) == slabs && Fewer(slabs, slabs)
  {
    assert PS.Members([]) == {};
  }

  /** Slabs start at aligned addresses. */
  ghost predicate Aligned(slabs: map<nat, nat>, base: nat, k: nat)
    requires k > 0
  {
    forall s :: s in slabs ==> (base + slabs[s]) % k == 0
  }

  /** Some slabs may have gone. */
  ghost predicate Fewer(slabs: map<nat, nat>, slabs': map<nat, nat>)
  {
    |slabs'| <= |slabs| && forall s :: s in slabs' ==> s in slabs && slabs'[s] == slabs[s]
  }

  lemma FewerStill(a: map<nat, nat>, b: map<nat, nat>, c: map<nat, nat>)
    requires Fewer(a, b) && Fewer(b, c)
    ensures Fewer(a, c)
  {
  }

  lemma OneFewer(slabs: map<nat, nat>, s: nat)
    requires s in slabs
    ensures Fewer(slabs, slabs - {s}) && |slabs - {s}| == |slabs| - 1
  {
    assert (slabs - {s}).Keys == slabs.Keys - {s};
  }

  lemma DropsOne(slabs0: map<nat, nat>, slabs: map<nat, nat>, slabs': map<nat, nat>, s: nat, gone: bool, k: nat,
                 entries: nat)
    requires Fewer(slabs0, slabs) && entries == |slabs0| - |slabs| && s in slabs
      && slabs' == slabs - (if gone then {s} else {})
    requires k == if gone then 1 else 0
    ensures Fewer(slabs0, slabs') && entries + k == |slabs0| - |slabs'|
  {
    OneFewer(slabs, s);
    assert slabs - {} == slabs;
  }

  lemma AlignedFewer(slabs: map<nat, nat>, slabs': map<nat, nat>, base: nat, k: nat)
    requires k > 0 && Aligned(slabs, base, k) && Fewer(slabs, slabs')
    ensures Aligned(slabs', base, k)
  {
  }

  /** The state of the pages, as far as it matters here. */
  datatype PageView = PageView(now: State, batch: seq<nat>, free: set<nat>, batched: set<nat>, used: set<nat>,
                               slabs: map<nat, nat>, lodged: set<nat>, batchSize: nat, batchPages: nat,
                               batchMin: nat, batchMax: nat,
                               ordered: bool, image: P.Image)

  /** What becomes of the batch when the blocks of `l` join it one by one and it is merged whenever it is
      full. */
  ghost predicate Batched(v: PageView, w: PageView, buffer: nat, l: seq<PageFree>, hazard: bool)
  {
    && buffer > 0 && w.batchSize == (v.batchSize + |l|) % buffer && (v.ordered && !hazard ==> w.ordered)
    && (v.batchSize + |l| < buffer ==> w.free == v.free && !hazard) && (l == [] ==> w == v)
    && P.JoinAll(v.image, l, buffer) == P.Joined(w.image, hazard)
    && w.free + w.batched == v.free + v.batched + PendingPages(l)
  }

  /** One block has joined the batch. */
  ghost predicate Joins(v: PageView, w: PageView, o: nat, n: nat)
  {
    w.image == P.Image(v.image.heap, v.image.batch + [PageFree(o, n)])
  }

  lemma NoEntry(v: PageView, buffer: nat)
    requires v.batchSize < buffer
    ensures Batched(v, v, buffer, [], false)
  {
    NonePending();
    CountsUp(v.batchSize, buffer);
  }

  lemma JoinsAlone(v: PageView, w: PageView, buffer: nat, x: PageFree, hazard: bool)
    requires v.batchSize < buffer && (v.ordered && !hazard ==> w.ordered) && |v.image.batch| == v.batchSize
    requires var m := P.Image(v.image.heap, v.image.batch + [x]);
      if v.batchSize + 1 < buffer then
        w.batchSize == v.batchSize + 1 && w.free == v.free && w.image == m && !hazard
      else w.batchSize == 0 && P.MergeBatch(m) == P.Joined(w.image, hazard)
    requires w.free + w.batched == v.free + v.batched + PagesOf(x)
    ensures Batched(v, w, buffer, [x], hazard)
  {
    hide P.MergeBatch, PagesOf, PendingPages;
    PendingOne(x);
    CountsUp(v.batchSize, buffer);
    P.JoinOne(v.image, x, buffer);
  }

  lemma JoinsMore(u: PageView, v: PageView, w: PageView, buffer: nat, j: seq<PageFree>, k: seq<PageFree>, before: bool,
                  after: bool)
    requires u.batchSize < buffer && Batched(u, v, buffer, j, before) && Batched(v, w, buffer, k, after)
    ensures Batched(u, w, buffer, j + k, before || after)
  {
    hide P.JoinAll, PendingPages;
    PendingBoth(j, k);
    P.JoinMore(u.image, j, k, buffer);
    CountsAlong(u.batchSize + |j|, |k|, buffer);
    if u.batchSize + |j| + |k| < buffer { CountsUp(u.batchSize + |j|, buffer); }
    if k == [] { assert j + k == j; }
    if j == [] { assert j + k == k; }
  }

  lemma NoEntries(cfg: PS.Config, w: PS.Space)
    requires PS.Quiet(w)
    ensures PS.Entries(cfg, w) == []
  {
    hide S.Returned, S.Reclaimable;
  }

  /** One of the blocks belongs to a slab of class `c`. */
  ghost predicate Frees(size: seq<nat>, q: seq<(nat, nat)>, c: nat)
  {
    exists k :: 0 <= k < |q| && q[k].0 < |size| && size[q[k].0] == c
  }

  lemma FreesMore(size: seq<nat>, q: seq<(nat, nat)>, i: nat, c: nat)
    requires i < |q|
    ensures Frees(size, q[..i + 1], c) <==> Frees(size, q[..i], c) || (q[i].0 < |size| && size[q[i].0] == c)
  {
    var r, t := q[..i + 1], q[..i];
    assert forall k :: 0 <= k < i ==> r[k] == t[k];
    assert r[i] == q[i];
  }

  /** The classes without a list are those that had none and get none of the blocks. */
  ghost predicate HeadsAfterAll(p: S.Pool, q: S.Pool, l: seq<(nat, nat)>)
  {
    && |q.heads| == |p.heads|
    && forall c :: 0 <= c < |p.heads| ==> (q.heads[c] == NIL <==> p.heads[c] == NIL && !Frees(p.size, l, c))
  }

  /** What becomes of the pool when the blocks are given back; its lists stay complete. */
  ghost predicate Restocked(p: S.Pool, q: S.Pool, l: seq<(nat, nat)>)
  {
    && (S.Listed(p) ==> S.Listed(q) && HeadsAfterAll(p, q, l)) && q.size == p.size && (l == [] ==> q == p)
  }

  lemma RestockBegins(p: S.Pool)
    ensures Restocked(p, p, [])
  {
  }

  lemma RestockGoesOn(p: S.Pool, m: S.Pool, q: S.Pool, l: seq<(nat, nat)>, i: nat)
    requires i < |l| && Restocked(p, m, l[..i]) && (S.Listed(m) ==> S.Listed(q) && S.HeadsAfter(m, q, l[i].0))
    requires q.size == m.size
    ensures Restocked(p, q, l[..i + 1])
  {
    hide S.Listed;
    if S.Listed(p) { HeadsGoOn(p, m, q, l, i); }
  }

  lemma HeadsGoOn(p: S.Pool, m: S.Pool, q: S.Pool, l: seq<(nat, nat)>, i: nat)
    requires i < |l| && HeadsAfterAll(p, m, l[..i]) && S.HeadsAfter(m, q, l[i].0) && m.size == p.size
    ensures HeadsAfterAll(p, q, l[..i + 1])
  {
    forall c | 0 <= c < |p.heads|
      ensures q.heads[c] == NIL <==> p.heads[c] == NIL && !Frees(p.size, l[..i + 1], c)
    {
      FreesMore(p.size, l, i, c);
    }
  }

  /** Draining fills the batch exactly, and so leaves it empty. */
  ghost predicate Emptied(batchSize: nat, entries: nat, buffer: nat)
  {
    entries > 0 && buffer > 0 && (batchSize + entries) % buffer == 0
  }

  lemma NoneEmpties(batchSize: nat, buffer: nat)
    ensures !Emptied(batchSize, 0, buffer)
  {
  }

  lemma FewerAtFirst(slabs: map<nat, nat>)
    ensures Fewer(slabs, slabs)
  {
  }

  /** The pool's lists stay complete, and slabs stay in their class. */
  ghost predicate Steady(p: S.Pool, q: S.Pool)
  {
    (S.Listed(p) ==> S.Listed(q)) && q.size == p.size
  }

  lemma RestockedSteady(p: S.Pool, q: S.Pool, l: seq<(nat, nat)>)
    requires Restocked(p, q, l)
    ensures Steady(p, q) && (l == [] ==> q == p)
  {
  }

  lemma RestockedHeads(p: S.Pool, q: S.Pool, l: seq<(nat, nat)>, c: nat)
    requires Restocked(p, q, l)
    ensures Steady(p, q)
    ensures S.Listed(p) && c < |p.heads| && p.heads[c] == NIL ==>
      c < |q.heads| && (q.heads[c] == NIL <==> !Frees(p.size, l, c))
  {
    hide S.Listed, Frees;
  }

  /** There is one new slab, perhaps at a node that another has left, and some of the others may have gone. */
  ghost predicate OneMore(slabs: map<nat, nat>, slabs': map<nat, nat>)
  {
    exists s :: s in slabs' && Fewer(slabs, slabs' - {s})
  }

  lemma OneBeside(slabs: map<nat, nat>, fewer: map<nat, nat>, s: nat, o: nat)
    requires Fewer(slabs, fewer) && s !in fewer
    ensures OneMore(slabs, fewer[s := o])
  {
    assert fewer[s := o] - {s} == fewer;
  }

  /** The blocks stay where they are. */
  ghost predicate Stay(live: set<(nat, nat)>, slabs: map<nat, nat>, slabs': map<nat, nat>)
  {
    forall b :: b in live ==> b.0 in slabs && b.0 in slabs' && slabs'[b.0] == slabs[b.0]
  }

  lemma FewerStay(live: set<(nat, nat)>, a: map<nat, nat>, b: map<nat, nat>, c: map<nat, nat>)
    requires Fewer(a, b) && Fewer(b, c) && forall x :: x in live ==> x.0 in c
    ensures Stay(live, a, c)
  {
  }

  lemma StayBeside(live: set<(nat, nat)>, a: map<nat, nat>, b: map<nat, nat>, c: map<nat, nat>, s: nat, o: nat)
    requires Stay(live, a, b) && s !in b && c == b[s := o]
    ensures Stay(live, a, c)
  {
  }

  lemma StaysAtFirst(live: set<(nat, nat)>, slabs: map<nat, nat>)
    requires forall b :: b in live ==> b.0 in slabs
    ensures Stay(live, slabs, slabs)
  {
  }

  lemma NotWaiting(q: seq<(nat, nat)>, live: set<(nat, nat)>)
    requires Waiting(q, live)
    ensures Named(q) <= live
  {
  }

  lemma LiveGrows(live: set<(nat, nat)>, named: set<(nat, nat)>, b: (nat, nat))
    requires named <= live && b !in live
    ensures live + {b} - named == live - named + {b} && b !in live - named
  {
  }

  class LocalSpace {
    const pages: AddressSpace
    const pool: S.SlabPool
    const base: nat  // the pages by which the region's start misses the alignment of a slab
    var remotePage: seq<PageFree>  // page blocks that other threads have freed, to be drained
    var remoteSlab: seq<(nat, nat)>  // slab blocks that other threads have freed

    ghost function Repr(): set<object>
      reads pages`batchList, pages`batchSort
    {
      {this} + Store()
    }

    ghost function Store(): set<object>
      reads pages`batchList, pages`batchSort
    {
      {pages, pages.offset, pages.size, pages.left, pages.right, pages.heap, pages.entries, pages.radixCount,
       pages.radixSum, pages.chunks, pages.batchList, pages.batchSort,
       pool, pool.left, pool.right, pool.count, pool.size, pool.heads}
    }

    ghost function PageArrays(): set<array<nat>>
      reads pages`batchList, pages`batchSort
    {
      {pages.offset, pages.size, pages.left, pages.right, pages.heap, pages.entries, pages.radixCount,
       pages.radixSum, pages.chunks, pages.batchList, pages.batchSort}
    }

    ghost predicate Separate()
      reads pages`batchList, pages`batchSort
    {
      && pool.left !in PageArrays() && pool.right !in PageArrays() && pool.count !in PageArrays()
      && pool.size !in PageArrays() && pool.heads !in PageArrays()
    }

    ghost function View(): PageView
      reads pages, Store()
    {
      PageView(pages.Now(), pages.Batch(), pages.FreePages(), pages.BatchedPages(), pages.UsedPages(),
               pages.slabs, pages.SlabPages(), pages.batchSize, pages.batchPages, pages.batchMin, pages.batchMax,
               pages.HeapOrdered(), pages.Image())
    }

    /** The sizes fixed at compile time. */
    function Cfg(): PS.Config
    {
      PS.Config(pages.pub, pages.buffer, pages.threshold, pages.slabPages, base, pool.blocks)
    }

    function SlabRequest(): Request
    {
      Request(pages.slabPages, pages.slabPages, base)
    }

    /** What there is without the nodes. */
    ghost function Shown(): PS.Space
      reads this, pages, Store()
    {
      PS.Space(pages.Image(), pool.Now(), pages.slabs, remotePage, remoteSlab)
    }

    /** The pages and the pool agree on the slabs, whose addresses are aligned. */
    ghost predicate Joint()
      reads pages, Store()
    {
      JointBut({})
    }

    /** The pool has given up the slabs in `gone`, the pages not yet. */
    ghost predicate JointBut(gone: set<nat>)
      reads pages, Store()
    {
      && Separate() && pages.Consistent() && pool.Valid() && pool.left.Length == pages.pub
      && pages.slabs.Keys == pool.slabs + gone && Legal(SlabRequest()) && pages.slabPages > 1
      && Aligned(pages.slabs, base, pages.slabPages)
    }

    /** Used pages that no slab has. */
    ghost function PlainPages(): set<nat>
      reads pages, Store()
    {
      pages.UsedPages() - pages.SlabPages()
    }

    /** What waits to be drained was allocated, and is freed once. */
    ghost predicate Valid()
      reads this, pages, Store()
    {
      && Joint() && pages.batchSize < pages.buffer
      && Queued(remotePage, PlainPages(), pages.pub) && Waiting(remoteSlab, pool.LiveBlocks())
    }

    /** The pages in use by clients. */
    ghost function LivePages(): set<nat>
      reads this, pages, Store()
    {
      PlainPages() - PendingPages(remotePage)
    }

    /** The slab blocks in use by clients. */
    ghost function LiveBlocks(): set<(nat, nat)>
      reads this, pool, Store()
    {
      pool.LiveBlocks() - Named(remoteSlab)
    }

    /** The pages that are neither in use by clients nor part of a slab: free, batched, or waiting to
        be drained. */
    ghost function IdlePages(): set<nat>
      reads this, pages, Store()
    {
      Unused(LivePages())
    }

    ghost function Unused(live: set<nat>): set<nat>
      reads pages, Store()
    {
      Run(0, pages.pub) - live - pages.SlabPages()
    }

    /** Nothing is in use, batched or waiting. */
    ghost predicate Empty()
      reads this, pages, Repr()
    {
      && LivePages() == {} && LiveBlocks() == {} && pages.slabs == map[] && remotePage == [] && remoteSlab == []
      && pages.batchSize == 0 && pages.HeapOrdered() && pool.AllListed()
    }

    /** All pages free, no slabs. */
    constructor (pub: nat, buffer: nat, threshold: nat, slabPages: nat, base: nat, blocks: seq<nat>)
      requires 0 < pub < NIL && buffer > 0 && 1 < slabPages <= 0x8000_0000_0000_0000 && base < slabPages
      requires forall c :: 0 <= c < |blocks| ==> blocks[c] > 0
      ensures Valid() && Cfg() == PS.Config(pub, buffer, threshold, slabPages, base, blocks) && Empty() && fresh(Repr())
      ensures Shown() == PS.NewSpace(Cfg())
    {
      hide AddressSpace.AllFree, S.SlabPool.Unused, Valid, Empty, Shown, PS.NewSpace;
      pages := new AddressSpace(pub, buffer, threshold, slabPages);
      pool := new S.SlabPool(pub, blocks);
      this.base, remotePage, remoteSlab := base, [], [];
      new;
      assert Separate();
      Founded();
    }

    lemma Founded()
      requires this !in Store() && pages.AllFree() && pool.Unused() && pool.left.Length == pages.pub
      requires Separate() && pages.buffer > 0
      requires 1 < pages.slabPages <= 0x8000_0000_0000_0000 && base < pages.slabPages
      requires remotePage == [] && remoteSlab == []
      ensures Valid() && Empty() && Shown() == PS.NewSpace(Cfg())
    {
      hide AddressSpace.Consistent, S.SlabPool.Valid, AddressSpace.UsedPages, S.SlabPool.LiveBlocks, Separate;
      hide AddressSpace.HeapOrdered, S.SlabPool.AllListed, AddressSpace.Image, S.SlabPool.Now, S.NoSlabs;
    }

    // ---------- frees from other threads ----------

    lemma Outside()
      ensures this !in Store()
    {
    }

    /** Another thread frees pages: they wait until the owner drains them. */
    method FreePagesElsewhere(o: nat, n: nat)
      requires Valid() && n > 0 && o + n <= pages.pub && Run(o, n) <= LivePages()
      modifies this`remotePage
      ensures Valid() && LivePages() == old(LivePages()) - Run(o, n) && LiveBlocks() == old(LiveBlocks())
      ensures View() == old(View()) && pool.Now() == old(pool.Now())
      ensures remoteSlab == old(remoteSlab) && remotePage == [PageFree(o, n)] + old(remotePage)
    {
      hide Joint, Queued, PendingPages, Run, AddressSpace.UsedPages, AddressSpace.SlabPages, S.SlabPool.LiveBlocks;
      Enqueue(remotePage, PageFree(o, n), PlainPages(), pages.pub);
      Outside();
      remotePage := [PageFree(o, n)] + remotePage;
    }

    /** Another thread frees a slab block. */
    method FreeBlockElsewhere(s: nat, b: nat)
      requires Valid() && (s, b) in LiveBlocks()
      modifies this`remoteSlab
      ensures Valid() && LiveBlocks() == old(LiveBlocks()) - {(s, b)} && LivePages() == old(LivePages())
      ensures View() == old(View()) && pool.Now() == old(pool.Now())
      ensures remotePage == old(remotePage) && remoteSlab == [(s, b)] + old(remoteSlab)
    {
      hide Joint, Queued, PendingPages, Run, AddressSpace.UsedPages, AddressSpace.SlabPages, S.SlabPool.LiveBlocks;
      hide Waiting, Named;
      WaitsMore(remoteSlab, (s, b), pool.LiveBlocks());
      Outside();
      remoteSlab := [(s, b)] + remoteSlab;
    }

    // ---------- slabs ----------

    method PoolDeallocate(s: nat, b: nat) returns (reclaimed: bool)
      requires Joint() && (s, b) in pool.LiveBlocks()
      modifies pool, pool.left, pool.right, pool.count, pool.heads
      ensures JointBut(if reclaimed then {s} else {}) && pool.LiveBlocks() == old(pool.LiveBlocks()) - {(s, b)}
      ensures View() == old(View()) && Store() == old(Store()) && s in pages.slabs && (s in pool.slabs <==> !reclaimed)
      ensures old(pool.AllListed()) ==> pool.AllListed() && S.HeadsAfter(old(pool.Now()), pool.Now(), s)
      ensures pool.Now().size == old(pool.Now().size)
      ensures pool.Now() == S.Returned(old(pool.Now()), pool.blocks, s, b)
      ensures reclaimed <==> S.Reclaimable(old(pool.Now()), pool.blocks, s)
    {
      hide AddressSpace.Consistent, S.SlabPool.Valid, AddressSpace.UsedPages, AddressSpace.FreePages, S.SlabPool.Now;
      hide AddressSpace.BatchedPages, AddressSpace.HeapOrdered, AddressSpace.SlabPages, AddressSpace.Now,
          AddressSpace.Batch, AddressSpace.Image;
      hide S.SlabPool.LiveBlocks, S.SlabPool.AllListed, Aligned, Legal, S.HeadsAfter, S.Returned, S.Reclaimable;
      reclaimed := pool.Deallocate(s, b);
    }

    method GiveUpPages(s: nat)
      requires JointBut({s}) && pages.batchSize < pages.buffer && s in pages.slabs && s !in pool.slabs
      modifies pages, PageArrays()
      ensures Joint() && Store() == old(Store()) && pool.Now() == old(pool.Now())
      ensures pages.slabs == old(pages.slabs) - {s}
      ensures pages.batchSize == old(pages.batchSize) + 1 && pages.FreePages() == old(pages.FreePages())
      ensures old(pages.HeapOrdered()) ==> pages.HeapOrdered()
      ensures PlainPages() == old(PlainPages()) && Joins(old(View()), View(), old(pages.slabs)[s], pages.slabPages)
      ensures pages.BatchedPages() == old(pages.BatchedPages()) + Run(old(pages.slabs)[s], pages.slabPages)
    {
      hide AddressSpace.Consistent, S.SlabPool.Valid, AddressSpace.UsedPages, AddressSpace.FreePages;
      hide AddressSpace.BatchedPages, AddressSpace.HeapOrdered, AddressSpace.Now, AddressSpace.Batch;
      hide S.SlabPool.LiveBlocks, S.SlabPool.AllListed, Aligned, Legal, Lodged, LodgedPages, Run, AddressSpace.Image;
      OneFewer(pages.slabs, s);
      AlignedFewer(pages.slabs, pages.slabs - {s}, base, pages.slabPages);
      pages.GivenUp(s);
      pages.GiveUp(s);
    }

    /** A block goes back to its slab; a slab that is given up has its pages batched and its node
        returned. */
    method SlabDeallocate(s: nat, b: nat) returns (reclaimed: bool)
      requires Joint() && pages.batchSize < pages.buffer && (s, b) in pool.LiveBlocks()
      modifies Store()
      ensures Joint() && Store() == old(Store()) && pool.LiveBlocks() == old(pool.LiveBlocks()) - {(s, b)}
      ensures s in old(pages.slabs)
      ensures pages.slabs == old(pages.slabs) - if reclaimed then {s} else {}
      ensures !reclaimed ==> View() == old(View())
      ensures reclaimed ==> pages.batchSize == old(pages.batchSize) + 1 && pages.FreePages() == old(pages.FreePages())
      ensures old(pages.HeapOrdered()) ==> pages.HeapOrdered()
      ensures PlainPages() == old(PlainPages())
      ensures old(pool.AllListed()) ==> pool.AllListed() && S.HeadsAfter(old(pool.Now()), pool.Now(), s)
      ensures pool.Now().size == old(pool.Now().size)
      ensures pool.Now() == S.Returned(old(pool.Now()), pool.blocks, s, b)
      ensures reclaimed <==> S.Reclaimable(old(pool.Now()), pool.blocks, s)
      ensures reclaimed ==>
        && Joins(old(View()), View(), old(pages.slabs)[s], pages.slabPages)
        && pages.BatchedPages() == old(pages.BatchedPages()) + Run(old(pages.slabs)[s], pages.slabPages)
    {
      hide AddressSpace.FreePages, AddressSpace.HeapOrdered, AddressSpace.SlabPages, AddressSpace.Now,
          AddressSpace.Batch, AddressSpace.Image, S.Returned, S.Reclaimable;
      hide S.HeadsAfter, JointBut, S.SlabPool.Now, S.Live, S.Listed, AddressSpace.UsedPages;
      reclaimed := PoolDeallocate(s, b);
      if reclaimed {
        GiveUpPages(s);
      }
    }

    // ---------- draining ----------

    lemma BatchLength()
      requires Joint()
      ensures |pages.Image().batch| == pages.batchSize
    {
      hide AddressSpace.Tracked, S.SlabPool.Valid, AddressSpace.UsedPages, AddressSpace.Now;
    }

    /** The whole batch is merged. */
    method MergePages() returns (ghost hazard: bool)
      requires Joint() && pages.batchSize > 0
      modifies pages, PageArrays()
      ensures Joint() && Store() == old(Store()) && pool.Now() == old(pool.Now())
      ensures pages.batchSize == 0 && pages.slabs == old(pages.slabs) && PlainPages() == old(PlainPages())
      ensures pages.FreePages() == old(pages.FreePages() + pages.BatchedPages()) && pages.BatchedPages() == {}
      ensures old(pages.HeapOrdered()) && !hazard ==> pages.HeapOrdered()
      ensures old(!FillsGap(pages.FreePages(), pages.BatchedPages())) ==> !hazard
      ensures old(pages.batchSize) == 1 ==> (hazard <==> BatchHazard(old(pages.Now()), old(pages.Batch())))
      ensures old(pages.batchSize) == 1 && old(pages.HeapOrdered()) ==> (pages.HeapOrdered() <==> !hazard)
      ensures P.MergeBatch(old(pages.Image())) == P.Joined(pages.Image(), hazard) && pages.Image().batch == []
    {
      hide AddressSpace.Consistent, S.SlabPool.Valid, AddressSpace.UsedPages, AddressSpace.FreePages;
      hide AddressSpace.BatchedPages, AddressSpace.HeapOrdered, AddressSpace.Now, AddressSpace.Batch;
      hide S.SlabPool.LiveBlocks, S.SlabPool.AllListed, Aligned, Legal, LodgedPages, FillsGap, BatchHazard, P.Merged;
      hide AddressSpace.Image, S.SlabPool.Now;
      BatchLength();
      hazard := pages.Coalesce();
    }

    method MergeWhenFull() returns (ghost hazard: bool)
      requires Joint()
      modifies pages, PageArrays()
      ensures Joint() && Store() == old(Store()) && pool.Now() == old(pool.Now()) && pages.batchSize < pages.buffer
      ensures pages.slabs == old(pages.slabs) && PlainPages() == old(PlainPages())
      ensures old(pages.batchSize) < pages.buffer ==> View() == old(View()) && !hazard
      ensures old(pages.batchSize) >= pages.buffer ==> pages.batchSize == 0
      ensures pages.FreePages() + pages.BatchedPages() == old(pages.FreePages() + pages.BatchedPages())
      ensures old(pages.batchSize) >= pages.buffer ==>
        P.MergeBatch(old(pages.Image())) == P.Joined(pages.Image(), hazard)
      ensures old(pages.HeapOrdered()) && !hazard ==> pages.HeapOrdered()
    {
      hide AddressSpace.Consistent, AddressSpace.UsedPages, AddressSpace.FreePages, JointBut, S.SlabPool.Now,
          BatchHazard, P.MergeBatch, AddressSpace.Image;
      hide AddressSpace.BatchedPages, AddressSpace.HeapOrdered, AddressSpace.Now, AddressSpace.Batch, FillsGap;
      BufferHolds();
      hazard := false;
      if pages.batchSize >= pages.buffer {
        hazard := MergePages();
      }
    }

    lemma NoRun(o: nat)
      ensures Run(o, 0) == {}
    {
    }

    lemma BufferHolds()
      requires Joint()
      ensures pages.buffer > 0 && pages.slabPages > 1
    {
      hide S.SlabPool.Valid, AddressSpace.Consistent;
      pages.SlabsHavePages();
    }

    /** One drained slab block; `entry` says whether its slab's pages joined the batch. */
    method DrainBlock(s: nat, b: nat) returns (ghost entry: bool, ghost hazard: bool)
      requires Joint() && pages.batchSize < pages.buffer && (s, b) in pool.LiveBlocks() && s in pages.slabs
      modifies Store()
      ensures Joint() && Store() == old(Store()) && pages.batchSize < pages.buffer
      ensures pool.LiveBlocks() == old(pool.LiveBlocks()) - {(s, b)} && PlainPages() == old(PlainPages())
      ensures s in old(pages.slabs) && pages.slabs == old(pages.slabs) - if entry then {s} else {}
      ensures Batched(old(View()), View(), pages.buffer,
                      if entry then [PageFree(old(pages.slabs)[s], pages.slabPages)] else [], hazard)
      ensures old(pool.AllListed()) ==> pool.AllListed() && S.HeadsAfter(old(pool.Now()), pool.Now(), s)
      ensures pool.Now().size == old(pool.Now().size)
      ensures pool.Now() == S.Returned(old(pool.Now()), pool.blocks, s, b)
      ensures entry <==> S.Reclaimable(old(pool.Now()), pool.blocks, s)
    {
      hide AddressSpace.FreePages, AddressSpace.SlabPages, AddressSpace.Now, AddressSpace.Batch, S.Reclaimable;
      hide S.HeadsAfter, JointBut, S.SlabPool.Now, S.Live, S.Listed, AddressSpace.UsedPages, AddressSpace.HeapOrdered;
      hide AddressSpace.BatchedPages, Batched, AddressSpace.Image, P.MergeBatch, S.Returned;
      BatchLength();
      ghost var v, x := View(), PageFree(pages.slabs[s], pages.slabPages);
      var reclaimed := SlabDeallocate(s, b);
      entry := reclaimed;
      hazard := MergeWhenFull();
      if reclaimed { JoinsAlone(v, View(), pages.buffer, x, hazard); } else { NoEntry(v, pages.buffer); }
    }

    /** One drained page block. */
    method DrainPages(o: nat, n: nat) returns (ghost hazard: bool)
      requires Joint() && pages.batchSize < pages.buffer && n > 0 && o + n <= pages.pub && Run(o, n) <= PlainPages()
      modifies pages, PageArrays()
      ensures Joint() && Store() == old(Store()) && pages.batchSize < pages.buffer && pool.Now() == old(pool.Now())
      ensures PlainPages() == old(PlainPages()) - Run(o, n) && pages.slabs == old(pages.slabs)
      ensures Batched(old(View()), View(), pages.buffer, [PageFree(o, n)], hazard)
    {
      hide AddressSpace.FreePages, AddressSpace.SlabPages, AddressSpace.Now, AddressSpace.Batch, Run;
      hide JointBut, S.SlabPool.Now, AddressSpace.UsedPages, AddressSpace.HeapOrdered;
      hide AddressSpace.BatchedPages, Batched, AddressSpace.Image, P.MergeBatch;
      BatchLength();
      ghost var v := View();
      BatchPages(o, n);
      hazard := MergeWhenFull();
      JoinsAlone(v, View(), pages.buffer, PageFree(o, n), hazard);
    }

    method BatchPages(o: nat, n: nat)
      requires Joint() && pages.batchSize < pages.buffer && n > 0 && o + n <= pages.pub && Run(o, n) <= PlainPages()
      modifies pages, PageArrays()
      ensures Joint() && Store() == old(Store()) && PageArrays() == old(PageArrays()) && pool.Now() == old(pool.Now())
      ensures PlainPages() == old(PlainPages()) - Run(o, n) && pages.slabs == old(pages.slabs)
      ensures pages.batchSize == old(pages.batchSize) + 1 && pages.FreePages() == old(pages.FreePages())
      ensures old(pages.HeapOrdered()) ==> pages.HeapOrdered()
      ensures pages.BatchedPages() == old(pages.BatchedPages()) + Run(o, n)
        && pages.batchPages == old(pages.batchPages) + n
      ensures Joins(old(View()), View(), o, n)
    {
      hide AddressSpace.Image;
      hide AddressSpace.Consistent, S.SlabPool.Valid, AddressSpace.UsedPages, AddressSpace.FreePages, Run;
      hide AddressSpace.BatchedPages, AddressSpace.HeapOrdered, AddressSpace.Now, AddressSpace.Batch;
      hide S.SlabPool.LiveBlocks, S.SlabPool.AllListed, Aligned, Legal, LodgedPages;
      pages.PageDeallocate(o, n);
    }

    /** The slabs given up while the first `i` blocks of `q` go back to the pool `p`. */
    ghost function Gone(p: S.Pool, q: seq<(nat, nat)>, i: nat): seq<nat>
      requires i <= |q|
    {
      S.AllReturned(p, pool.blocks, q[..i]).gone
    }

    /** The first `i` blocks of `q` have been drained, since the pages were `v` and the pool `p`. */
    ghost predicate Draining(q: seq<(nat, nat)>, i: nat, v: PageView, p: S.Pool, live: set<(nat, nat)>, plain: set<nat>,
                             hazard: bool)
      reads pages, Store()
      requires i <= |q|
    {
      && Joint() && pages.batchSize < pages.buffer && PlainPages() == plain
      && Waiting(q[i..], pool.LiveBlocks()) && pool.LiveBlocks() - Named(q[i..]) == live
      && Fewer(v.slabs, pages.slabs) && |Gone(p, q, i)| == |v.slabs| - |pages.slabs|
      && pool.Now() == S.AllReturned(p, pool.blocks, q[..i]).pool
      && pages.slabs == v.slabs - PS.Members(Gone(p, q, i)) && v.batchSize < pages.buffer
      && Batched(v, View(), pages.buffer, PS.SlabBlocks(v.slabs, pages.slabPages, Gone(p, q, i)), hazard)
      && Restocked(p, pool.Now(), q[..i])
    }

    lemma DrainBegins(q: seq<(nat, nat)>)
      requires Joint() && pages.batchSize < pages.buffer && Waiting(q, pool.LiveBlocks())
      ensures Draining(q, 0, View(), pool.Now(), pool.LiveBlocks() - Named(q), PlainPages(), false)
    {
      hide Joint, AddressSpace.FreePages, AddressSpace.SlabPages, AddressSpace.Now, AddressSpace.Batch, Waiting, Named;
      hide S.SlabPool.Now, AddressSpace.UsedPages, AddressSpace.HeapOrdered, AddressSpace.BatchedPages, Batched;
      hide Restocked, S.SlabPool.LiveBlocks, S.SlabPool.AllListed, PlainPages, View;
      assert q[0..] == q && q[..0] == [];
      SlabsInView();
      NoEntry(View(), pages.buffer);
      RestockBegins(pool.Now());
      NoneGone(pages.slabs, pages.slabPages);
    }

    lemma SlabsInView()
      ensures View().slabs == pages.slabs && View().batchSize == pages.batchSize && View().image == pages.Image()
    {
    }

    method DrainNext(q: seq<(nat, nat)>, i: nat, ghost v: PageView, ghost p: S.Pool, ghost live: set<(nat, nat)>,
                     ghost plain: set<nat>, ghost hazard: bool)
      returns (ghost hazard': bool)
      requires i < |q| && Draining(q, i, v, p, live, plain, hazard)
      modifies Store()
      ensures Store() == old(Store()) && Draining(q, i + 1, v, p, live, plain, hazard')
    {
      hide Joint, AddressSpace.FreePages, AddressSpace.SlabPages, AddressSpace.Now, AddressSpace.Batch, Waiting, Named;
      hide S.SlabPool.Now, AddressSpace.UsedPages, AddressSpace.HeapOrdered, AddressSpace.BatchedPages, Batched, Store;
      hide S.HeadsAfter, Restocked, S.SlabPool.LiveBlocks, S.Listed, PlainPages, View, Fewer, Draining;
      hide S.Returned, S.Reclaimable, Gone, S.AllReturned, PS.SlabBlocks, PS.Members, AddressSpace.Image;
      DrainHas(q, i, v, p, live, plain, hazard);
      WaitsNext(q, i, pool.LiveBlocks());
      ghost var w, m, slabs := View(), pool.Now(), pages.slabs;
      var s, b := q[i].0, q[i].1;
      assert q[i] == (s, b);
      BlockHasSlab(s, b);
      ghost var gone := Gone(p, q, i);
      ghost var entry, met := DrainBlock(s, b);
      ghost var x := if entry then [PageFree(slabs[s], pages.slabPages)] else [];
      assert Batched(w, View(), pages.buffer, x, met);
      hazard' := hazard || met;
      JoinsMore(v, w, View(), pages.buffer, PS.SlabBlocks(v.slabs, pages.slabPages, gone), x, hazard, met);
      RestockGoesOn(p, m, pool.Now(), q, i);
      DropsOne(v.slabs, slabs, pages.slabs, s, entry, if entry then 1 else 0, |gone|);
      GoesNext(p, q, i, v, slabs, s, b, entry);
      DrainGoesOn(q, i, v, p, live, plain, hazard');
    }

    lemma BlockHasSlab(s: nat, b: nat)
      requires Joint() && (s, b) in pool.LiveBlocks()
      ensures s in pages.slabs
    {
      hide AddressSpace.Consistent, S.SlabPool.Valid, Legal, Aligned, S.TakenFrom;
    }

    /** One more slab may be gone. */
    lemma GoesNext(p: S.Pool, q: seq<(nat, nat)>, i: nat, v: PageView, slabs: map<nat, nat>, s: nat, b: nat,
                   entry: bool)
      requires i < |q| && q[i] == (s, b) && Fewer(v.slabs, slabs) && s in slabs
      requires slabs == v.slabs - PS.Members(Gone(p, q, i))
      requires entry <==> S.Reclaimable(S.AllReturned(p, pool.blocks, q[..i]).pool, pool.blocks, s)
      ensures Gone(p, q, i + 1) == Gone(p, q, i) + if entry then [s] else []
      ensures S.AllReturned(p, pool.blocks, q[..i + 1]).pool
           == S.Returned(S.AllReturned(p, pool.blocks, q[..i]).pool, pool.blocks, s, b)
      ensures PS.SlabBlocks(v.slabs, pages.slabPages, Gone(p, q, i + 1))
           == PS.SlabBlocks(v.slabs, pages.slabPages, Gone(p, q, i))
              + if entry then [PageFree(slabs[s], pages.slabPages)] else []
      ensures slabs - (if entry then {s} else {}) == v.slabs - PS.Members(Gone(p, q, i + 1))
    {
      hide S.AllReturned, S.Returned, S.Reclaimable, PS.SlabBlocks, PS.Members;
      S.OneMoreReturned(p, pool.blocks, q, i);
      PS.OneMoreGone(v.slabs, pages.slabPages, Gone(p, q, i), s);
      assert Gone(p, q, i) + [] == Gone(p, q, i) && slabs - {} == slabs;
      assert PS.SlabBlocks(v.slabs, pages.slabPages, Gone(p, q, i)) + []
          == PS.SlabBlocks(v.slabs, pages.slabPages, Gone(p, q, i));
    }

    lemma DrainHas(q: seq<(nat, nat)>, i: nat, v: PageView, p: S.Pool, live: set<(nat, nat)>, plain: set<nat>,
                   hazard: bool)
      requires i <= |q| && Draining(q, i, v, p, live, plain, hazard)
      ensures Joint() && pages.batchSize < pages.buffer && PlainPages() == plain
      ensures Waiting(q[i..], pool.LiveBlocks()) && pool.LiveBlocks() - Named(q[i..]) == live
      ensures Fewer(v.slabs, pages.slabs) && |Gone(p, q, i)| == |v.slabs| - |pages.slabs|
      ensures pool.Now() == S.AllReturned(p, pool.blocks, q[..i]).pool
      ensures pages.slabs == v.slabs - PS.Members(Gone(p, q, i)) && v.batchSize < pages.buffer
      ensures Batched(v, View(), pages.buffer, PS.SlabBlocks(v.slabs, pages.slabPages, Gone(p, q, i)), hazard)
      ensures Restocked(p, pool.Now(), q[..i])
    {
      hide Joint, PlainPages, Waiting, Named, Fewer, Batched, View, S.SlabPool.Now, S.SlabPool.LiveBlocks, Restocked;
      hide Gone, S.AllReturned, PS.SlabBlocks, PS.Members;
    }

    lemma DrainGoesOn(q: seq<(nat, nat)>, i: nat, v: PageView, p: S.Pool, live: set<(nat, nat)>, plain: set<nat>,
                      hazard: bool)
      requires i < |q| && Joint() && pages.batchSize < pages.buffer && PlainPages() == plain
      requires Waiting(q[i + 1..], pool.LiveBlocks()) && pool.LiveBlocks() - Named(q[i + 1..]) == live
      requires Fewer(v.slabs, pages.slabs) && |Gone(p, q, i + 1)| == |v.slabs| - |pages.slabs|
      requires pool.Now() == S.AllReturned(p, pool.blocks, q[..i + 1]).pool
      requires pages.slabs == v.slabs - PS.Members(Gone(p, q, i + 1)) && v.batchSize < pages.buffer
      requires Batched(v, View(), pages.buffer, PS.SlabBlocks(v.slabs, pages.slabPages, Gone(p, q, i + 1)), hazard)
      requires Restocked(p, pool.Now(), q[..i + 1])
      ensures Draining(q, i + 1, v, p, live, plain, hazard)
    {
      hide Joint, PlainPages, Waiting, Named, Fewer, Batched, View, S.SlabPool.Now, S.SlabPool.AllListed, HeadsAfterAll;
      hide Gone, S.AllReturned, PS.SlabBlocks, PS.Members, S.SlabPool.LiveBlocks, Restocked;
    }

    /** The slab blocks that other threads have freed go back to their slabs. */
    method DrainSlabs() returns (ghost hazard: bool)
      requires Valid()
      modifies Repr()
      ensures Valid() && Store() == old(Store()) && remoteSlab == [] && remotePage == old(remotePage)
      ensures LiveBlocks() == old(LiveBlocks()) && LivePages() == old(LivePages())
      ensures Fewer(old(pages.slabs), pages.slabs)
      ensures var r := S.AllReturned(old(pool.Now()), pool.blocks, old(remoteSlab));
        && pool.Now() == r.pool && pages.slabs == old(pages.slabs) - PS.Members(r.gone)
        && |r.gone| == |old(pages.slabs)| - |pages.slabs|
        && Batched(old(View()), View(), pages.buffer, PS.SlabBlocks(old(pages.slabs), pages.slabPages, r.gone), hazard)
      ensures Restocked(old(pool.Now()), pool.Now(), old(remoteSlab))
    {
      hide Joint, AddressSpace.FreePages, AddressSpace.SlabPages, AddressSpace.Now, AddressSpace.Batch, Queued;
      hide S.SlabPool.Now, AddressSpace.UsedPages, AddressSpace.HeapOrdered, AddressSpace.BatchedPages, Batched;
      hide Restocked, Waiting, Named, S.SlabPool.LiveBlocks, S.SlabPool.AllListed, PlainPages, Draining, Fewer;
      hide S.AllReturned, PS.SlabBlocks, PS.Members, AddressSpace.Image, Gone, View;
      ghost var live, plain := LiveBlocks(), PlainPages();
      ghost var v, p := View(), pool.Now();
      SlabsInView();
      var q := remoteSlab;
      Outside();
      remoteSlab := [];
      hazard := false;
      DrainBegins(q);
      var i := 0;
      while i < |q|
        invariant i <= |q| && Store() == old(Store()) && remoteSlab == [] && remotePage == old(remotePage)
        invariant Draining(q, i, v, p, live, plain, hazard)
      {
        hazard := DrainNext(q, i, v, p, live, plain, hazard);
        Outside();
        i := i + 1;
      }
      DrainEnds(q, v, p, live, plain, hazard);
    }

    lemma DrainEnds(q: seq<(nat, nat)>, v: PageView, p: S.Pool, live: set<(nat, nat)>, plain: set<nat>,
                    hazard: bool)
      requires Draining(q, |q|, v, p, live, plain, hazard)
      ensures Joint() && pages.batchSize < pages.buffer && PlainPages() == plain
      ensures Waiting([], pool.LiveBlocks()) && pool.LiveBlocks() - Named([]) == live
      ensures Fewer(v.slabs, pages.slabs)
      ensures var r := S.AllReturned(p, pool.blocks, q);
        && pool.Now() == r.pool && pages.slabs == v.slabs - PS.Members(r.gone)
        && |r.gone| == |v.slabs| - |pages.slabs|
        && Batched(v, View(), pages.buffer, PS.SlabBlocks(v.slabs, pages.slabPages, r.gone), hazard)
      ensures Restocked(p, pool.Now(), q)
    {
      hide Joint, AddressSpace.FreePages, AddressSpace.SlabPages, AddressSpace.Now, AddressSpace.Batch, Waiting, Named;
      hide S.SlabPool.Now, AddressSpace.UsedPages, AddressSpace.HeapOrdered, AddressSpace.BatchedPages, Batched;
      hide Restocked, S.SlabPool.LiveBlocks, S.SlabPool.AllListed, PlainPages, View, Fewer;
      hide S.AllReturned, PS.SlabBlocks, PS.Members;
      assert q[|q|..] == [] && q[..|q|] == q;
    }

    /** The first `i` page blocks of `q` have been drained, since the pages were `v` and the pool `p`. */
    ghost predicate DrainingPages(q: seq<PageFree>, i: nat, v: PageView, p: S.Pool, live: set<nat>, hazard: bool)
      reads pages, Store()
      requires i <= |q|
    {
      && Joint() && pages.batchSize < pages.buffer && pool.Now() == p && pages.slabs == v.slabs
      && Queued(q[i..], PlainPages(), pages.pub) && PlainPages() - PendingPages(q[i..]) == live
      && v.batchSize < pages.buffer && Batched(v, View(), pages.buffer, q[..i], hazard)
    }

    method DrainNextPages(q: seq<PageFree>, i: nat, ghost v: PageView, ghost p: S.Pool, ghost live: set<nat>,
        ghost hazard: bool)
      returns (ghost hazard': bool)
      requires i < |q| && DrainingPages(q, i, v, p, live, hazard)
      modifies Store()
      ensures Store() == old(Store()) && DrainingPages(q, i + 1, v, p, live, hazard')
    {
      hide Joint, AddressSpace.FreePages, AddressSpace.SlabPages, AddressSpace.Now, AddressSpace.Batch, Queued;
      hide S.SlabPool.Now, AddressSpace.UsedPages, AddressSpace.HeapOrdered, AddressSpace.BatchedPages, Batched;
      hide PlainPages, View, PendingPages, Run;
      Dequeue(q, i, PlainPages(), pages.pub);
      ghost var w := View();
      ghost var met := DrainPages(q[i].offset, q[i].pages);
      hazard' := hazard || met;
      assert q[i] == PageFree(q[i].offset, q[i].pages);
      JoinsMore(v, w, View(), pages.buffer, q[..i], [q[i]], hazard, met);
      assert q[..i] + [q[i]] == q[..i + 1];
    }

    /** The pages that other threads have freed join the batch. */
    method DrainPageList() returns (ghost hazard: bool)
      requires Valid()
      modifies Repr()
      ensures Valid() && Store() == old(Store()) && remotePage == [] && remoteSlab == old(remoteSlab)
      ensures LivePages() == old(LivePages()) && LivePages() == PlainPages() && LiveBlocks() == old(LiveBlocks())
      ensures pages.slabs == old(pages.slabs) && pool.Now() == old(pool.Now())
      ensures Batched(old(View()), View(), pages.buffer, old(remotePage), hazard)
    {
      hide Joint, AddressSpace.FreePages, AddressSpace.SlabPages, AddressSpace.Now, AddressSpace.Batch, Queued;
      hide S.SlabPool.Now, AddressSpace.UsedPages, AddressSpace.HeapOrdered, AddressSpace.BatchedPages, Batched;
      hide Waiting, Named, PlainPages, DrainingPages, PendingPages, S.Live;
      ghost var live, v, p := LivePages(), View(), pool.Now();
      var q := remotePage;
      Outside();
      remotePage := [];
      hazard := false;
      DrainPagesBegins(q);
      var i := 0;
      while i < |q|
        invariant i <= |q| && Store() == old(Store()) && remotePage == [] && remoteSlab == old(remoteSlab)
        invariant DrainingPages(q, i, v, p, live, hazard)
      {
        hazard := DrainNextPages(q, i, v, p, live, hazard);
        Outside();
        i := i + 1;
      }
      DrainPagesEnds(q, v, p, live, hazard);
      NothingQueued(PlainPages(), pages.pub);
      assert PlainPages() - {} == PlainPages();
    }

    lemma DrainPagesBegins(q: seq<PageFree>)
      requires Joint() && pages.batchSize < pages.buffer && Queued(q, PlainPages(), pages.pub)
      ensures DrainingPages(q, 0, View(), pool.Now(), PlainPages() - PendingPages(q), false)
    {
      hide Joint, AddressSpace.FreePages, AddressSpace.SlabPages, AddressSpace.Now, AddressSpace.Batch, Queued;
      hide S.SlabPool.Now, AddressSpace.UsedPages, AddressSpace.HeapOrdered, AddressSpace.BatchedPages, Batched;
      hide PlainPages, PendingPages;
      assert q[0..] == q && q[..0] == [];
      NoEntry(View(), pages.buffer);
    }

    lemma DrainPagesEnds(q: seq<PageFree>, v: PageView, p: S.Pool, live: set<nat>, hazard: bool)
      requires DrainingPages(q, |q|, v, p, live, hazard)
      ensures Joint() && pages.batchSize < pages.buffer && pool.Now() == p && pages.slabs == v.slabs
      ensures PlainPages() - PendingPages([]) == live && Batched(v, View(), pages.buffer, q, hazard)
    {
      hide Joint, AddressSpace.FreePages, AddressSpace.SlabPages, AddressSpace.Now, AddressSpace.Batch, Queued;
      hide S.SlabPool.Now, AddressSpace.UsedPages, AddressSpace.HeapOrdered, AddressSpace.BatchedPages, Batched;
      hide PlainPages, PendingPages, View;
      assert q[|q|..] == [] && q[..|q|] == q;
    }

    /** Everything other threads have freed is taken back: slab blocks first, then pages; `entries`
        counts what joins the batch, which is merged whenever it fills up. */
    method DrainRemote() returns (ghost entries: nat, ghost hazard: bool)
      requires Valid()
      modifies Repr()
      ensures Valid() && Store() == old(Store()) && remoteSlab == [] && remotePage == []
      ensures LiveBlocks() == old(LiveBlocks()) && LivePages() == old(LivePages()) && LivePages() == PlainPages()
      ensures Fewer(old(pages.slabs), pages.slabs)
      ensures entries == |old(remotePage)| + (|old(pages.slabs)| - |pages.slabs|)
      ensures PS.Drained(Cfg(), old(Shown())) == PS.Effect(Shown(), entries, hazard)
      ensures Batched(old(View()), View(), pages.buffer, PS.Entries(Cfg(), old(Shown())), hazard)
      ensures Restocked(old(pool.Now()), pool.Now(), old(remoteSlab))
      ensures |PS.Entries(Cfg(), old(Shown()))| == entries
      ensures entries >= |old(remotePage)| && (old(remoteSlab) == [] ==> entries == |old(remotePage)|)
    {
      hide Joint, AddressSpace.FreePages, AddressSpace.SlabPages, AddressSpace.Now, AddressSpace.Batch, Queued;
      hide S.SlabPool.Now, AddressSpace.UsedPages, AddressSpace.HeapOrdered, AddressSpace.BatchedPages, Batched;
      hide Waiting, Named, PlainPages, PendingPages, S.Live, S.Listed, Restocked, LivePages, LiveBlocks, Store, Fewer;
      hide S.AllReturned, PS.SlabBlocks, PS.Members, AddressSpace.Image, View, PS.Drained, PS.Entries;
      ghost var v, u := View(), Shown();
      SlabsInView();
      hazard := DrainSlabs();
      ghost var w := View();
      ghost var l := PS.SlabBlocks(u.slabs, pages.slabPages, S.AllReturned(u.pool, pool.blocks, u.remoteSlab).gone);
      ghost var met := DrainPageList();
      SlabsInView();
      JoinsMore(v, w, View(), pages.buffer, l, u.remotePage, hazard, met);
      hazard := hazard || met;
      entries := |l| + |u.remotePage|;
      DrainShown(v, u, entries, hazard);
    }

    /** What a drain comes to. */
    lemma DrainShown(v: PageView, u: PS.Space, entries: nat, hazard: bool)
      requires v.image == u.image && pool.Now() == S.AllReturned(u.pool, pool.blocks, u.remoteSlab).pool
      requires pages.slabs == u.slabs - PS.Members(S.AllReturned(u.pool, pool.blocks, u.remoteSlab).gone)
      requires remotePage == [] && remoteSlab == []
      requires var l := PS.SlabBlocks(u.slabs, pages.slabPages, S.AllReturned(u.pool, pool.blocks, u.remoteSlab).gone);
        Batched(v, View(), pages.buffer, l + u.remotePage, hazard) && entries == |l| + |u.remotePage|
      ensures PS.Drained(Cfg(), u) == PS.Effect(Shown(), entries, hazard)
      ensures Batched(v, View(), pages.buffer, PS.Entries(Cfg(), u), hazard) && |PS.Entries(Cfg(), u)| == entries
      ensures u.remoteSlab == [] ==> entries == |u.remotePage|
    {
      hide AddressSpace.FreePages, AddressSpace.SlabPages, AddressSpace.Now, AddressSpace.Batch, AddressSpace.Image;
      hide S.SlabPool.Now, AddressSpace.UsedPages, AddressSpace.HeapOrdered, AddressSpace.BatchedPages;
      hide S.Returned, PS.SlabBlocks, PS.Members, P.JoinAll;
    }

    // ---------- allocating pages ----------

    /** Free pages are idle, and all that is idle once nothing is batched or waiting. */
    lemma FreeIsIdle()
      requires Valid()
      ensures pages.FreePages() <= IdlePages() && pages.FreePages() !! pages.SlabPages() + PlainPages()
      ensures pages.batchSize == 0 && remotePage == [] ==> pages.FreePages() == IdlePages()
      ensures PendingPages(remotePage) <= PlainPages()
    {
      hide AddressSpace.Consistent, S.SlabPool.Valid, AddressSpace.UsedPages, AddressSpace.FreePages;
      hide AddressSpace.BatchedPages, AddressSpace.Now, AddressSpace.Batch, AddressSpace.SlabPages, Run;
      hide S.SlabPool.LiveBlocks, Aligned, Legal, Queued, PendingPages, Waiting;
      pages.PagesApart();
      PendingUsed(remotePage, PlainPages(), pages.pub);
      NonePending();
    }

    /** Pages found in a free block are allocated. */
    method AllocateAt(p: Spot, q: Request) returns (o: nat)
      requires Valid() && Legal(q) && pages.Usable(p, q)
      modifies Repr()
      ensures Valid() && Store() == old(Store()) && pool.Now() == old(pool.Now())
      ensures remotePage == old(remotePage) && remoteSlab == old(remoteSlab)
      ensures Answers(q, o, Unused(old(LivePages()))) && LivePages() == old(LivePages()) + Run(o, q.pages)
      ensures p.id < |old(pages.Now()).off| && o == old(pages.Now()).off[p.id] + p.left && o + q.pages <= pages.pub
      ensures LiveBlocks() == old(LiveBlocks()) && pages.slabs == old(pages.slabs)
      ensures old(pages.HeapOrdered()) ==> pages.HeapOrdered()
      ensures pages.FreePages() + Run(o, q.pages) == old(pages.FreePages())
      ensures old(pages.Sought(p, q)) ==> P.Take(old(pages.Image()), q) == P.Answer(Some(o), pages.Image())
      ensures old(pages.Begins(p, o)) ==> P.TakeAt(old(pages.Image()), o, q.pages) == P.Answer(Some(o), pages.Image())
    {
      hide AddressSpace.Consistent, S.SlabPool.Valid, AddressSpace.UsedPages, AddressSpace.FreePages;
      hide AddressSpace.BatchedPages, AddressSpace.Now, AddressSpace.Batch, AddressSpace.HeapOrdered, Run, Answers;
      hide S.SlabPool.LiveBlocks, Aligned, Legal, Queued, PendingPages, Waiting, LodgedPages;
      hide AddressSpace.Image, AddressSpace.Sought, AddressSpace.Begins, P.Take, P.TakeAt;
      FreeIsIdle();
      ghost var plain := PlainPages();
      AnswersMore(q, pages.Now().off[p.id] + p.left, pages.FreePages(), Unused(LivePages()));
      o := pages.AllocateAt(p, q);
      Outside();
      QueuedStill(remotePage, plain, PlainPages(), pages.pub);
    }

    /** A refusal is justified: no run of idle pages answers the request. */
    ghost predicate Justified(q: Request)
      reads this, pages, Store()
    {
      Unanswerable(q, IdlePages())
    }

    /** Nothing waits to be drained. */
    ghost predicate Quiet()
      reads this
    {
      remotePage == [] && remoteSlab == []
    }

    /** No stretch of batched pages exactly fills the gap between two free blocks. */
    ghost predicate Gapless()
      reads pages, Store()
    {
      !FillsGap(pages.FreePages(), pages.BatchedPages())
    }

    /** Nor does one when the run given is batched too. */
    ghost predicate GaplessWith(o: nat, n: nat)
      reads pages, Store()
    {
      !FillsGap(pages.FreePages(), pages.BatchedPages() + Run(o, n))
    }

    method Search(q: Request) returns (r: Option<Spot>)
      requires Valid() && Legal(q) && Safe(q, pages.pub)
      ensures match r
        case Some(p) =>
          && pages.Usable(p, q) && pages.Sought(p, q) && p.id < |pages.Now().off|
          && TakenFrom(q, pages.Now().off[p.id] + p.left, pages.FreePages(), pages.HeapOrdered())
        case None =>
          && (pages.HeapOrdered() ==> Unanswerable(q, pages.FreePages()))
          && P.Take(pages.Image(), q) == P.Answer(None, pages.Image())
      ensures Unanswerable(q, pages.FreePages()) ==> r.None?
    {
      hide AddressSpace.Image, P.Take, AddressSpace.Sought;
      hide AddressSpace.Consistent, AddressSpace.Usable, AddressSpace.FreePages, AddressSpace.HeapOrdered,
          S.SlabPool.Valid;
      hide Unanswerable, Legal, Safe, TakenFrom;
      r := pages.Search(q);
    }

    /** Pages are taken out of the largest free block that can answer the request, if there is one. */
    method AllocateNow(q: Request) returns (r: Option<nat>)
      requires Valid() && Legal(q) && Safe(q, pages.pub)
      modifies Repr()
      ensures Valid() && Store() == old(Store()) && LiveBlocks() == old(LiveBlocks())
      ensures remotePage == old(remotePage) && remoteSlab == old(remoteSlab) && pool.Now() == old(pool.Now())
      ensures match r
        case Some(o) =>
          && Answers(q, o, Unused(old(LivePages()))) && LivePages() == old(LivePages()) + Run(o, q.pages)
          && (old(pages.HeapOrdered()) ==> pages.HeapOrdered()) && Fewer(old(pages.slabs), pages.slabs)
          && TakenFrom(q, o, pages.FreePages() + Run(o, q.pages), old(pages.HeapOrdered()))
        case None =>
          && LivePages() == old(LivePages()) && View() == old(View())
          && (pages.HeapOrdered() ==> Unanswerable(q, pages.FreePages()))
      ensures old(Unanswerable(q, pages.FreePages())) ==> r == None
      ensures P.Take(old(pages.Image()), q) == P.Answer(r, pages.Image()) && pages.slabs == old(pages.slabs)
    {
      hide AddressSpace.Image, P.Take, AddressSpace.Sought, AddressSpace.Begins, P.TakeAt;
      hide Joint, AddressSpace.FreePages, AddressSpace.SlabPages, AddressSpace.Now, AddressSpace.Batch, Queued;
      hide S.SlabPool.Now, AddressSpace.UsedPages, AddressSpace.HeapOrdered, AddressSpace.BatchedPages, Unanswerable;
      hide Waiting, Named, PlainPages, PendingPages, S.Live, S.Listed, Fewer, Run, PageArrays, AddressSpace.Usable;
      hide Legal, Safe, Answers;
      hide TakenFrom;
      FewerAtFirst(pages.slabs);
      r := None;
      var spot := Search(q);
      if spot.Some? {
        var o := AllocateAt(spot.value, q);
        r := Some(o);
      }
    }

    /** The largest free block that can answer the request is split; with none, everything freed
        elsewhere is drained, the batch merged, and the search repeated.  What is granted was neither
        in use nor part of a slab that remains.  A refusal is justified as long as the heap was in
        order, no erasure on the way was hazardous, and the drain did not empty the batch. */
    method PageAllocate(q: Request) returns (r: Option<nat>, ghost entries: nat, ghost hazard: bool)
      requires Valid() && Legal(q) && Safe(q, pages.pub)
      modifies Repr()
      ensures Valid() && Store() == old(Store()) && LiveBlocks() == old(LiveBlocks())
      ensures match r
        case Some(o) =>
          && Answers(q, o, Unused(old(LivePages()))) && LivePages() == old(LivePages()) + Run(o, q.pages)
          && TakenFrom(q, o, pages.FreePages() + Run(o, q.pages), old(pages.HeapOrdered()) && !hazard)
        case None =>
          && LivePages() == old(LivePages()) && Quiet()
          && (old(pages.HeapOrdered()) && !hazard && !Emptied(old(pages.batchSize), entries, pages.buffer) ==>
                Justified(q))
      ensures old(Unanswerable(q, pages.FreePages())) ==>
        entries >= |old(remotePage)| && (Emptied(old(pages.batchSize), entries, pages.buffer) ==> r.None?)
      ensures old(pages.HeapOrdered()) && !hazard ==> pages.HeapOrdered()
      ensures Fewer(old(pages.slabs), pages.slabs) && Steady(old(pool.Now()), pool.Now())
      ensures old(Quiet()) ==> Quiet() && entries == 0 && (old(Gapless()) ==> !hazard) && pool.Now() == old(pool.Now())
      ensures PS.Allocated(Cfg(), old(Shown()), q) == PS.Grant(r, PS.Effect(Shown(), entries, hazard))
      ensures r == None || old(Unanswerable(q, pages.FreePages())) ==> entries == |PS.Entries(Cfg(), old(Shown()))|
      ensures old(Unanswerable(q, pages.FreePages())) ==> P.Take(old(pages.Image()), q).offset == None
      ensures old(pages.HeapOrdered() && !Unanswerable(q, pages.FreePages())) ==>
        P.Take(old(pages.Image()), q).offset.Some?
      ensures old(Unanswerable(q, pages.FreePages())) && old(Quiet()) && old(pages.batchSize) == 1 ==>
        (hazard <==> BatchHazard(old(pages.Now()), old(pages.Batch())))
      decreases pages.batchSize + |remotePage| + |remoteSlab|, 1
    {
      hide AddressSpace.Image, P.Take, PS.Retried, BatchHazard, PS.Entries;
      hide Joint, AddressSpace.FreePages, AddressSpace.SlabPages, AddressSpace.Now, AddressSpace.Batch, Queued;
      hide S.SlabPool.Now, AddressSpace.UsedPages, AddressSpace.HeapOrdered, AddressSpace.BatchedPages, Batched;
      hide Waiting, Named, PlainPages, PendingPages, S.Live, S.Listed, Restocked, Fewer, LivePages, LiveBlocks, Store;
      hide AddressSpace.Usable, Unanswerable, Answers, Run, Legal, Safe, Valid, Justified, FillsGap, Unused, PageArrays;
      hide TakenFrom;
      entries, hazard := 0, false;
      r := AllocateNow(q);
      if r == None {
        r, entries, hazard := Retry(q);
      }
    }

    method Retry(q: Request) returns (r: Option<nat>, ghost entries: nat, ghost hazard: bool)
      requires Valid() && Legal(q) && Safe(q, pages.pub)
      requires pages.HeapOrdered() ==> Unanswerable(q, pages.FreePages())
      modifies Repr()
      ensures Valid() && Store() == old(Store()) && LiveBlocks() == old(LiveBlocks())
      ensures match r
        case Some(o) =>
          && Answers(q, o, Unused(old(LivePages()))) && LivePages() == old(LivePages()) + Run(o, q.pages)
          && TakenFrom(q, o, pages.FreePages() + Run(o, q.pages), old(pages.HeapOrdered()) && !hazard)
        case None =>
          && LivePages() == old(LivePages()) && Quiet()
          && (old(pages.HeapOrdered()) && !hazard && !Emptied(old(pages.batchSize), entries, pages.buffer) ==>
                Justified(q))
      ensures entries >= |old(remotePage)| && (Emptied(old(pages.batchSize), entries, pages.buffer) ==> r.None?)
      ensures old(pages.HeapOrdered()) && !hazard ==> pages.HeapOrdered()
      ensures Fewer(old(pages.slabs), pages.slabs) && Steady(old(pool.Now()), pool.Now())
      ensures old(Quiet()) ==> Quiet() && entries == 0 && (old(Gapless()) ==> !hazard) && pool.Now() == old(pool.Now())
      ensures PS.Retried(Cfg(), old(Shown()), q) == PS.Grant(r, PS.Effect(Shown(), entries, hazard))
      ensures entries == |PS.Entries(Cfg(), old(Shown()))|
      ensures old(Quiet()) && old(pages.batchSize) == 1 ==>
        (hazard <==> BatchHazard(old(pages.Now()), old(pages.Batch())))
      decreases pages.batchSize + |remotePage| + |remoteSlab|, 0
    {
      hide AddressSpace.Image, P.Take, PS.Retried, PS.Drained, PS.Allocated, PS.Merged, BatchHazard, PS.Entries;
      hide Joint, AddressSpace.FreePages, AddressSpace.SlabPages, AddressSpace.Now, AddressSpace.Batch, Queued;
      hide S.SlabPool.Now, AddressSpace.UsedPages, AddressSpace.HeapOrdered, AddressSpace.BatchedPages, FillsGap;
      hide Waiting, Named, PlainPages, PendingPages, S.Live, S.Listed, Restocked, LiveBlocks, Store, Fewer, Legal, Safe;
      hide Unanswerable, Answers, Run, Batched, Emptied, Justified, Unused, LivePages, Valid, TakenFrom;
      ghost var slabs, p, u, v := pages.slabs, pool.Now(), Shown(), View();
      ValidJoint();
      entries, hazard := DrainRemote();
      ghost var l := PS.Entries(Cfg(), u);
      DrainLeaves(v, l, hazard);
      RestockedSteady(p, pool.Now(), old(remoteSlab));
      ghost var slabs' := pages.slabs;
      ghost var d := PS.Effect(Shown(), entries, hazard);
      ValidJoint();
      BatchLength();
      if pages.batchSize > 0 {
        ghost var met := MergeDrained();
        ghost var m := Shown();
        ghost var more, later, ordered := 0, false, pages.HeapOrdered();
        r, more, later := PageAllocate(q);
        RetriedShown(Cfg(), u, q, d, m, met, PS.Grant(r, PS.Effect(Shown(), more, later)));
        FewerStill(slabs, slabs', pages.slabs);
        NoneEmpties(0, pages.buffer);
        if r.Some? {
          BelongsStill(q, r.value, pages.FreePages() + Run(r.value, q.pages), ordered && !later,
                       v.ordered && !hazard && !met && !later);
        }
        hazard := hazard || met || later;
      } else {
        RefusedShown(Cfg(), u, q, d);
        NothingLeft(q, v, l, hazard);
        r := None;
      }
    }

    /** What a drain leaves of the batch. */
    lemma DrainLeaves(v: PageView, l: seq<PageFree>, hazard: bool)
      requires Batched(v, View(), pages.buffer, l, hazard) && v.batchSize < pages.buffer
      ensures Emptied(v.batchSize, |l|, pages.buffer) ==> pages.batchSize == 0
      ensures l == [] ==> View() == v && !hazard
      ensures v.ordered && !hazard ==> pages.HeapOrdered()
    {
      hide P.JoinAll, AddressSpace.Image, AddressSpace.FreePages, AddressSpace.BatchedPages, AddressSpace.UsedPages;
      hide AddressSpace.SlabPages, AddressSpace.Now, AddressSpace.Batch, AddressSpace.HeapOrdered;
    }

    /** A drain that leaves nothing batched, but did not fill the batch to do so, had nothing to take back. */
    lemma NothingLeft(q: Request, v: PageView, l: seq<PageFree>, hazard: bool)
      requires Valid() && Quiet() && pages.batchSize == 0 && v.batchSize < pages.buffer
      requires Batched(v, View(), pages.buffer, l, hazard) && (v.ordered ==> Unanswerable(q, v.free))
      ensures v.ordered && !Emptied(v.batchSize, |l|, pages.buffer) ==> Justified(q)
    {
      hide P.JoinAll, AddressSpace.Image, AddressSpace.FreePages, AddressSpace.BatchedPages, AddressSpace.UsedPages;
      hide AddressSpace.SlabPages, AddressSpace.Now, AddressSpace.Batch, AddressSpace.HeapOrdered, Unanswerable;
      hide Valid, LivePages, Unused;
      FreeIsIdle();
    }

    /** Retrying after a merge. */
    lemma RetriedShown(cfg: PS.Config, u: PS.Space, q: Request, d: PS.Effect, m: PS.Space, met: bool, g: PS.Grant)
      requires PS.Drained(cfg, u) == d && d.space.image.batch != [] && PS.Merged(d.space) == PS.Effect(m, 0, met)
      requires PS.Quiet(m) && m.image.batch == [] && PS.Allocated(cfg, m, q) == g
      ensures PS.Retried(cfg, u, q)
           == PS.Grant(g.offset, PS.Effect(g.effect.space, d.entries, d.hazard || met || g.effect.hazard))
    {
      hide PS.Drained, PS.Merged, P.Take, PS.Allocated;
      PS.NothingRetried(cfg, m, q);
    }

    lemma RefusedShown(cfg: PS.Config, u: PS.Space, q: Request, d: PS.Effect)
      requires PS.Drained(cfg, u) == d && d.space.image.batch == []
      ensures PS.Retried(cfg, u, q) == PS.Grant(None, d)
    {
      hide PS.Drained;
    }

    /** With nothing waiting, the batch is merged. */
    method MergeDrained() returns (ghost hazard: bool)
      requires Joint() && Quiet() && pages.batchSize > 0
      modifies Repr()
      ensures Valid() && Quiet() && Store() == old(Store()) && pages.batchSize == 0 && Gapless()
      ensures LivePages() == old(LivePages()) && LiveBlocks() == old(LiveBlocks())
      ensures pages.slabs == old(pages.slabs) && pool.Now() == old(pool.Now())
      ensures pages.FreePages() == old(pages.FreePages() + pages.BatchedPages()) && pages.BatchedPages() == {}
      ensures old(pages.HeapOrdered()) && !hazard ==> pages.HeapOrdered()
      ensures old(Gapless()) ==> !hazard
      ensures old(pages.batchSize) == 1 ==> (hazard <==> BatchHazard(old(pages.Now()), old(pages.Batch())))
      ensures old(pages.batchSize) == 1 && old(pages.HeapOrdered()) ==> (pages.HeapOrdered() <==> !hazard)
      ensures PS.Merged(old(Shown())) == PS.Effect(Shown(), 0, hazard) && pages.Image().batch == []
    {
      hide JointBut, AddressSpace.FreePages, AddressSpace.SlabPages, AddressSpace.Now, AddressSpace.Batch, FillsGap;
      hide S.SlabPool.Now, AddressSpace.UsedPages, AddressSpace.HeapOrdered, AddressSpace.BatchedPages, BatchHazard;
      hide Named, S.Live, Queued, PendingPages, PlainPages, AddressSpace.Image, P.MergeBatch;
      BufferHolds();
      hazard := MergePages();
      Outside();
      NothingQueued(PlainPages(), pages.pub);
      NoGapWithoutBatch(pages.FreePages());
    }

    // ---------- allocating slab blocks ----------

    ghost predicate NoList(c: nat)
      reads pool, pool.heads
    {
      c < pool.heads.Length && pool.heads[c] == NIL
    }

    /** The class has no list, though a slab of it will have a free block once what waits is drained. */
    ghost predicate Overtaken(c: nat)
      reads this, pool, Store()
    {
      NoList(c) && Frees(pool.Now().size, remoteSlab, c)
    }

    lemma NoListNow(c: nat)
      ensures NoList(c) <==> c < |pool.Now().heads| && pool.Now().heads[c] == NIL
    {
    }

    /** Blocks in use belong to slabs that the pages have. */
    lemma BlocksInSlabs()
      requires Valid()
      ensures forall b :: b in LiveBlocks() ==> b.0 in pages.slabs
    {
      hide AddressSpace.Consistent, S.SlabPool.Valid, Legal, Aligned, S.TakenFrom;
    }

    lemma LegalSlab()
      requires Valid()
      ensures Legal(SlabRequest()) && pages.slabPages > 1
    {
      hide AddressSpace.Consistent, S.SlabPool.Valid, Legal;
    }

    /** What is granted for a slab is aligned, and is not in use. */
    lemma AnswersSlab(o: nat, live: set<nat>)
      requires pages.slabPages > 1 && Answers(SlabRequest(), o, Unused(live))
      ensures (base + o) % pages.slabPages == 0 && Run(o, pages.slabPages) !! live
      ensures live + Run(o, pages.slabPages) - Run(o, pages.slabPages) == live
    {
      hide Run;
    }

    /** A node for a slab in pages just allocated. */
    method TrackPages(o: nat, c: nat) returns (s: nat)
      requires Joint() && Run(o, pages.slabPages) <= PlainPages() && (base + o) % pages.slabPages == 0
      modifies pages, PageArrays()
      ensures JointBut({s}) && s !in pool.slabs && s < pool.left.Length && Store() == old(Store())
      ensures pool.Now() == old(pool.Now()) && PlainPages() == old(PlainPages()) - Run(o, pages.slabPages)
      ensures pages.slabs == old(pages.slabs)[s := o] && s !in old(pages.slabs)
        && pages.batchSize == old(pages.batchSize)
      ensures old(pages.HeapOrdered()) ==> pages.HeapOrdered()
      ensures pages.Image() == old(pages.Image()) && pages.FreePages() == old(pages.FreePages())
    {
      hide AddressSpace.Image;
      hide AddressSpace.Consistent, S.SlabPool.Valid, AddressSpace.UsedPages, AddressSpace.FreePages;
      hide AddressSpace.BatchedPages, AddressSpace.HeapOrdered, AddressSpace.Now, AddressSpace.Batch;
      hide S.SlabPool.LiveBlocks, S.SlabPool.AllListed, Legal, Lodged, LodgedPages, Run;
      pages.UsedBelow(o, pages.slabPages);
      s := pages.TrackSlab(o, c);
    }

    /** The pool gets the slab that the pages have a node for. */
    method OpenInPool(c: nat, s: nat)
      requires JointBut({s}) && s !in pool.slabs && s < pool.left.Length && c < |pool.blocks|
      modifies pool, pool.left, pool.right, pool.count, pool.size, pool.heads
      ensures Joint() && View() == old(View()) && pool.LiveBlocks() == old(pool.LiveBlocks()) && Store() == old(Store())
      ensures c < pool.heads.Length && pool.heads[c] == s && s < NIL
      ensures old(pool.AllListed()) ==> (pool.AllListed() <==>
        c < |old(pool.Now()).heads| && old(pool.Now()).heads[c] == NIL)
      ensures old(pool.AllListed()) && !pool.AllListed() ==> S.Displaced(pool.Now(), s)
      ensures PS.Reopened(Cfg(), old(pool.Now()), c, s) == pool.Now()
      ensures S.Ordered(pool.Now(), pool.blocks, s, S.NEW_ORDER)
    {
      hide S.Displaced, AddressSpace.Image, S.Opened, S.Ordered;
      hide AddressSpace.Consistent, S.SlabPool.Valid, AddressSpace.UsedPages, AddressSpace.FreePages;
      hide AddressSpace.BatchedPages, AddressSpace.HeapOrdered, AddressSpace.SlabPages, AddressSpace.Now,
          AddressSpace.Batch;
      hide S.SlabPool.LiveBlocks, S.SlabPool.AllListed, Aligned, Legal;
      pool.Facts(c);
      pool.Open(c, s);
    }

    /** With nothing waiting, pages in use become a slab of class `c`. */
    method LodgeSlab(o: nat, c: nat) returns (s: nat)
      requires Valid() && Quiet() && Run(o, pages.slabPages) <= LivePages() && (base + o) % pages.slabPages == 0
      requires c < |pool.blocks|
      modifies Repr()
      ensures Valid() && Quiet() && Store() == old(Store()) && LivePages() == old(LivePages()) - Run(o, pages.slabPages)
      ensures LiveBlocks() == old(LiveBlocks()) && c < pool.heads.Length && pool.heads[c] != NIL
      ensures old(pages.HeapOrdered()) ==> pages.HeapOrdered()
      ensures old(pool.AllListed()) ==> (pool.AllListed() <==>
        c < |old(pool.Now()).heads| && old(pool.Now()).heads[c] == NIL)
      ensures old(pool.AllListed()) && !pool.AllListed() ==> S.Displaced(pool.Now(), pool.heads[c])
      ensures s !in old(pages.slabs) && pages.slabs == old(pages.slabs)[s := o]
      ensures pool.heads[c] == s && Shown() == PS.Opened(Cfg(), old(Shown()), c, s, o)
      ensures S.Ordered(pool.Now(), pool.blocks, s, S.NEW_ORDER) && pages.FreePages() == old(pages.FreePages())
    {
      hide AddressSpace.Image, PS.Reopened, S.Ordered;
      hide JointBut, AddressSpace.FreePages, AddressSpace.SlabPages, AddressSpace.Now, AddressSpace.Batch, Queued;
      hide S.SlabPool.Now, AddressSpace.UsedPages, AddressSpace.HeapOrdered, AddressSpace.BatchedPages, LivePages;
      hide S.Live, S.Listed, Run, LiveBlocks, Valid, S.Displaced;
      QuietLive();
      ValidJoint();
      s := TrackPages(o, c);
      OpenInPool(c, s);
      Outside();
      QuietValid();
      QuietLive();
    }

    /** The slab that starts at `o` lies where it belongs in a maximal run of free pages. */
    ghost predicate LiesRight(o: nat, best: bool)
      reads pages, Store()
    {
      TakenFrom(SlabRequest(), o, pages.FreePages() + Run(o, pages.slabPages), best)
    }

    /** What waits is drained and a big batch merged, before pages for a slab are looked for. */
    method DrainAndMerge(ghost c: nat) returns (ghost entries: nat, ghost hazard: bool)
      requires Valid() && c < |pool.blocks| && NoList(c)
      modifies Repr()
      ensures Valid() && Quiet() && Store() == old(Store()) && LiveBlocks() == old(LiveBlocks())
      ensures LivePages() == old(LivePages())
      ensures old(pages.HeapOrdered()) && !hazard ==> pages.HeapOrdered()
      ensures old(Quiet() && Gapless()) ==> !hazard && Gapless()
      ensures old(Quiet()) ==> entries == 0
      ensures old(pool.AllListed()) ==> pool.AllListed() && (NoList(c) <==> !old(Overtaken(c)))
      ensures Fewer(old(pages.slabs), pages.slabs)
      ensures var d := PS.Drained(Cfg(), old(Shown())); var m := PS.MergedMany(Cfg(), d.space);
        m.space == Shown() && m.entries == 0 && d.entries == entries && hazard == (d.hazard || m.hazard)
    {
      hide AddressSpace.Image, PS.Drained, PS.MergedMany;
      hide Joint, AddressSpace.FreePages, AddressSpace.SlabPages, AddressSpace.Now, AddressSpace.Batch, Queued;
      hide S.SlabPool.Now, AddressSpace.UsedPages, AddressSpace.HeapOrdered, AddressSpace.BatchedPages, FillsGap;
      hide Waiting, Named, PlainPages, PendingPages, S.Live, S.Listed, Restocked, Store, Fewer, Run;
      hide Valid, LiveBlocks, LivePages, S.Displaced, Unused;
      NoListNow(c);
      ghost var p, l := pool.Now(), remoteSlab;
      entries, hazard := DrainRemote();
      RestockedHeads(p, pool.Now(), l, c);
      ValidJoint();
      ghost var met := MergeMany();
      NoListNow(c);
      hazard := hazard || met;
    }

    /** Pages for a slab: what waits is drained, a big batch merged, and the pages allocated. */
    method SeekSlab(ghost c: nat) returns (r: Option<nat>, ghost entries: nat, ghost hazard: bool)
      requires Valid() && c < |pool.blocks| && NoList(c) && Safe(SlabRequest(), pages.pub)
      modifies Repr()
      ensures Valid() && Quiet() && Store() == old(Store()) && LiveBlocks() == old(LiveBlocks())
      ensures match r
        case Some(o) =>
          && (base + o) % pages.slabPages == 0 && Run(o, pages.slabPages) <= LivePages()
          && LivePages() - Run(o, pages.slabPages) == old(LivePages())
          && LiesRight(o, old(pages.HeapOrdered()) && !hazard)
        case None =>
          LivePages() == old(LivePages()) && (old(pages.HeapOrdered()) && !hazard ==> Justified(SlabRequest()))
      ensures old(pages.HeapOrdered()) && !hazard ==> pages.HeapOrdered()
      ensures old(Quiet() && Gapless()) ==> !hazard
      ensures old(Quiet()) ==> entries == 0
      ensures old(pool.AllListed()) ==> pool.AllListed() && (NoList(c) <==> !old(Overtaken(c)))
      ensures Fewer(old(pages.slabs), pages.slabs) && Stay(old(LiveBlocks()), old(pages.slabs), pages.slabs)
      ensures PS.Sought(Cfg(), old(Shown())) == PS.Grant(r, PS.Effect(Shown(), entries, hazard))
    {
      hide AddressSpace.Image, PS.Drained, PS.MergedMany, PS.Allocated, PS.Sought;
      hide Joint, AddressSpace.FreePages, AddressSpace.SlabPages, AddressSpace.Now, AddressSpace.Batch, Queued;
      hide S.SlabPool.Now, AddressSpace.UsedPages, AddressSpace.HeapOrdered, AddressSpace.BatchedPages, FillsGap;
      hide Waiting, Named, PlainPages, PendingPages, S.Live, S.Listed, Restocked, Store, Fewer, Legal, Run;
      hide Justified, Answers, Valid, LiveBlocks, Stay, LivePages, Safe, S.Displaced, Unused, TakenFrom, Gapless;
      hide Unanswerable, P.Take, PS.Entries, BatchHazard, Emptied, Overtaken, NoList;
      LegalSlab();
      ghost var slabs, live, blocks, u := pages.slabs, LivePages(), LiveBlocks(), Shown();
      entries, hazard := DrainAndMerge(c);
      ghost var more, later, m, ordered, slabs1 := 0, false, Shown(), pages.HeapOrdered(), pages.slabs;
      NoListNow(c);
      NoneEmpties(pages.batchSize, pages.buffer);
      r, more, later := PageAllocate(SlabRequest());
      SoughtShown(u, m, PS.Grant(r, PS.Effect(Shown(), more, later)));
      NoListNow(c);
      FewerStill(slabs, slabs1, pages.slabs);
      BlocksInSlabs();
      FewerStay(blocks, slabs, slabs1, pages.slabs);
      if r.Some? {
        AnswersSlab(r.value, live);
        BelongsStill(SlabRequest(), r.value, pages.FreePages() + Run(r.value, pages.slabPages), ordered && !later,
                     old(pages.HeapOrdered()) && !hazard && !later);
      }
      hazard := hazard || later;
    }

    /** A slab for a class without a list. */
    method OpenSlab(c: nat) returns (made: bool, ghost entries: nat, ghost hazard: bool)
      requires Valid() && c < |pool.blocks| && NoList(c) && Safe(SlabRequest(), pages.pub)
      modifies Repr()
      ensures Valid() && Quiet() && Store() == old(Store()) && LivePages() == old(LivePages())
      ensures LiveBlocks() == old(LiveBlocks())
      ensures !made && old(pages.HeapOrdered()) && !hazard ==> Justified(SlabRequest())
      ensures old(pages.HeapOrdered()) && !hazard ==> pages.HeapOrdered()
      ensures old(Quiet() && Gapless()) ==> !hazard
      ensures old(Quiet()) ==> entries == 0
      ensures old(pool.AllListed()) ==> (pool.AllListed() <==> !(made && old(Overtaken(c))))
      ensures made ==> c < pool.heads.Length && pool.heads[c] != NIL
      ensures made && old(pool.AllListed()) && !pool.AllListed() ==> S.Displaced(pool.Now(), pool.heads[c])
      ensures made ==>
        && S.Ordered(pool.Now(), pool.blocks, pool.heads[c], S.NEW_ORDER) && pool.heads[c] in pages.slabs
        && LiesRight(pages.slabs[pool.heads[c]], old(pages.HeapOrdered()) && !hazard)
      ensures Stay(old(LiveBlocks()), old(pages.slabs), pages.slabs)
      ensures if made then OneMore(old(pages.slabs), pages.slabs) else Fewer(old(pages.slabs), pages.slabs)
      ensures !made && old(pool.AllListed()) ==> (NoList(c) <==> !old(Overtaken(c)))
      ensures var g := PS.Sought(Cfg(), old(Shown()));
        && entries == g.effect.entries && hazard == g.effect.hazard
        && match g.offset
           case Some(o) => made && Shown() == PS.Opened(Cfg(), g.effect.space, c, pool.heads[c], o)
           case None => !made && Shown() == g.effect.space
    {
      hide AddressSpace.Image, PS.Opened, PS.Sought, OneMore, Overtaken, S.Ordered, TakenFrom;
      hide Joint, AddressSpace.FreePages, AddressSpace.SlabPages, AddressSpace.Now, AddressSpace.Batch, Queued;
      hide S.SlabPool.Now, AddressSpace.UsedPages, AddressSpace.HeapOrdered, AddressSpace.BatchedPages, FillsGap;
      hide Waiting, Named, PlainPages, PendingPages, S.Live, S.Listed, Restocked, Store, Fewer, Legal, Run;
      hide Justified, Valid, LiveBlocks, Stay, LivePages, Safe, S.Displaced;
      ghost var slabs, blocks := pages.slabs, LiveBlocks();
      var r;
      r, entries, hazard := SeekSlab(c);
      made := r.Some?;
      NoListNow(c);
      if made {
        ghost var slabs' := pages.slabs;
        var s := LodgeSlab(r.value, c);
        StayBeside(blocks, slabs, slabs', pages.slabs, s, r.value);
        OneBeside(slabs, slabs', s, r.value);
      }
    }

    lemma SoughtShown(u: PS.Space, m: PS.Space, g: PS.Grant)
      requires var w := PS.MergedMany(Cfg(), PS.Drained(Cfg(), u).space);
        w.space == m && w.entries == 0 && PS.Allocated(Cfg(), m, SlabRequest()) == g && g.effect.entries == 0
      ensures var d := PS.Drained(Cfg(), u);
        PS.Sought(Cfg(), u)
        == PS.Grant(g.offset, PS.Effect(g.effect.space, d.entries,
                                        d.hazard || PS.MergedMany(Cfg(), d.space).hazard || g.effect.hazard))
    {
      hide PS.Drained, PS.MergedMany, PS.Allocated;
    }

    /** The slab block is one of class `c` in a slab that the pages have. */
    ghost predicate OfClass(s: nat, b: nat, c: nat)
      reads this, pages, Store()
    {
      && s in pages.slabs && s < |pool.Now().size| && pool.Now().size[s] == c && c < |pool.blocks| && b < pool.blocks[c]
    }

    /** The block that is due is taken from the slab at the head of the class's list. */
    method TakeInPool(c: nat) returns (s: nat, b: nat)
      requires Joint() && c < |pool.blocks| && c < pool.heads.Length && pool.heads[c] != NIL
      modifies pool, pool.left, pool.right, pool.count, pool.heads
      ensures Joint() && Store() == old(Store()) && View() == old(View()) && OfClass(s, b, c)
      ensures (s, b) !in old(pool.LiveBlocks()) && pool.LiveBlocks() == old(pool.LiveBlocks()) + {(s, b)}
      ensures old(pool.AllListed()) ==> pool.AllListed()
      ensures S.Displaced(old(pool.Now()), old(pool.heads[c])) ==> !pool.AllListed()
      ensures s == old(pool.heads[c]) && S.TakesDue(old(pool.Now()), pool.Now(), pool.blocks, s, b)
      ensures PS.Handed(old(Shown()), c) == PS.Handing(Some((s, b)), PS.Effect(Shown(), 0, false))
    {
      hide AddressSpace.Consistent, S.SlabPool.Valid, AddressSpace.UsedPages, AddressSpace.FreePages, S.TakesDue;
      hide AddressSpace.BatchedPages, AddressSpace.HeapOrdered, AddressSpace.SlabPages, AddressSpace.Now,
          AddressSpace.Batch, AddressSpace.Image;
      hide S.SlabPool.LiveBlocks, S.Listed, Aligned, Legal, S.Popped, S.Displaced;
      s, b := pool.Take(c);
      if S.Displaced(pool.Now(), s) { S.DisplacedUnlisted(pool.Now(), s); }
    }

    method TakeBlock(c: nat) returns (s: nat, b: nat)
      requires Valid() && c < |pool.blocks| && c < pool.heads.Length && pool.heads[c] != NIL
      modifies Repr()
      ensures Valid() && Store() == old(Store()) && View() == old(View()) && LivePages() == old(LivePages())
      ensures (s, b) !in old(LiveBlocks()) && LiveBlocks() == old(LiveBlocks()) + {(s, b)} && OfClass(s, b, c)
      ensures old(pool.AllListed()) ==> pool.AllListed()
      ensures S.Displaced(old(pool.Now()), old(pool.heads[c])) ==> !pool.AllListed()
      ensures remotePage == old(remotePage) && remoteSlab == old(remoteSlab) && s == old(pool.heads[c])
      ensures PS.Handed(old(Shown()), c) == PS.Handing(Some((s, b)), PS.Effect(Shown(), 0, false))
      ensures S.TakesDue(old(pool.Now()), pool.Now(), pool.blocks, s, b)
    {
      hide JointBut, AddressSpace.UsedPages, AddressSpace.FreePages, S.TakesDue, OfClass, S.SlabPool.Now, PS.Handed;
      hide AddressSpace.BatchedPages, AddressSpace.HeapOrdered, AddressSpace.SlabPages, AddressSpace.Now,
          AddressSpace.Batch, AddressSpace.Image;
      hide S.SlabPool.LiveBlocks, S.Listed, Queued, PendingPages, Waiting, Named, S.Displaced;
      ghost var live := pool.LiveBlocks();
      NotWaiting(remoteSlab, live);
      Outside();
      s, b := TakeInPool(c);
      WaitsStill(remoteSlab, live, pool.LiveBlocks());
      LiveGrows(live, Named(remoteSlab), (s, b));
    }

    /** Hands out a block of class `c`.  A class without a list gets a new slab first; since what waits is
        drained on the way, the class may have got a list meanwhile, which the new slab then displaces:
        exactly then slabs with free blocks are in no list any more.  Unlike with pages, the search for
        a slab's pages comes after the drain, so a refusal is justified whatever the drain did. */
    method SlabAllocate(c: nat) returns (r: Option<(nat, nat)>, ghost entries: nat, ghost hazard: bool)
      requires Valid() && c < |pool.blocks| && Safe(SlabRequest(), pages.pub)
      modifies Repr()
      ensures Valid() && Store() == old(Store()) && LivePages() == old(LivePages())
      ensures match r
        case Some((s, b)) =>
          && (s, b) !in old(LiveBlocks()) && LiveBlocks() == old(LiveBlocks()) + {(s, b)} && OfClass(s, b, c)
          && (if old(NoList(c)) then
                b == 0 && s in pages.slabs && LiesRight(pages.slabs[s], old(pages.HeapOrdered()) && !hazard)
              else S.TakesDue(old(pool.Now()), pool.Now(), pool.blocks, s, b))
        case None =>
          && LiveBlocks() == old(LiveBlocks()) && Quiet() && old(NoList(c))
          && PS.Sought(Cfg(), old(Shown())).offset == None
          && (old(pages.HeapOrdered()) && !hazard ==> Justified(SlabRequest()))
      ensures old(pages.HeapOrdered()) && !hazard ==> pages.HeapOrdered()
      ensures old(Quiet() && Gapless()) ==> !hazard
      ensures old(Quiet()) ==> entries == 0
      ensures old(pool.AllListed()) ==> (pool.AllListed() <==> !(r.Some? && old(Overtaken(c))))
      ensures r == None && old(pool.AllListed()) ==> (NoList(c) <==> !old(Overtaken(c)))
      ensures Stay(old(LiveBlocks()), old(pages.slabs), pages.slabs)
      ensures if !old(NoList(c)) then pages.slabs == old(pages.slabs)
              else if r.Some? then OneMore(old(pages.slabs), pages.slabs)
              else Fewer(old(pages.slabs), pages.slabs)
      ensures PS.SlabAllocated(Cfg(), old(Shown()), c, if r.Some? then r.value.0 else 0)
           == PS.Handing(r, PS.Effect(Shown(), entries, hazard))
    {
      hide AddressSpace.Image, PS.Handed, PS.Sought, PS.Opened, OneMore, PS.HasList;
      hide Joint, AddressSpace.FreePages, AddressSpace.SlabPages, AddressSpace.Now, AddressSpace.Batch, Queued;
      hide S.SlabPool.Now, AddressSpace.UsedPages, AddressSpace.HeapOrdered, AddressSpace.BatchedPages, FillsGap;
      hide Waiting, Named, PlainPages, PendingPages, S.Live, S.Listed, Restocked, Store, Fewer, Legal, Run;
      hide Justified, Stay, LivePages, LiveBlocks, Safe, S.SlabPool.AllListed, OfClass, S.Displaced;
      hide S.Ordered, S.TakesDue, TakenFrom;
      ListOf(c);
      BlocksInSlabs();
      StaysAtFirst(LiveBlocks(), pages.slabs);
      entries, hazard := 0, false;
      ListShown(c);
      if pool.heads[c] == NIL {
        var made;
        made, entries, hazard := OpenSlab(c);
        if !made { return None, entries, hazard; }
      }
      ghost var p := pool.Now();
      var s, b := TakeBlock(c);
      DueFirst(p, s, b);
      r := Some((s, b));
    }

    /** The first block of a new slab. */
    lemma DueFirst(p: S.Pool, s: nat, b: nat)
      requires S.TakesDue(p, pool.Now(), pool.blocks, s, b)
      ensures S.Ordered(p, pool.blocks, s, S.NEW_ORDER) ==> b == 0
    {
      hide S.Ordered, S.SlabPool.Now;
    }

    lemma ListShown(c: nat)
      ensures PS.HasList(Shown(), c) <==> c < pool.heads.Length && pool.heads[c] != NIL
    {
    }

    lemma ListOf(c: nat)
      requires Valid() && c < |pool.blocks|
      ensures c < pool.heads.Length
    {
      hide AddressSpace.Consistent, S.SlabPool.Valid, Legal, Aligned, Waiting, Queued;
      pool.Facts(c);
    }

    // ---------- growing an allocation in place ----------

    /** The batch as it would be if everything that waits joined it and it were never merged. */
    ghost function Joining(): seq<PageFree>
      reads this, pages, Store()
    {
      pages.Image().batch + PS.Entries(Cfg(), Shown())
    }

    /** The pages that are free, batched or drained. */
    ghost function Stock(): set<nat>
      reads this, pages, Store()
    {
      pages.FreePages() + PendingPages(Joining())
    }

    /** The pages from `o` on are free, or would be after a drain and a merge that the code sees reason for in
        what the drain leaves of the batch: all of it when it does not fill the batch, and otherwise the last
        to join. */
    ghost predicate Extends(o: nat, n: nat)
      reads this, pages, Store()
    {
      || Run(o, n) <= pages.FreePages()
      || (pages.buffer > 0 && P.Straddles(P.Leftover(Joining(), pages.buffer), o) && Run(o, n) <= Stock())
    }

    /** No block that is free, batched or waiting ends at `o`, or a block in use does. */
    ghost predicate Ends(o: nat)
      reads this, pages, Store()
    {
      o == 0 || o - 1 in LivePages() || o - 1 !in Stock()
    }

    /** Free pages are not in use, and are part of the stock. */
    lemma EndsFree(o: nat)
      requires Valid()
      ensures Ends(o) ==> o == 0 || o - 1 !in pages.FreePages()
    {
      hide JointBut, Queued, Waiting, AddressSpace.FreePages, AddressSpace.Image, PS.Entries, PendingPages;
      hide AddressSpace.UsedPages, AddressSpace.SlabPages, Cfg;
      FreeIsIdle();
    }

    lemma ExtendsFree(o: nat, n: nat)
      ensures Run(o, n) <= pages.FreePages() ==> Extends(o, n)
    {
      hide Run, AddressSpace.FreePages, Joining, Stock, P.Straddles, P.Leftover;
    }

    lemma ViewImage()
      requires Valid()
      ensures var v := View();
        && v.image == pages.Image() && v.free == pages.FreePages() && v.batched == pages.BatchedPages()
        && PendingPages(v.image.batch) == v.batched && |v.image.batch| < pages.buffer
    {
      hide AddressSpace.FreePages, AddressSpace.BatchedPages, AddressSpace.HeapOrdered, AddressSpace.Now, Waiting;
      hide AddressSpace.Batch, AddressSpace.UsedPages, AddressSpace.SlabPages, AddressSpace.Image, JointBut, Queued;
      BatchLength();
      ImageOfPages();
    }

    /** What a drain leaves in the batch and in stock. */
    lemma DrainedStock(v: PageView, l: seq<PageFree>, hazard: bool)
      requires Joint() && Batched(v, View(), pages.buffer, l, hazard)
      requires |v.image.batch| < pages.buffer && PendingPages(v.image.batch) == v.batched
      ensures pages.Image().batch == P.Leftover(v.image.batch + l, pages.buffer)
      ensures pages.FreePages() + pages.BatchedPages() == v.free + PendingPages(v.image.batch + l)
    {
      hide JointBut, P.JoinAll, P.Leftover, PendingPages, AddressSpace.FreePages, AddressSpace.BatchedPages;
      hide AddressSpace.UsedPages, AddressSpace.SlabPages, AddressSpace.Now, AddressSpace.Batch, AddressSpace.Image;
      P.JoinLeaves(v.image, l, pages.buffer);
      PendingBoth(v.image.batch, l);
    }

    lemma NothingJoins()
      requires Quiet()
      ensures Joining() == pages.Image().batch
    {
      hide AddressSpace.Image, S.SlabPool.Now;
      assert Shown().remotePage == [] && Shown().remoteSlab == [];
      NoEntries(Cfg(), Shown());
      assert pages.Image().batch + [] == pages.Image().batch;
    }

    /** With nothing waiting or batched the stock is what is free. */
    lemma StockMerged(o: nat, n: nat)
      requires Valid() && Quiet() && pages.batchSize == 0
      ensures Stock() == pages.FreePages() && (Extends(o, n) <==> Run(o, n) <= pages.FreePages())
    {
      hide *;
      ValidBatch();
      NothingJoins();
      NonePending();
      NothingStraddles(o);
      StockOf(o, n, []);
    }

    lemma ValidBatch()
      requires Valid()
      ensures |pages.Image().batch| == pages.batchSize < pages.buffer
    {
      hide JointBut, Queued, Waiting, AddressSpace.Image;
      BatchLength();
    }

    /** What there is and what it is good for, given what joins the batch. */
    lemma StockOf(o: nat, n: nat, l: seq<PageFree>)
      requires Joining() == l && |l| < pages.buffer
      ensures Stock() == pages.FreePages() + PendingPages(l)
      ensures Extends(o, n) <==>
        || Run(o, n) <= pages.FreePages()
        || (P.Straddles(l, o) && Run(o, n) <= pages.FreePages() + PendingPages(l))
    {
      hide AddressSpace.FreePages, Joining, PendingPages, Run, P.Straddles, P.Leftover;
      P.LeftoverFew(l, pages.buffer);
    }

    /** With nothing waiting, all that is batched is left. */
    lemma QuietExtends(o: nat, n: nat)
      requires Valid() && Quiet()
      ensures Extends(o, n) <==>
        || Run(o, n) <= pages.FreePages()
        || (pages.batchSize > 0 && pages.batchMin <= o <= pages.batchMax
            && Run(o, n) <= pages.FreePages() + pages.BatchedPages())
    {
      hide *;
      ValidBatch();
      ValidJoint();
      ImageOfPages();
      StraddlesBatch(o);
      NothingJoins();
      StockOf(o, n, pages.Image().batch);
    }

    lemma NothingStraddles(o: nat)
      ensures !P.Straddles([], o)
    {
    }

    method BlockAt(o: nat, n: nat) returns (r: Option<Spot>)
      requires Valid() && n > 0
      ensures match r
        case Some(p) =>
          && pages.Usable(p, Request(n, 1, 0)) && p.id < |pages.Now().off| && pages.Now().off[p.id] + p.left == o
          && Run(o, n) <= pages.FreePages() && pages.Begins(p, o)
        case None =>
          && (Ends(o) ==> !(Run(o, n) <= pages.FreePages()))
          && P.TakeAt(pages.Image(), o, n) == P.Answer(None, pages.Image())
    {
      hide AddressSpace.Image, AddressSpace.Begins, P.TakeAt;
      hide AddressSpace.Consistent, AddressSpace.FreePages, S.SlabPool.Valid, AddressSpace.Now, Run,
          AddressSpace.BatchedPages;
      EndsFree(o);
      r := pages.FreeBlockAt(o, n);
      if r.None? && Ends(o) { pages.NoRunAt(o, n); }
    }

    /** The block found is cut from its start. */
    method GrowAt(p: Spot, o: nat, n: nat)
      requires Valid() && n > 0 && pages.Usable(p, Request(n, 1, 0)) && Run(o, n) <= pages.FreePages()
      requires p.id < |pages.Now().off| && pages.Now().off[p.id] + p.left == o
      modifies Repr()
      ensures Valid() && Store() == old(Store()) && LiveBlocks() == old(LiveBlocks())
      ensures LivePages() == old(LivePages()) + Run(o, n) && Run(o, n) <= Unused(old(LivePages()))
      ensures old(pages.HeapOrdered()) ==> pages.HeapOrdered()
      ensures Fewer(old(pages.slabs), pages.slabs) && Steady(old(pool.Now()), pool.Now())
      ensures remotePage == old(remotePage) && remoteSlab == old(remoteSlab)
      ensures pages.slabs == old(pages.slabs) && pool.Now() == old(pool.Now())
      ensures old(pages.Begins(p, o)) ==> P.TakeAt(old(pages.Image()), o, n) == P.Answer(Some(o), pages.Image())
    {
      hide AddressSpace.Image, AddressSpace.Begins, P.TakeAt, AddressSpace.Sought, P.Take;
      hide Joint, AddressSpace.FreePages, AddressSpace.SlabPages, AddressSpace.Now, AddressSpace.Batch, Queued, Valid;
      hide S.SlabPool.Now, AddressSpace.UsedPages, AddressSpace.HeapOrdered, AddressSpace.BatchedPages, LivePages;
      hide Waiting, Named, PlainPages, PendingPages, S.Live, S.Listed, Fewer, Run, PageArrays, AddressSpace.Usable;
      FewerAtFirst(pages.slabs);
      var at := AllocateAt(p, Request(n, 1, 0));
    }

    /** The pages from `o` on are taken if a free block starts with them. */
    method GrowNow(o: nat, n: nat) returns (done: bool)
      requires Valid() && n > 0
      modifies Repr()
      ensures Valid() && Store() == old(Store()) && LiveBlocks() == old(LiveBlocks())
      ensures remotePage == old(remotePage) && remoteSlab == old(remoteSlab)
      ensures if done then
          && LivePages() == old(LivePages()) + Run(o, n) && Run(o, n) <= Unused(old(LivePages()))
          && Run(o, n) <= old(pages.FreePages())
          && (old(pages.HeapOrdered()) ==> pages.HeapOrdered())
          && Fewer(old(pages.slabs), pages.slabs) && Steady(old(pool.Now()), pool.Now())
        else
          && LivePages() == old(LivePages()) && View() == old(View()) && pool.Now() == old(pool.Now())
          && (Ends(o) ==> !(Run(o, n) <= pages.FreePages()))
      ensures P.TakeAt(old(pages.Image()), o, n) == P.Answer(if done then Some(o) else None, pages.Image())
      ensures pages.slabs == old(pages.slabs) && pool.Now() == old(pool.Now())
    {
      hide AddressSpace.Image, AddressSpace.Begins, P.TakeAt;
      hide Joint, AddressSpace.FreePages, AddressSpace.SlabPages, AddressSpace.Now, AddressSpace.Batch, Queued;
      hide S.SlabPool.Now, AddressSpace.UsedPages, AddressSpace.HeapOrdered, AddressSpace.BatchedPages;
      hide Waiting, Named, PlainPages, PendingPages, S.Live, S.Listed, Fewer, Run, PageArrays, AddressSpace.Usable;
      var spot := BlockAt(o, n);
      done := spot.Some?;
      if done { GrowAt(spot.value, o, n); }
    }

    /** Takes the pages from `o` on if they are free, or free once what waits is drained and the batch merged.
        It is known exactly when that succeeds, whatever waits: the code looks for a reason to merge only in
        the smallest and the largest offset of what the drain leaves in the batch. */
    method PageReserve(o: nat, n: nat) returns (grown: nat, ghost entries: nat, ghost hazard: bool)
      requires Valid() && n > 0
      modifies Repr()
      ensures Valid() && Store() == old(Store()) && LiveBlocks() == old(LiveBlocks())
      ensures (grown == 0 || grown == n) && LivePages() == old(LivePages()) + Run(o, grown)
      ensures Run(o, grown) <= Unused(old(LivePages()))
      ensures old(pages.HeapOrdered()) && !hazard ==> pages.HeapOrdered()
      ensures Fewer(old(pages.slabs), pages.slabs) && Steady(old(pool.Now()), pool.Now())
      ensures old(Quiet()) ==> Quiet() && entries == 0 && (old(Gapless()) ==> !hazard)
      ensures old(Ends(o)) ==> (grown == n <==> old(Extends(o, n)))
      ensures old(Ends(o)) ==>
        (P.TakeAt(old(pages.Image()), o, n).offset.Some? <==> Run(o, n) <= old(pages.FreePages()))
      ensures PS.Reserved(Cfg(), old(Shown()), o, n)
           == PS.Grant(if grown == n then Some(o) else None, PS.Effect(Shown(), entries, hazard))
      decreases pages.batchSize + |remotePage| + |remoteSlab|
    {
      hide AddressSpace.Image, P.TakeAt, PS.ReservedMerged;
      hide Joint, AddressSpace.FreePages, AddressSpace.SlabPages, AddressSpace.Now, AddressSpace.Batch, Queued;
      hide S.SlabPool.Now, AddressSpace.UsedPages, AddressSpace.HeapOrdered, AddressSpace.BatchedPages, FillsGap;
      hide Waiting, Named, PlainPages, PendingPages, S.Live, S.Listed, Restocked, Fewer, Run, PageArrays,
          AddressSpace.Usable;
      hide LivePages, LiveBlocks, Valid, Store, PS.Entries, P.Straddles, P.Leftover;
      entries, hazard := 0, false;
      ghost var u, last, room := Shown(), Ends(o), Extends(o, n);
      ExtendsFree(o, n);
      var done := GrowNow(o, n);
      if done {
        grown := n;
      } else {
        assert Shown() == u;
        assert Ends(o) == last && Extends(o, n) == room;
        grown, entries, hazard := ReserveMerged(o, n);
      }
    }

    method ReserveMerged(o: nat, n: nat) returns (grown: nat, ghost entries: nat, ghost hazard: bool)
      requires Valid() && n > 0 && (Ends(o) ==> !(Run(o, n) <= pages.FreePages()))
      modifies Repr()
      ensures Valid() && Store() == old(Store()) && LiveBlocks() == old(LiveBlocks())
      ensures (grown == 0 || grown == n) && LivePages() == old(LivePages()) + Run(o, grown)
      ensures Run(o, grown) <= Unused(old(LivePages()))
      ensures old(pages.HeapOrdered()) && !hazard ==> pages.HeapOrdered()
      ensures Fewer(old(pages.slabs), pages.slabs) && Steady(old(pool.Now()), pool.Now())
      ensures old(Quiet()) ==> Quiet() && entries == 0 && (old(Gapless()) ==> !hazard)
      ensures old(Ends(o)) ==> (grown == n <==> old(Extends(o, n)))
      ensures PS.ReservedMerged(Cfg(), old(Shown()), o, n)
           == PS.Grant(if grown == n then Some(o) else None, PS.Effect(Shown(), entries, hazard))
      decreases pages.batchSize + |remotePage| + |remoteSlab|, 0
    {
      hide AddressSpace.Image, P.TakeAt, PS.ReservedMerged, PS.Reserved, PS.Drained, PS.Merged, P.Straddles;
      hide Joint, AddressSpace.FreePages, AddressSpace.SlabPages, AddressSpace.Now, AddressSpace.Batch, Queued;
      hide S.SlabPool.Now, AddressSpace.UsedPages, AddressSpace.HeapOrdered, AddressSpace.BatchedPages, FillsGap;
      hide Waiting, Named, PlainPages, PendingPages, S.Live, S.Listed, Restocked, Store, Fewer, Legal, Run;
      ghost var met, more, later := false, 0, false;
      hide P.Leftover, P.JoinAll, Batched, LivePages, LiveBlocks, Valid, Unused, View, PS.Entries, BatchHazard, P.Take;
      hide Gapless;
      ghost var slabs, p, u, v := pages.slabs, pool.Now(), Shown(), View();
      ghost var l := PS.Entries(Cfg(), u);
      ViewImage();
      entries, hazard := DrainRemote();
      DrainedStock(v, l, hazard);
      RestockedSteady(p, pool.Now(), old(remoteSlab));
      ghost var slabs' := pages.slabs;
      ghost var d := PS.Effect(Shown(), entries, hazard);
      ValidJoint();
      StraddlesBatch(o);
      if pages.batchSize > 0 && pages.batchMin <= o <= pages.batchMax {
        met := MergeDrained();
        ghost var m := Shown();
        StockMerged(o, n);
        grown, more, later := PageReserve(o, n);
        ReservedShown(Cfg(), u, o, n, d, m, met,
                      PS.Grant(if grown == n then Some(o) else None, PS.Effect(Shown(), more, later)));
        FewerStill(slabs, slabs', pages.slabs);
        hazard := hazard || met || later;
      } else {
        NotReserved(Cfg(), u, o, n, d);
        NoRun(o);
        assert Unused(LivePages()) + {} == Unused(LivePages());
        grown := 0;
      }
    }

    /** What the plain blocks say of the pages. */
    lemma ImageOfPages()
      requires Joint()
      ensures PendingPages(pages.Image().heap) == pages.FreePages()
      ensures PendingPages(pages.Image().batch) == pages.BatchedPages()
      ensures P.InOrder(pages.Image().heap) <==> pages.HeapOrdered()
    {
      hide AddressSpace.Consistent, S.SlabPool.Valid, AddressSpace.Image, P.InOrder, PendingPages;
      hide AddressSpace.FreePages, AddressSpace.BatchedPages, AddressSpace.HeapOrdered;
      pages.ImageMeans(0);
    }

    lemma StraddlesBatch(o: nat)
      requires Joint()
      ensures P.Straddles(pages.Image().batch, o) <==>
        pages.batchSize > 0 && pages.batchMin <= o <= pages.batchMax
    {
      hide AddressSpace.Consistent, S.SlabPool.Valid, AddressSpace.Image;
      pages.ImageMeans(o);
    }

    lemma ReservedShown(cfg: PS.Config, u: PS.Space, o: nat, n: nat, d: PS.Effect, m: PS.Space, met: bool, g: PS.Grant)
      requires PS.Drained(cfg, u) == d && P.Straddles(d.space.image.batch, o)
      requires PS.Merged(d.space) == PS.Effect(m, 0, met)
      requires PS.Quiet(m) && m.image.batch == [] && PS.Reserved(cfg, m, o, n) == g
      ensures PS.ReservedMerged(cfg, u, o, n)
           == PS.Grant(g.offset, PS.Effect(g.effect.space, d.entries, d.hazard || met || g.effect.hazard))
    {
      hide PS.Drained, PS.Merged, P.TakeAt, PS.Reserved, P.Straddles;
      PS.NothingMerged(cfg, m, o, n);
    }

    lemma NotReserved(cfg: PS.Config, u: PS.Space, o: nat, n: nat, d: PS.Effect)
      requires PS.Drained(cfg, u) == d && !P.Straddles(d.space.image.batch, o)
      ensures PS.ReservedMerged(cfg, u, o, n) == PS.Grant(None, d)
    {
      hide PS.Drained, P.Straddles;
    }

    // ---------- freeing an allocation ----------

    lemma ValidJoint()
      requires Valid()
      ensures Joint() && pages.batchSize < pages.buffer
    {
      hide Joint;
    }

    lemma QuietLive()
      requires Quiet()
      ensures LivePages() == PlainPages() && LiveBlocks() == pool.LiveBlocks()
    {
      hide PlainPages, S.SlabPool.LiveBlocks;
      NonePending();
      NoneWaiting();
    }

    lemma QuietValid()
      requires Joint() && Quiet() && pages.batchSize < pages.buffer
      ensures Valid()
    {
      hide Joint;
      NothingQueued(PlainPages(), pages.pub);
    }

    /** A batch of many pages is merged. */
    method MergeMany() returns (ghost hazard: bool)
      requires Joint() && Quiet()
      modifies Repr()
      ensures Valid() && Quiet() && Store() == old(Store()) && pages.batchPages < pages.buffer
      ensures LivePages() == old(LivePages()) && LiveBlocks() == old(LiveBlocks())
      ensures pages.slabs == old(pages.slabs) && pool.Now() == old(pool.Now())
      ensures old(pages.HeapOrdered()) && !hazard ==> pages.HeapOrdered()
      ensures old(Gapless()) ==> !hazard && Gapless()
      ensures if old(pages.batchPages) < pages.buffer then View() == old(View()) && !hazard else pages.batchSize == 0
      ensures PS.MergedMany(Cfg(), old(Shown())) == PS.Effect(Shown(), 0, hazard)
    {
      hide AddressSpace.Image, P.MergeBatch, P.Total, PS.Merged, PS.MergedMany, Shown;
      ManyShown();
      hide AddressSpace.FreePages, AddressSpace.SlabPages, AddressSpace.Now, AddressSpace.Batch, Queued;
      hide S.SlabPool.Now, AddressSpace.UsedPages, AddressSpace.HeapOrdered, AddressSpace.BatchedPages, FillsGap;
      hide Waiting, Named, PlainPages, PendingPages, S.Live, S.Listed, Restocked, Store, Fewer, Legal, Run;
      hide Valid, LivePages, LiveBlocks, Gapless;
      EnoughPages();
      hazard := false;
      if pages.batchPages >= pages.buffer {
        hazard := MergeDrained();
        ValidJoint();
        EnoughPages();
      } else {
        QuietValid();
      }
    }

    lemma ManyShown()
      requires Joint()
      ensures PS.MergedMany(Cfg(), Shown())
           == if pages.batchPages < pages.buffer then PS.Effect(Shown(), 0, false) else PS.Merged(Shown())
    {
      hide AddressSpace.Consistent, S.SlabPool.Valid, AddressSpace.Image, P.Total, P.MergeBatch;
      pages.ImageMeans(0);
    }

    lemma EnoughPages()
      requires Joint()
      ensures pages.buffer > 0 && pages.batchSize <= pages.batchPages
        && (pages.batchSize == 0 ==> pages.batchPages == 0)
    {
      hide AddressSpace.Consistent, S.SlabPool.Valid;
      pages.EnoughPages();
      pages.SlabsHavePages();
    }

    /** The owner frees pages, of one allocation or a part of one: what waits is drained first. */
    method Deallocate(o: nat, n: nat) returns (ghost entries: nat, ghost hazard: bool)
      requires Valid() && n > 0 && o + n <= pages.pub && Run(o, n) <= LivePages()
      modifies Repr()
      ensures Valid() && Quiet() && Store() == old(Store()) && pages.batchPages < pages.buffer
      ensures LivePages() == old(LivePages()) - Run(o, n) && LiveBlocks() == old(LiveBlocks())
      ensures old(pages.HeapOrdered()) && !hazard ==> pages.HeapOrdered()
      ensures Fewer(old(pages.slabs), pages.slabs) && Steady(old(pool.Now()), pool.Now())
      ensures old(Quiet() && GaplessWith(o, n)) ==> !hazard
      ensures old(Quiet()) && old(pages.batchPages) + n < pages.buffer ==>
        !hazard && pages.FreePages() == old(pages.FreePages())
      ensures old(Quiet()) ==> entries == 0
      ensures PS.Deallocated(Cfg(), old(Shown()), o, n) == PS.Effect(Shown(), entries, hazard)
    {
      hide AddressSpace.Image, PS.Drained, PS.MergedMany;
      hide Joint, AddressSpace.FreePages, AddressSpace.SlabPages, AddressSpace.Now, AddressSpace.Batch, Queued;
      hide S.SlabPool.Now, AddressSpace.UsedPages, AddressSpace.HeapOrdered, AddressSpace.BatchedPages, FillsGap;
      hide Waiting, Named, PlainPages, PendingPages, S.Live, S.Listed, Restocked, Store, Fewer, Legal, Run;
      ghost var met := false;
      ghost var p := pool.Now();
      entries, hazard := DrainRemote();
      RestockedSteady(p, pool.Now(), old(remoteSlab));
      BatchLive(o, n);
      met := MergeMany();
      hazard := hazard || met;
    }

    /** With nothing waiting, live pages are batched. */
    method BatchLive(o: nat, n: nat)
      requires Valid() && Quiet() && n > 0 && o + n <= pages.pub && Run(o, n) <= LivePages()
      modifies Repr()
      ensures Joint() && Quiet() && Store() == old(Store())
      ensures LivePages() == old(LivePages()) - Run(o, n) && LiveBlocks() == old(LiveBlocks())
      ensures pages.slabs == old(pages.slabs) && pool.Now() == old(pool.Now())
      ensures old(pages.HeapOrdered()) ==> pages.HeapOrdered()
      ensures pages.batchPages == old(pages.batchPages) + n
      ensures pages.FreePages() == old(pages.FreePages())
        && pages.BatchedPages() == old(pages.BatchedPages()) + Run(o, n)
      ensures Shown() == PS.Batched(old(Shown()), PageFree(o, n))
    {
      hide AddressSpace.Image;
      hide JointBut, AddressSpace.FreePages, AddressSpace.SlabPages, AddressSpace.Now, AddressSpace.Batch, Queued;
      hide S.SlabPool.Now, AddressSpace.UsedPages, AddressSpace.HeapOrdered, AddressSpace.BatchedPages;
      hide Waiting, Named, PlainPages, S.Live, S.Listed, Run;
      NonePending();
      assert PlainPages() - {} == PlainPages();
      BatchPages(o, n);
      Outside();
      assert PlainPages() - {} == PlainPages();
    }

    /** The owner frees a slab block. */
    method DeallocateBlock(s: nat, b: nat) returns (ghost entries: nat, ghost hazard: bool)
      requires Valid() && (s, b) in LiveBlocks()
      modifies Repr()
      ensures Valid() && Quiet() && Store() == old(Store()) && pages.batchPages < pages.buffer
      ensures LiveBlocks() == old(LiveBlocks()) - {(s, b)} && LivePages() == old(LivePages())
      ensures old(pages.HeapOrdered()) && !hazard ==> pages.HeapOrdered()
      ensures Fewer(old(pages.slabs), pages.slabs) && Steady(old(pool.Now()), pool.Now())
      ensures old(Quiet() && Gapless()) && pages.slabs == old(pages.slabs) ==> !hazard
      ensures old(Quiet()) ==> entries == 0
      ensures PS.BlockDeallocated(Cfg(), old(Shown()), s, b) == PS.Effect(Shown(), entries, hazard)
    {
      hide AddressSpace.Image, PS.Drained, PS.MergedMany, PS.Returned;
      hide Joint, AddressSpace.FreePages, AddressSpace.SlabPages, AddressSpace.Now, AddressSpace.Batch, Queued;
      hide S.SlabPool.Now, AddressSpace.UsedPages, AddressSpace.HeapOrdered, AddressSpace.BatchedPages, FillsGap;
      hide Waiting, Named, PlainPages, PendingPages, S.Live, S.Listed, Restocked, Store, Fewer, Legal, Run;
      ghost var met := false;
      ghost var slabs, p := pages.slabs, pool.Now();
      entries, hazard := DrainRemote();
      RestockedSteady(p, pool.Now(), old(remoteSlab));
      ghost var slabs' := pages.slabs;
      ReturnBlock(s, b);
      FewerStill(slabs, slabs', pages.slabs);
      met := MergeMany();
      hazard := hazard || met;
    }

    /** With nothing waiting, a block goes back to its slab. */
    method ReturnBlock(s: nat, b: nat)
      requires Valid() && Quiet() && (s, b) in LiveBlocks()
      modifies Repr()
      ensures Joint() && Quiet() && Store() == old(Store())
      ensures LiveBlocks() == old(LiveBlocks()) - {(s, b)} && LivePages() == old(LivePages())
      ensures Fewer(old(pages.slabs), pages.slabs) && Steady(old(pool.Now()), pool.Now())
      ensures old(pages.HeapOrdered()) ==> pages.HeapOrdered()
      ensures pages.slabs == old(pages.slabs) ==> View() == old(View())
      ensures Shown() == PS.Returned(Cfg(), old(Shown()), s, b)
    {
      hide AddressSpace.Image, S.Returned, S.Reclaimable;
      hide Joint, AddressSpace.FreePages, AddressSpace.SlabPages, AddressSpace.Now, AddressSpace.Batch, Queued;
      hide S.SlabPool.Now, AddressSpace.UsedPages, AddressSpace.HeapOrdered, AddressSpace.BatchedPages;
      hide Waiting, PlainPages, S.Live, S.Listed, Fewer, S.HeadsAfter;
      ghost var slabs := pages.slabs;
      var reclaimed := SlabDeallocate(s, b);
      Outside();
      OneFewer(slabs, s);
      FewerAtFirst(slabs);
      assert slabs - {} == slabs;
    }

    // ---------- merging at will ----------

    /** The batch is merged, if there is one. */
    method Merge() returns (ghost hazard: bool)
      requires Valid()
      modifies Repr()
      ensures Valid() && Store() == old(Store()) && pages.batchSize == 0
      ensures LivePages() == old(LivePages()) && LiveBlocks() == old(LiveBlocks())
      ensures pages.slabs == old(pages.slabs) && pool.Now() == old(pool.Now())
      ensures remotePage == old(remotePage) && remoteSlab == old(remoteSlab)
      ensures old(pages.HeapOrdered()) && !hazard ==> pages.HeapOrdered()
      ensures old(Gapless()) ==> !hazard
      ensures old(pages.batchSize) == 1 ==> (hazard <==> BatchHazard(old(pages.Now()), old(pages.Batch())))
      ensures old(pages.batchSize) == 1 && old(pages.HeapOrdered()) ==> (pages.HeapOrdered() <==> !hazard)
      ensures PS.Merged(old(Shown())) == PS.Effect(Shown(), 0, hazard)
    {
      hide JointBut, AddressSpace.FreePages, AddressSpace.SlabPages, AddressSpace.Now, AddressSpace.Batch, FillsGap;
      hide S.SlabPool.Now, AddressSpace.UsedPages, AddressSpace.HeapOrdered, AddressSpace.BatchedPages, BatchHazard;
      hide Named, S.Live, Queued, Waiting, PendingPages, PlainPages, AddressSpace.Image, P.Merged;
      ValidJoint();
      BatchLength();
      hazard := false;
      if pages.batchSize > 0 {
        BufferHolds();
        hazard := MergePages();
        Outside();
      }
    }

    // ---------- what it all means for the pages ----------

    /** Free, batched, waiting, live and slab pages are disjoint and together are all the pages. */
    lemma PagesPartition()
      requires Valid()
      ensures pages.FreePages() + pages.BatchedPages() + PendingPages(remotePage) + LivePages() + pages.SlabPages()
           == Run(0, pages.pub)
      ensures pages.FreePages() !! pages.BatchedPages() !! PendingPages(remotePage) !! LivePages() !! pages.SlabPages()
    {
      hide AddressSpace.Consistent, S.SlabPool.Valid, AddressSpace.UsedPages, AddressSpace.FreePages;
      hide AddressSpace.BatchedPages, AddressSpace.SlabPages, Run, Aligned, Legal, Queued, PendingPages, Waiting;
      pages.PagesApart();
      PendingUsed(remotePage, PlainPages(), pages.pub);
    }

    /** Without slabs and an empty batch. */
    lemma NothingLodged()
      requires Valid() && pages.slabs == map[] && pages.batchSize == 0
      ensures pages.SlabPages() == {} && pages.BatchedPages() == {}
    {
      hide AddressSpace.Consistent, S.SlabPool.Valid, AddressSpace.BatchedPages;
      pages.PagesApart();
    }

    lemma SlabsLodged()
      requires Valid()
      ensures Lodged(pages.slabs, pages.slabPages, pages.UsedPages(), pages.pub) && pages.slabPages > 0
      ensures Aligned(pages.slabs, base, pages.slabPages)
    {
      hide S.SlabPool.Valid, AddressSpace.UsedPages, AddressSpace.Accounted, Lodged, Aligned, Legal, Queued, Waiting;
    }

    /** A slab starts at an aligned address and has committed pages that nothing else uses; a block in use
        belongs to one. */
    lemma BlockInSlab(s: nat, b: nat, p: nat)
      requires Valid() && (s, b) in LiveBlocks()
      ensures s in pages.slabs && (base + pages.slabs[s]) % pages.slabPages == 0
      ensures p in Run(pages.slabs[s], pages.slabPages) ==>
        && p < pages.pub && p in pages.committed && p !in LivePages() && p !in IdlePages()
        && forall r :: r in pages.slabs && p in Run(pages.slabs[r], pages.slabPages) ==> r == s
    {
      hide AddressSpace.Consistent, S.SlabPool.Valid, AddressSpace.UsedPages, AddressSpace.FreePages;
      hide AddressSpace.BatchedPages, Run, LodgedPages, Legal, Queued, PendingPages, Waiting;
      BlocksInSlabs();
      if p in Run(pages.slabs[s], pages.slabPages) {
        LodgedIn(pages.slabs, pages.slabPages, s);
        pages.PagesApart();
        pages.InOneSlab(s, p);
        pages.UsedPagesAreCommitted(p);
      }
    }

    /** Pages in use are committed. */
    lemma LiveIsCommitted(p: nat)
      requires Valid() && p in LivePages()
      ensures p < pages.pub && p in pages.committed
    {
      hide AddressSpace.Consistent, S.SlabPool.Valid, AddressSpace.FreePages;
      hide AddressSpace.BatchedPages, LodgedPages, Legal, Queued, PendingPages, Waiting;
      pages.PagesApart();
      pages.UsedPagesAreCommitted(p);
    }
  }
}
