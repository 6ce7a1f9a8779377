/** A local space without its nodes: plain blocks, the pool of slabs and what waits to be taken back.
    Each operation is a function of it. */
module PlainSpaces {
  import opened Options
  import opened Bisect
  import opened Pending
  import P = Plain
  import S = Slabs

  /** The sizes fixed at compile time, and how the region lies. */
  datatype Config = Config(pub: nat, buffer: nat, threshold: nat, slabPages: nat, base: nat, blocks: seq<nat>)

  function SlabOf(cfg: Config): Request
  {
    Request(cfg.slabPages, cfg.slabPages, cfg.base)
  }

  datatype Space = Space(image: P.Image, pool: S.Pool, slabs: map<nat, nat>, remotePage: seq<PageFree>,
                         remoteSlab: seq<(nat, nat)>)

  /** Everything is free. */
  ghost function NewSpace(cfg: Config): Space
  {
    Space(P.Image([PageFree(0, cfg.pub)], []), S.NoSlabs(cfg.pub, |cfg.blocks|), map[], [], [])
  }

  ghost predicate Quiet(w: Space)
  {
    w.remotePage == [] && w.remoteSlab == []
  }

  /** What has become of the space, how many drained frees joined the batch, and whether an erasure on
      the way was hazardous. */
  datatype Effect = Effect(space: Space, entries: nat, hazard: bool)

  /** The pages of slabs that are given up. */
  ghost function SlabBlocks(slabs: map<nat, nat>, slabPages: nat, gone: seq<nat>): (r: seq<PageFree>)
    ensures |r| == |gone|
  {
    seq(|gone|, i requires 0 <= i < |gone| =>
      PageFree(if gone[i] in slabs then slabs[gone[i]] else 0, slabPages))
  }

  ghost function Members(gone: seq<nat>): set<nat>
  {
    set s | s in gone
  }

  lemma OneMoreGone(slabs: map<nat, nat>, slabPages: nat, gone: seq<nat>, s: nat)
    ensures SlabBlocks(slabs, slabPages, gone + [s])
         == SlabBlocks(slabs, slabPages, gone) + [PageFree(if s in slabs then slabs[s] else 0, slabPages)]
    ensures Members(gone + [s]) == Members(gone) + {s}
    ensures slabs - Members(gone) - {s} == slabs - (Members(gone) + {s})
  {
  }

  // ---------- draining ----------

  /** The blocks that join the batch in a drain: the pages of the slabs given up, then those freed. */
  ghost function Entries(cfg: Config, w: Space): seq<PageFree>
  {
    SlabBlocks(w.slabs, cfg.slabPages, S.AllReturned(w.pool, cfg.blocks, w.remoteSlab).gone) + w.remotePage
  }

  ghost function Drained(cfg: Config, w: Space): Effect
  {
    var r := S.AllReturned(w.pool, cfg.blocks, w.remoteSlab);
    var l := SlabBlocks(w.slabs, cfg.slabPages, r.gone) + w.remotePage;
    var j := P.JoinAll(w.image, l, cfg.buffer);
    Effect(Space(j.image, r.pool, w.slabs - Members(r.gone), [], []), |l|, j.hazard)
  }

  lemma NothingDrained(cfg: Config, w: Space)
    requires Quiet(w)
    ensures Drained(cfg, w) == Effect(w, 0, false)
  {
    hide S.Returned, S.Reclaimable, P.MergeBatch;
    assert Members([]) == {};
    assert w.slabs - {} == w.slabs;
  }

  ghost function Merged(w: Space): Effect
  {
    var m := P.MergeBatch(w.image);
    Effect(w.(image := m.image), 0, m.hazard)
  }

  /** The batch is merged if it has many pages. */
  ghost function MergedMany(cfg: Config, w: Space): Effect
  {
    var m := P.MergeMany(w.image, cfg.buffer);
    Effect(w.(image := m.image), 0, m.hazard)
  }

  /** One effect after another. */
  function Then(a: Effect, b: Effect): Effect
  {
    Effect(b.space, a.entries + b.entries, a.hazard || b.hazard)
  }

  // ---------- pages ----------

  /** What is granted, if anything. */
  datatype Grant = Grant(offset: Option<nat>, effect: Effect)

  function Settle(w: Space, a: P.Answer): Grant
  {
    Grant(a.offset, Effect(w.(image := a.image), 0, false))
  }

  function After(e: Effect, g: Grant): Grant
  {
    Grant(g.offset, Then(e, g.effect))
  }

  /** Nothing free answers: what waits is drained, the batch merged, and the search repeated. */
  ghost function Retried(cfg: Config, w: Space, q: Request): Grant
  {
    var d := Drained(cfg, w);
    if d.space.image.batch == [] then Grant(None, d)
    else
      var m := Merged(d.space);
      After(Then(d, m), Settle(m.space, P.Take(m.space.image, q)))
  }

  ghost function Allocated(cfg: Config, w: Space, q: Request): Grant
  {
    var a := P.Take(w.image, q);
    if a.offset.Some? then Settle(w, a) else Retried(cfg, w, q)
  }

  /** With nothing waiting or batched there is no retrying. */
  lemma NothingRetried(cfg: Config, w: Space, q: Request)
    requires Quiet(w) && w.image.batch == []
    ensures Allocated(cfg, w, q) == Settle(w, P.Take(w.image, q))
  {
    NothingDrained(cfg, w);
    hide Drained, P.Found, P.Cut;
  }

  /** The pages from `o` on are not free: what waits is drained, and the batch merged if some of it may
      be there. */
  ghost function ReservedMerged(cfg: Config, w: Space, o: nat, n: nat): Grant
  {
    var d := Drained(cfg, w);
    if P.Straddles(d.space.image.batch, o) then
      var m := Merged(d.space);
      After(Then(d, m), Settle(m.space, P.TakeAt(m.space.image, o, n)))
    else Grant(None, d)
  }

  ghost function Reserved(cfg: Config, w: Space, o: nat, n: nat): Grant
  {
    var a := P.TakeAt(w.image, o, n);
    if a.offset.Some? then Settle(w, a) else ReservedMerged(cfg, w, o, n)
  }

  lemma NothingMerged(cfg: Config, w: Space, o: nat, n: nat)
    requires Quiet(w) && w.image.batch == []
    ensures Reserved(cfg, w, o, n) == Settle(w, P.TakeAt(w.image, o, n))
  {
    NothingDrained(cfg, w);
    hide Drained, P.Cut;
  }

  /** Only free blocks have changed. */
  ghost predicate Untouched(w: Space, w': Space)
  {
    w' == w.(image := w.image.(heap := w'.image.heap))
  }

  /** What free pages answer touches nothing that is batched or waits; otherwise all that waits is taken back
      and the batch emptied. */
  lemma AllocatedTouches(cfg: Config, w: Space, q: Request)
    ensures var g := Allocated(cfg, w, q);
      if P.Take(w.image, q).offset.Some? then g.offset.Some? && Untouched(w, g.effect.space)
      else Quiet(g.effect.space) && g.effect.space.image.batch == []
  {
    hide P.Cut, P.Found, P.JoinAll, P.Merged, S.AllReturned, SlabBlocks, Members;
  }

  lemma ReservedTouches(cfg: Config, w: Space, o: nat, n: nat)
    ensures var w' := Reserved(cfg, w, o, n).effect.space;
      if P.TakeAt(w.image, o, n).offset.Some? then Untouched(w, w') else Quiet(w')
  {
    hide P.Cut, P.JoinAll, P.Merged, S.AllReturned, SlabBlocks, Members, P.Straddles;
  }

  ghost function Batched(w: Space, x: PageFree): Space
  {
    w.(image := P.Image(w.image.heap, w.image.batch + [x]))
  }

  ghost function Deallocated(cfg: Config, w: Space, o: nat, n: nat): Effect
  {
    var d := Drained(cfg, w);
    Then(d, MergedMany(cfg, Batched(d.space, PageFree(o, n))))
  }

  // ---------- slab blocks ----------

  /** A block goes back to its slab, whose pages are batched if it is given up. */
  ghost function Returned(cfg: Config, w: Space, s: nat, b: nat): Space
  {
    var v := w.(pool := S.Returned(w.pool, cfg.blocks, s, b));
    if S.Reclaimable(w.pool, cfg.blocks, s) then
      Batched(v.(slabs := v.slabs - {s}), PageFree(if s in w.slabs then w.slabs[s] else 0, cfg.slabPages))
    else v
  }

  ghost function BlockDeallocated(cfg: Config, w: Space, s: nat, b: nat): Effect
  {
    var d := Drained(cfg, w);
    Then(d, MergedMany(cfg, Returned(cfg, d.space, s, b)))
  }

  ghost predicate HasList(w: Space, c: nat)
  {
    c < |w.pool.heads| && w.pool.heads[c] != NIL
  }

  /** The pages of a new slab are looked for. */
  ghost function Sought(cfg: Config, w: Space): Grant
  {
    var d := Drained(cfg, w);
    var m := MergedMany(cfg, d.space);
    After(Then(d, m), Allocated(cfg, m.space, SlabOf(cfg)))
  }

  ghost function Reopened(cfg: Config, p: S.Pool, c: nat, s: nat): S.Pool
  {
    if c < |p.heads| && c < |p.chains| && c < |cfg.blocks| && s < |p.left| && s < |p.right| && s < |p.count|
      && s < |p.size|
    then S.Opened(p, cfg.blocks, c, s)
    else p
  }

  /** The pages at `o` become slab `s` of class `c`, at the head of its list. */
  ghost function Opened(cfg: Config, w: Space, c: nat, s: nat, o: nat): Space
  {
    w.(pool := Reopened(cfg, w.pool, c, s), slabs := w.slabs[s := o])
  }

  datatype Handing = Handing(block: Option<(nat, nat)>, effect: Effect)

  /** A block is taken from the slab at the head of the class's list. */
  ghost function Handed(w: Space, c: nat): Handing
  {
    var p := w.pool;
    if c < |p.heads| && c < |p.chains| && p.heads[c] < |p.left| && p.heads[c] < |p.right| && p.heads[c] < |p.count|
      && p.heads[c] in p.lists && 0 < p.count[p.heads[c]] <= |p.lists[p.heads[c]]|
    then
      var s := p.heads[c];
      Handing(Some((s, p.lists[s][p.count[s] - 1])), Effect(w.(pool := S.Popped(p, c, s)), 0, false))
    else Handing(None, Effect(w, 0, false))
  }

  /** A block of class `c`; `s` is the node that a new slab gets. */
  ghost function SlabAllocated(cfg: Config, w: Space, c: nat, s: nat): Handing
  {
    if HasList(w, c) then Handed(w, c)
    else
      var g := Sought(cfg, w);
      match g.offset
      case None => Handing(None, g.effect)
      case Some(o) =>
        var h := Handed(Opened(cfg, g.effect.space, c, s, o), c);
        Handing(h.block, Then(g.effect, h.effect))
  }

  /** Looking for a slab's pages leaves nothing waiting and a small batch. */
  lemma SoughtTouches(cfg: Config, w: Space)
    requires cfg.buffer > 0
    ensures var v := Sought(cfg, w).effect.space; Quiet(v) && P.Total(v.image.batch) < cfg.buffer
  {
    hide P.JoinAll, P.Merged, S.AllReturned, SlabBlocks, Members, Allocated;
    AllocatedTouches(cfg, MergedMany(cfg, Drained(cfg, w).space).space, SlabOf(cfg));
  }

  /** A class with a list touches only the pool; another takes back all that waits and merges a big batch. */
  lemma SlabAllocatedTouches(cfg: Config, w: Space, c: nat, s: nat)
    requires cfg.buffer > 0
    ensures var v := SlabAllocated(cfg, w, c, s).effect.space;
      if HasList(w, c) then v == w.(pool := v.pool) else Quiet(v) && P.Total(v.image.batch) < cfg.buffer
  {
    hide Sought, HasList, Reopened, S.Popped, P.Total;
    SoughtTouches(cfg, w);
  }
}
