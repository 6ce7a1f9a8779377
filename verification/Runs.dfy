/** Whole runs: a client that allocates, grows and frees pages and slab blocks in any order, from
    its own thread and from others. */
module Runs {
  import opened Options
  import Blocks
  import opened Bisect
  import opened Coalescing
  import opened Pending
  import opened Searching
  import opened SlabPages
  import opened AddressSpaces
  import opened LocalSpaces
  import opened PlainSpaces
  import P = Plain
  import S = Slabs

  ghost predicate Sensible(cfg: Config)
  {
    && 0 < cfg.pub < NIL && cfg.buffer > 0 && 1 < cfg.slabPages <= 0x8000_0000_0000_0000 && cfg.base < cfg.slabPages
    && Safe(SlabOf(cfg), cfg.pub) && forall c :: 0 <= c < |cfg.blocks| ==> cfg.blocks[c] > 0
  }

  /** Blocks are named by their place in the client's lists; a free may be of a part of a block. */
  datatype Op =
    | Allocate(request: Request)
    | Grow(block: nat, pages: nat)
    | Free(block: nat, from: nat, pages: nat, elsewhere: bool)  // elsewhere: by another thread
    | AllocateSmall(class_: nat)
    | FreeSmall(block: nat, elsewhere: bool)
    | Merge

  /** What the client sees of an operation; one that names no block of the client is skipped. */
  datatype Outcome = Granted(offset: nat) | Handed(slab: nat, id: nat) | Grew(pages: nat) | Refused | Done | Skipped

  /** The blocks that the client has. */
  datatype Client = Client(pages: seq<PageFree>, small: seq<(nat, nat)>)

  ghost predicate Proper(op: Op, cfg: Config)
  {
    match op
    case Allocate(q) => Legal(q) && Safe(q, cfg.pub)
    case Grow(k, n) => n > 0
    case AllocateSmall(c) => c < |cfg.blocks|
    case _ => true
  }

  predicate Frees(c: Client, k: nat, from: nat, n: nat)
  {
    k < |c.pages| && n > 0 && from + n <= c.pages[k].pages
  }

  /** What the client has after an operation, given its outcome. */
  function After(c: Client, op: Op, r: Outcome): Client
  {
    match op
    case Allocate(q) => if r.Granted? then c.(pages := [PageFree(r.offset, q.pages)] + c.pages) else c
    case Grow(k, n) =>
      if r.Grew? && k < |c.pages| then
        c.(pages := [PageFree(c.pages[k].offset, c.pages[k].pages + r.pages)] + Without(c.pages, k))
      else c
    case Free(k, from, n, _) => if r.Done? && Frees(c, k, from, n) then c.(pages := Cut(c.pages, k, from, n)) else c
    case AllocateSmall(_) => if r.Handed? then c.(small := [(r.slab, r.id)] + c.small) else c
    case FreeSmall(k, _) => if r.Done? && k < |c.small| then c.(small := Without(c.small, k)) else c
    case Merge => c
  }

  /** What the client has after a run. */
  function Replay(ops: seq<Op>, outcomes: seq<Outcome>): Client
    requires |ops| == |outcomes|
  {
    if ops == [] then Client([], [])
    else
      var k := |ops| - 1;
      After(Replay(ops[..k], outcomes[..k]), ops[k], outcomes[k])
  }

  /** The client and the allocator, as plain blocks, between operations. */
  datatype Moment = Moment(client: Client, space: Space)

  ghost function Snap(space: LocalSpace, client: Client): Moment
    reads space, space.pages, space.pool, space.Repr()
  {
    Moment(client, space.Shown())
  }

  ghost function FreeIn(m: Moment): set<nat>
  {
    PendingPages(m.space.image.heap)
  }

  ghost function BatchedIn(m: Moment): set<nat>
  {
    PendingPages(m.space.image.batch)
  }

  ghost predicate HeapInOrder(m: Moment)
  {
    P.InOrder(m.space.image.heap)
  }

  /** Every slab with a free block is in the list of its class. */
  ghost predicate AllListed(m: Moment)
  {
    S.Listed(m.space.pool)
  }

  /** The class has no list, though a slab of it will have a free block once what waits is drained. */
  ghost predicate Overtaken(m: Moment, c: nat)
  {
    var p := m.space.pool;
    c < |p.heads| && p.heads[c] == NIL && LocalSpaces.Frees(p.size, m.space.remoteSlab, c)
  }

  ghost predicate Begins(m: Moment, cfg: Config)
  {
    m == Moment(Client([], []), NewSpace(cfg)) && HeapInOrder(m) && AllListed(m)
  }

  /** The pages that no client holds and no slab occupies. */
  ghost function Unheld(client: Client, slabs: map<nat, nat>, cfg: Config): set<nat>
  {
    Blocks.Run(0, cfg.pub) - PendingPages(client.pages) - LodgedPages(slabs, cfg.slabPages)
  }

  // ---------- what each operation does ----------

  /** The outcome of an operation and what it makes of the space. */
  datatype Result = Result(outcome: Outcome, effect: Effect)

  function Unmoved(m: Moment, r: Outcome): Result
  {
    Result(r, Effect(m.space, 0, false))
  }

  /** What an operation comes to; `node` is the node that a new slab gets, if one is opened. */
  ghost function Next(cfg: Config, m: Moment, op: Op, node: nat): Result
  {
    var (c, w) := (m.client, m.space);
    match op
    case Allocate(q) =>
      var g := Allocated(cfg, w, q);
      Result(if g.offset.Some? then Granted(g.offset.value) else Refused, g.effect)
    case Grow(k, n) =>
      if k < |c.pages| then
        var g := Reserved(cfg, w, c.pages[k].offset + c.pages[k].pages, n);
        Result(Grew(if g.offset.Some? then n else 0), g.effect)
      else Unmoved(m, Skipped)
    case Free(k, from, n, elsewhere) =>
      if !Frees(c, k, from, n) then Unmoved(m, Skipped)
      else
        var x := PageFree(c.pages[k].offset + from, n);
        if elsewhere then Result(Done, Effect(w.(remotePage := [x] + w.remotePage), 0, false))
        else Result(Done, Deallocated(cfg, w, x.offset, n))
    case AllocateSmall(class_) =>
      var h := SlabAllocated(cfg, w, class_, node);
      Result(if h.block.Some? then Handed(h.block.value.0, h.block.value.1) else Refused, h.effect)
    case FreeSmall(k, elsewhere) =>
      if k >= |c.small| then Unmoved(m, Skipped)
      else if elsewhere then Result(Done, Effect(w.(remoteSlab := [c.small[k]] + w.remoteSlab), 0, false))
      else Result(Done, BlockDeallocated(cfg, w, c.small[k].0, c.small[k].1))
    case Merge => Result(Done, Merged(w))
  }

  ghost function NodeOf(r: Outcome): nat
  {
    if r.Handed? then r.slab else 0
  }

  /** An erasure on the way is hazardous. */
  ghost predicate Risky(cfg: Config, m: Moment, op: Op)
  {
    Next(cfg, m, op, 0).effect.hazard
  }

  /** Draining what waits would fill the batch exactly, and so leave it empty. */
  ghost predicate Empties(cfg: Config, m: Moment)
  {
    Emptied(|m.space.image.batch|, |Entries(cfg, m.space)|, cfg.buffer)
  }

  // ---------- what each operation may do ----------

  ghost predicate AllocateFollows(cfg: Config, m: Moment, q: Request, r: Outcome, m': Moment)
  {
    && (Unanswerable(q, FreeIn(m)) && Empties(cfg, m) ==> r == Refused)
    && (Unanswerable(q, FreeIn(m)) ==> Quiet(m'.space) && m'.space.image.batch == [])
    && (HeapInOrder(m) && !Unanswerable(q, FreeIn(m)) ==> r.Granted? && Untouched(m.space, m'.space))
    && match r
       case Granted(o) =>
         && Answers(q, o, Unheld(m.client, m'.space.slabs, cfg))
         && TakenFrom(q, o, FreeIn(m') + Blocks.Run(o, q.pages), HeapInOrder(m) && !Risky(cfg, m, Allocate(q)))
       case Refused =>
         HeapInOrder(m) && !Risky(cfg, m, Allocate(q)) && !Empties(cfg, m) ==>
           Unanswerable(q, Unheld(m.client, m'.space.slabs, cfg))
       case _ => false
  }

  /** The batch as it would be if everything that waits joined it and it were never merged. */
  ghost function Joining(cfg: Config, m: Moment): seq<PageFree>
  {
    m.space.image.batch + Entries(cfg, m.space)
  }

  /** There is room to grow: free pages, or pages that a drain and a merge would free, if the smallest and
      largest offset of what the drain leaves in the batch give reason to merge. */
  ghost predicate Room(cfg: Config, m: Moment, end: nat, n: nat)
  {
    || Blocks.Run(end, n) <= FreeIn(m)
    || (cfg.buffer > 0 && P.Straddles(P.Leftover(Joining(cfg, m), cfg.buffer), end)
        && Blocks.Run(end, n) <= FreeIn(m) + PendingPages(Joining(cfg, m)))
  }

  /** As long as what waits does not fill the batch, all of it counts. */
  lemma RoomUnfilled(cfg: Config, m: Moment, end: nat, n: nat)
    requires |m.space.image.batch| + |Entries(cfg, m.space)| < cfg.buffer
    ensures Room(cfg, m, end, n) <==>
      || Blocks.Run(end, n) <= FreeIn(m)
      || (P.Straddles(m.space.image.batch + Entries(cfg, m.space), end)
          && Blocks.Run(end, n) <= FreeIn(m) + BatchedIn(m) + PendingPages(Entries(cfg, m.space)))
  {
    hide Entries, P.Straddles, P.Leftover, PendingPages, Blocks.Run, FreeIn;
    P.LeftoverFew(Joining(cfg, m), cfg.buffer);
    PendingBoth(m.space.image.batch, Entries(cfg, m.space));
    assert FreeIn(m) + (BatchedIn(m) + PendingPages(Entries(cfg, m.space)))
        == FreeIn(m) + BatchedIn(m) + PendingPages(Entries(cfg, m.space));
  }

  ghost predicate GrowFollows(cfg: Config, m: Moment, k: nat, n: nat, r: Outcome, m': Moment)
  {
    if k < |m.client.pages| then
      var end := m.client.pages[k].offset + m.client.pages[k].pages;
      && r.Grew? && (r.pages == 0 || r.pages == n)
      && Blocks.Run(end, r.pages) <= Unheld(m.client, m'.space.slabs, cfg)
      && (r.pages == n <==> Room(cfg, m, end, n))
      && (if Blocks.Run(end, n) <= FreeIn(m) then Untouched(m.space, m'.space) else Quiet(m'.space))
    else
      r == Skipped
  }

  /** A new slab lies where it belongs in a maximal run of free pages and hands out its block 0; another hands
      out the block that is due. */
  ghost predicate HandsDue(cfg: Config, m: Moment, c: nat, s: nat, b: nat, m': Moment)
  {
    if HasList(m.space, c) then S.TakesDue(m.space.pool, m'.space.pool, cfg.blocks, s, b)
    else
      && b == 0 && s in m'.space.slabs
      && TakenFrom(SlabOf(cfg), m'.space.slabs[s], FreeIn(m') + Blocks.Run(m'.space.slabs[s], cfg.slabPages),
                   HeapInOrder(m) && !Risky(cfg, m, AllocateSmall(c)))
  }

  /** A class with a list touches only the pool; another takes back all that waits and leaves a small batch. */
  ghost predicate SmallTouches(cfg: Config, m: Moment, c: nat, m': Moment)
  {
    if HasList(m.space, c) then m'.space == m.space.(pool := m'.space.pool)
    else Quiet(m'.space) && P.Total(m'.space.image.batch) < cfg.buffer
  }

  ghost predicate SmallFollows(cfg: Config, m: Moment, c: nat, r: Outcome, m': Moment)
  {
    && (AllListed(m) ==> (AllListed(m') <==> !(r.Handed? && Overtaken(m, c))))
    && (if HasList(m.space, c) then m'.space.slabs == m.space.slabs
        else if r.Handed? then OneMore(m.space.slabs, m'.space.slabs)
        else Fewer(m.space.slabs, m'.space.slabs))
    && SmallTouches(cfg, m, c, m')
    && match r
       case Handed(s, b) =>
         && (s, b) !in m.client.small && s in m'.space.slabs && c < |cfg.blocks| && b < cfg.blocks[c]
         && HandsDue(cfg, m, c, s, b, m')
       case Refused =>
         && !HasList(m.space, c) && Sought(cfg, m.space).offset == None
         && (AllListed(m) ==> (HasList(m'.space, c) <==> Overtaken(m, c)))
         && (HeapInOrder(m) && !Risky(cfg, m, AllocateSmall(c)) ==>
               Unanswerable(SlabOf(cfg), Unheld(m.client, m'.space.slabs, cfg)))
       case _ => false
  }

  /** No erasure can be hazardous: no merge takes place, or it fills no gap. */
  ghost predicate Calm(m: Moment, op: Op, m': Moment)
  {
    match op
    case Free(k, from, n, elsewhere) =>
      elsewhere || !Frees(m.client, k, from, n)
      || (Quiet(m.space)
          && !FillsGap(FreeIn(m), BatchedIn(m) + Blocks.Run(m.client.pages[k].offset + from, n)))
    case FreeSmall(k, elsewhere) =>
      elsewhere || k >= |m.client.small|
      || (Quiet(m.space) && m'.space.slabs == m.space.slabs && !FillsGap(FreeIn(m), BatchedIn(m)))
    case Merge => !FillsGap(FreeIn(m), BatchedIn(m))
    case _ => Quiet(m.space) && !FillsGap(FreeIn(m), BatchedIn(m))
  }

  ghost predicate OpFollows(cfg: Config, m: Moment, op: Op, r: Outcome, m': Moment)
  {
    match op
    case Allocate(q) => AllocateFollows(cfg, m, q, r, m')
    case Grow(k, n) => GrowFollows(cfg, m, k, n, r, m')
    case Free(k, from, n, _) => r == if Frees(m.client, k, from, n) then Done else Skipped
    case AllocateSmall(c) => SmallFollows(cfg, m, c, r, m')
    case FreeSmall(k, _) => r == if k < |m.client.small| then Done else Skipped
    case Merge =>
      r == Done && (|m.space.image.batch| == 1 && HeapInOrder(m) ==> (HeapInOrder(m') <==> !Risky(cfg, m, op)))
  }

  /** One step of a client and the allocator: what it comes to, and what is to be expected of that. */
  ghost predicate Follows(cfg: Config, m: Moment, op: Op, r: Outcome, m': Moment)
  {
    && r == Next(cfg, m, op, NodeOf(r)).outcome && m'.space == Next(cfg, m, op, NodeOf(r)).effect.space
    && m'.client == After(m.client, op, r)
    && (HeapInOrder(m) && !Risky(cfg, m, op) ==> HeapInOrder(m')) && (Calm(m, op, m') ==> !Risky(cfg, m, op))
    && Stay(Named(m.client.small) * Named(m'.client.small), m.space.slabs, m'.space.slabs)
    && (!op.AllocateSmall? ==> Fewer(m.space.slabs, m'.space.slabs) && (AllListed(m) ==> AllListed(m')))
    && OpFollows(cfg, m, op, r, m')
  }

  /** Every page is free, batched, waiting, the client's or in a slab, and there is room in the batch. */
  ghost predicate Conserved(cfg: Config, m: Moment)
  {
    && FreeIn(m) + BatchedIn(m) + PendingPages(m.space.remotePage) + PendingPages(m.client.pages)
       + LodgedPages(m.space.slabs, cfg.slabPages) == Blocks.Run(0, cfg.pub)
    && |m.space.image.batch| < cfg.buffer
  }

  /** What the pool has handed out is the client's or waits to be drained, each block once. */
  ghost predicate HandedOut(cfg: Config, m: Moment)
  {
    var (p, waiting) := (m.space.pool, m.space.remoteSlab);
    && S.Sturdy(p, cfg.blocks) && p.slabs == m.space.slabs.Keys
    && Waiting(waiting, S.Live(p, cfg.blocks))
    && S.Live(p, cfg.blocks) - Named(waiting) == Named(m.client.small)
  }

  /** At every moment the client's page blocks and the slabs lie apart from each other and from the
      free and batched pages; slabs are aligned, and a small block in use belongs to one. */
  ghost predicate Settled(cfg: Config, m: Moment)
  {
    var (free, batched, slabs) := (FreeIn(m), BatchedIn(m), m.space.slabs);
    && Queued(m.client.pages, Blocks.Run(0, cfg.pub) - free - batched - LodgedPages(slabs, cfg.slabPages), cfg.pub)
    && Lodged(slabs, cfg.slabPages, Blocks.Run(0, cfg.pub) - free - batched - PendingPages(m.client.pages), cfg.pub)
    && cfg.slabPages > 0 && Aligned(slabs, cfg.base, cfg.slabPages) && free !! batched
    && Waiting(m.client.small, Named(m.client.small)) && (forall b :: b in m.client.small ==> b.0 in slabs)
    && Conserved(cfg, m) && HandedOut(cfg, m)
  }

  /** A run, moment by moment. */
  ghost predicate Trace(cfg: Config, ops: seq<Op>, outcomes: seq<Outcome>, moments: seq<Moment>)
  {
    && |outcomes| == |ops| && |moments| == |ops| + 1
    && Begins(moments[0], cfg) && (forall i :: 0 <= i <= |ops| ==> Settled(cfg, moments[i]))
    && forall i :: 0 <= i < |ops| ==> Follows(cfg, moments[i], ops[i], outcomes[i], moments[i + 1])
  }

  // ---------- what holds of every run ----------

  /** The client's blocks are what the outcomes say. */
  lemma {:induction false} TraceReplays(cfg: Config, ops: seq<Op>, outcomes: seq<Outcome>, moments: seq<Moment>, i: nat)
    requires Trace(cfg, ops, outcomes, moments) && i <= |ops|
    ensures moments[i].client == Replay(ops[..i], outcomes[..i])
  {
    hide Follows, Settled, Begins, After;
    if i == 0 {
      BeginsEmpty(moments[0], cfg);
    } else {
      TraceReplays(cfg, ops, outcomes, moments, i - 1);
      assert ops[..i][..i - 1] == ops[..i - 1] && outcomes[..i][..i - 1] == outcomes[..i - 1];
      FollowsAfter(cfg, moments[i - 1], ops[i - 1], outcomes[i - 1], moments[i]);
    }
  }

  lemma BeginsEmpty(m: Moment, cfg: Config)
    requires Begins(m, cfg)
    ensures m.client == Client([], []) && HeapInOrder(m) && AllListed(m)
  {
    hide HeapInOrder, AllListed;
  }

  lemma FollowsAfter(cfg: Config, m: Moment, op: Op, r: Outcome, m': Moment)
    requires Follows(cfg, m, op, r, m')
    ensures m'.client == After(m.client, op, r) && (HeapInOrder(m) && !Risky(cfg, m, op) ==> HeapInOrder(m'))
    ensures Calm(m, op, m') ==> !Risky(cfg, m, op)
    ensures m'.space == Next(cfg, m, op, NodeOf(r)).effect.space && r == Next(cfg, m, op, NodeOf(r)).outcome
  {
    hide HeapInOrder, AllListed, Next, Calm;
  }

  /** Operations and the nodes of new slabs determine the run: every outcome and every moment. */
  lemma {:induction false} TraceDetermined(cfg: Config, ops: seq<Op>, a: seq<Outcome>, b: seq<Outcome>,
                                           m: seq<Moment>, n: seq<Moment>, i: nat)
    requires Trace(cfg, ops, a, m) && Trace(cfg, ops, b, n) && i <= |ops|
    requires forall k :: 0 <= k < |ops| ==> NodeOf(a[k]) == NodeOf(b[k])
    ensures a[..i] == b[..i] && m[..i + 1] == n[..i + 1]
  {
    hide Follows, Settled, Next, NodeOf, NewSpace, HeapInOrder, AllListed;
    if i > 0 {
      TraceDetermined(cfg, ops, a, b, m, n, i - 1);
      assert m[..i][i - 1] == m[i - 1] && n[..i][i - 1] == n[i - 1];
      FollowsAfter(cfg, m[i - 1], ops[i - 1], a[i - 1], m[i]);
      FollowsAfter(cfg, n[i - 1], ops[i - 1], b[i - 1], n[i]);
      FollowsClient(cfg, m[i - 1], ops[i - 1], a[i - 1], m[i]);
      FollowsClient(cfg, n[i - 1], ops[i - 1], b[i - 1], n[i]);
      assert a[..i] == a[..i - 1] + [a[i - 1]] && b[..i] == b[..i - 1] + [b[i - 1]];
      assert m[..i + 1] == m[..i] + [m[i]] && n[..i + 1] == n[..i] + [n[i]];
    }
  }

  lemma FollowsClient(cfg: Config, m: Moment, op: Op, r: Outcome, m': Moment)
    requires Follows(cfg, m, op, r, m')
    ensures var x := Next(cfg, m, op, NodeOf(r)); m' == Moment(After(m.client, op, x.outcome), x.effect.space)
  {
    FollowsAfter(cfg, m, op, r, m');
    hide *;
  }

  /** None of the first `i` operations meets a hazard. */
  ghost predicate Riskless(cfg: Config, ops: seq<Op>, moments: seq<Moment>, i: nat)
    requires i <= |ops| && i <= |moments|
  {
    forall k :: 0 <= k < i ==> !Risky(cfg, moments[k], ops[k])
  }

  lemma {:induction false} StaysOrdered(cfg: Config, ops: seq<Op>, outcomes: seq<Outcome>, moments: seq<Moment>, i: nat)
    requires Trace(cfg, ops, outcomes, moments) && i <= |ops| && Riskless(cfg, ops, moments, i)
    ensures HeapInOrder(moments[i])
  {
    hide Follows, Settled, Begins, After, HeapInOrder, Risky;
    if i == 0 {
      BeginsEmpty(moments[0], cfg);
    } else {
      StaysOrdered(cfg, ops, outcomes, moments, i - 1);
      FollowsAfter(cfg, moments[i - 1], ops[i - 1], outcomes[i - 1], moments[i]);
    }
  }

  /** A run in which no operation merges a stretch that fills a gap meets no hazard. */
  lemma CalmRiskless(cfg: Config, ops: seq<Op>, outcomes: seq<Outcome>, moments: seq<Moment>, i: nat)
    requires Trace(cfg, ops, outcomes, moments) && i <= |ops|
    requires forall k :: 0 <= k < i ==> Calm(moments[k], ops[k], moments[k + 1])
    ensures Riskless(cfg, ops, moments, i) && HeapInOrder(moments[i])
  {
    hide Follows, Settled, Begins, After, HeapInOrder, Risky, Calm;
    forall k | 0 <= k < i ensures !Risky(cfg, moments[k], ops[k]) {
      assert Calm(moments[k], ops[k], moments[k + 1]);
      FollowsAfter(cfg, moments[k], ops[k], outcomes[k], moments[k + 1]);
    }
    StaysOrdered(cfg, ops, outcomes, moments, i);
  }

  lemma RefusalJustified(cfg: Config, m: Moment, op: Op, m': Moment)
    requires Follows(cfg, m, op, Refused, m') && HeapInOrder(m) && !Risky(cfg, m, op)
    ensures match op
      case Allocate(q) => Empties(cfg, m) || Unanswerable(q, Unheld(m.client, m'.space.slabs, cfg))
      case AllocateSmall(c) => Unanswerable(SlabOf(cfg), Unheld(m.client, m'.space.slabs, cfg))
      case _ => false
  {
    hide Stay, Fewer, Unheld, Unanswerable, Empties, After, Risky, HeapInOrder, AllListed, Next, Calm,
        OneMore, HasList, Overtaken;
  }

  /** Over any run without a hazardous erasure every refusal of pages is justified, but for those in
      which draining what waits fills the batch exactly: no aligned run of that many pages is outside
      the client's blocks and the slabs. */
  lemma RefusalsJustified(cfg: Config, ops: seq<Op>, outcomes: seq<Outcome>, moments: seq<Moment>, i: nat)
    requires Trace(cfg, ops, outcomes, moments) && i < |ops| && Riskless(cfg, ops, moments, i + 1)
    requires outcomes[i] == Refused
    ensures match ops[i]
      case Allocate(q) =>
        Empties(cfg, moments[i])
        || Unanswerable(q, Unheld(Replay(ops[..i], outcomes[..i]), moments[i + 1].space.slabs, cfg))
      case AllocateSmall(c) =>
        Unanswerable(SlabOf(cfg), Unheld(Replay(ops[..i], outcomes[..i]), moments[i + 1].space.slabs, cfg))
      case _ => false
  {
    hide Settled, Begins, Follows, Unheld, Unanswerable, Empties, Replay, Risky, HeapInOrder;
    TraceReplays(cfg, ops, outcomes, moments, i);
    StaysOrdered(cfg, ops, outcomes, moments, i);
    RefusalJustified(cfg, moments[i], ops[i], moments[i + 1]);
  }

  /** A free by the owner's thread takes back all that waits.  Its pages join what that leaves of the batch,
      which is merged as soon as it has as many pages as it can have entries. */
  lemma FreeJoinsBatch(cfg: Config, m: Moment, k: nat, from: nat, n: nat, m': Moment)
    requires Conserved(cfg, m) && Frees(m.client, k, from, n)
    requires m'.space == Next(cfg, m, Free(k, from, n, false), 0).effect.space
    ensures Quiet(m'.space)
    ensures cfg.buffer > 0 && m'.space.image.batch
      == var b := P.Leftover(Joining(cfg, m), cfg.buffer) + [PageFree(m.client.pages[k].offset + from, n)];
         if P.Total(b) < cfg.buffer then b else []
  {
    hide Allocated, Reserved, BlockDeallocated, SlabAllocated, S.AllReturned, P.JoinAll, P.Merged, P.Leftover, P.Total;
    hide SlabBlocks, Members, PendingPages, Blocks.Run;
    P.JoinLeaves(m.space.image, Entries(cfg, m.space), cfg.buffer);
  }

  /** Over any run, what such a free leaves batched; when it leaves nothing, all pages that no client holds and
      no slab occupies are free. */
  lemma FreesBatched(cfg: Config, ops: seq<Op>, outcomes: seq<Outcome>, moments: seq<Moment>, i: nat)
    requires Trace(cfg, ops, outcomes, moments) && i < |ops| && ops[i].Free? && !ops[i].elsewhere
    requires outcomes[i] == Done && cfg.buffer > 0
    ensures var (m, m', k) := (moments[i], moments[i + 1], ops[i].block);
      && Quiet(m'.space) && k < |m.client.pages|
      && m'.space.image.batch
         == (var b := P.Leftover(Joining(cfg, m), cfg.buffer)
                      + [PageFree(m.client.pages[k].offset + ops[i].from, ops[i].pages)];
             if P.Total(b) < cfg.buffer then b else [])
      && (m'.space.image.batch == [] ==> FreeIn(m') == Unheld(m'.client, m'.space.slabs, cfg))
  {
    hide Begins, Follows, Settled, Conserved, Joining, P.Leftover, P.Total, FreeIn, Unheld, Frees, Next;
    var (m, m', op) := (moments[i], moments[i + 1], ops[i]);
    FollowsFree(cfg, m, op, m');
    SettledConserves(cfg, m);
    FreesHas(m.client, op.block, op.from, op.pages);
    FreeJoinsBatch(cfg, m, op.block, op.from, op.pages, m');
    if m'.space.image.batch == [] { NothingElse(cfg, m'); }
  }

  lemma SettledConserves(cfg: Config, m: Moment)
    requires Settled(cfg, m)
    ensures Conserved(cfg, m)
  {
    hide Conserved, HandedOut, Queued, Lodged, Aligned, Waiting, Named, LodgedPages, PendingPages, Blocks.Run;
  }

  lemma FreesHas(c: Client, k: nat, from: nat, n: nat)
    requires Frees(c, k, from, n)
    ensures k < |c.pages|
  {
  }

  lemma FollowsFree(cfg: Config, m: Moment, op: Op, m': Moment)
    requires Follows(cfg, m, op, Done, m') && op.Free? && !op.elsewhere
    ensures Frees(m.client, op.block, op.from, op.pages)
    ensures m'.space == Next(cfg, m, Free(op.block, op.from, op.pages, false), 0).effect.space
  {
    hide HeapInOrder, AllListed, Next, Calm, Risky, Stay, Fewer;
  }

  /** With nothing batched or waiting, pages that are not the client's or in a slab are free. */
  lemma NothingElse(cfg: Config, m: Moment)
    requires Settled(cfg, m) && Quiet(m.space) && m.space.image.batch == []
    ensures FreeIn(m) == Unheld(m.client, m.space.slabs, cfg)
  {
    hide Aligned, HandedOut, Blocks.Run, LodgedPages, Waiting, Named, PendingPages;
    NonePending();
    assert BatchedIn(m) == {};
    FreeApart(cfg, m);
  }

  lemma FreeApart(cfg: Config, m: Moment)
    requires Settled(cfg, m)
    ensures FreeIn(m) !! PendingPages(m.client.pages) && FreeIn(m) !! LodgedPages(m.space.slabs, cfg.slabPages)
  {
    hide Aligned, HandedOut, Conserved, Blocks.Run, Waiting, Named, PendingPages;
    PendingUsed(m.client.pages, Blocks.Run(0, cfg.pub) - FreeIn(m) - BatchedIn(m)
                - LodgedPages(m.space.slabs, cfg.slabPages), cfg.pub);
    LodgedUsed(m.space.slabs, cfg.slabPages, Blocks.Run(0, cfg.pub) - FreeIn(m) - BatchedIn(m)
               - PendingPages(m.client.pages), cfg.pub);
  }

  /** What is granted or grown meets no block of the client. */
  ghost predicate Apart(cfg: Config, c: Client, op: Op, r: Outcome)
  {
    match (op, r)
    case (Allocate(q), Granted(o)) =>
      && Blocks.Run(o, q.pages) !! PendingPages(c.pages)
      && (q.align > 1 ==> (q.base + o) % q.align == 0) && Blocks.Run(o, q.pages) <= Blocks.Run(0, cfg.pub)
    case (Grow(k, n), Grew(g)) =>
      && k < |c.pages| && (g == 0 || g == n)
      && Blocks.Run(c.pages[k].offset + c.pages[k].pages, g) !! PendingPages(c.pages)
    case (AllocateSmall(_), Handed(s, b)) => (s, b) !in c.small
    case _ => true
  }

  lemma FollowsApart(cfg: Config, m: Moment, op: Op, r: Outcome, m': Moment)
    requires Follows(cfg, m, op, r, m')
    ensures Apart(cfg, m.client, op, r)
  {
    hide Stay, Fewer, Unanswerable, Empties, After, Blocks.Run, PendingPages, Risky, HeapInOrder, Calm, TakenFrom;
    hide AllListed, Next, OneMore, HasList, Overtaken, Room, LodgedPages;
  }

  lemma GrantsApart(cfg: Config, ops: seq<Op>, outcomes: seq<Outcome>, moments: seq<Moment>, i: nat)
    requires Trace(cfg, ops, outcomes, moments) && i < |ops|
    ensures Apart(cfg, Replay(ops[..i], outcomes[..i]), ops[i], outcomes[i])
  {
    hide Settled, Begins, Follows, Apart, Replay;
    TraceReplays(cfg, ops, outcomes, moments, i);
    FollowsApart(cfg, moments[i], ops[i], outcomes[i], moments[i + 1]);
  }

  lemma FollowsPlaced(cfg: Config, m: Moment, q: Request, o: nat, m': Moment)
    requires Follows(cfg, m, Allocate(q), Granted(o), m')
    ensures TakenFrom(q, o, FreeIn(m') + Blocks.Run(o, q.pages), HeapInOrder(m) && !Risky(cfg, m, Allocate(q)))
  {
    hide Stay, Fewer, Unanswerable, Empties, After, Blocks.Run, PendingPages, Risky, HeapInOrder, Calm, TakenFrom;
    hide AllListed, Next, OneMore, HasList, Overtaken, Room, LodgedPages;
  }

  /** Whatever is granted lies where it belongs in a maximal run of free pages: in the middle of it, or at the
      aligned page next to the middle.  Up to the first hazard that is a longest run with room for the request. */
  lemma GrantsPlaced(cfg: Config, ops: seq<Op>, outcomes: seq<Outcome>, moments: seq<Moment>, i: nat)
    requires Trace(cfg, ops, outcomes, moments) && i < |ops| && ops[i].Allocate? && outcomes[i].Granted?
    ensures var (q, o) := (ops[i].request, outcomes[i].offset);
      TakenFrom(q, o, FreeIn(moments[i + 1]) + Blocks.Run(o, q.pages), Riskless(cfg, ops, moments, i + 1))
  {
    hide Settled, Begins, Follows, TakenFrom, Risky, HeapInOrder;
    var (q, o) := (ops[i].request, outcomes[i].offset);
    FollowsPlaced(cfg, moments[i], q, o, moments[i + 1]);
    if Riskless(cfg, ops, moments, i + 1) { StaysOrdered(cfg, ops, outcomes, moments, i); }
    BelongsStill(q, o, FreeIn(moments[i + 1]) + Blocks.Run(o, q.pages),
                 HeapInOrder(moments[i]) && !Risky(cfg, moments[i], ops[i]), Riskless(cfg, ops, moments, i + 1));
  }

  /** A slab block is handed out from a new slab although its class is about to get a list. */
  ghost predicate Overtakes(op: Op, r: Outcome, m: Moment)
  {
    op.AllocateSmall? && r.Handed? && Overtaken(m, op.class_)
  }

  lemma FollowsListed(cfg: Config, m: Moment, op: Op, r: Outcome, m': Moment)
    requires Follows(cfg, m, op, r, m') && AllListed(m)
    ensures AllListed(m') <==> !Overtakes(op, r, m)
  {
    hide Stay, Fewer, Unheld, Unanswerable, After, Next, Risky, HeapInOrder, AllListed, Overtaken, OneMore;
  }

  /** Every slab with a free block is in the list of its class up to the first allocation that
      overtakes a list, and not after that one. */
  lemma {:induction false} ListedUntilOvertaken(cfg: Config, ops: seq<Op>, outcomes: seq<Outcome>, moments: seq<Moment>,
                                                i: nat)
    requires Trace(cfg, ops, outcomes, moments) && i <= |ops|
    requires forall k :: 0 <= k < i ==> !Overtakes(ops[k], outcomes[k], moments[k])
    ensures AllListed(moments[i])
    ensures i < |ops| && Overtakes(ops[i], outcomes[i], moments[i]) ==> !AllListed(moments[i + 1])
  {
    hide Follows, Settled, Begins, Overtakes, AllListed;
    if i == 0 {
      BeginsEmpty(moments[0], cfg);
    } else {
      ListedUntilOvertaken(cfg, ops, outcomes, moments, i - 1);
      FollowsListed(cfg, moments[i - 1], ops[i - 1], outcomes[i - 1], moments[i]);
    }
    if i < |ops| { FollowsListed(cfg, moments[i], ops[i], outcomes[i], moments[i + 1]); }
  }

  // ---------- carrying out a run ----------

  /** The client's blocks are exactly what is in use. */
  ghost predicate Accounted(space: LocalSpace, cfg: Config, client: Client)
    reads space, space.pages, space.Repr()
  {
    && space.Valid() && space.Cfg() == cfg
    && Covered(client.pages, space.LivePages(), cfg.pub)
    && Named(client.small) == space.LiveBlocks() && Waiting(client.small, space.LiveBlocks())
  }

  /** The pages outside live blocks and slabs are those that the client does not hold. */
  lemma UnusedIsUnheld(space: LocalSpace, cfg: Config, client: Client)
    requires Accounted(space, cfg, client)
    ensures space.Unused(space.LivePages()) == Unheld(client, space.pages.slabs, cfg)
  {
    hide LocalSpace.Valid, LocalSpace.LivePages, LocalSpace.LiveBlocks, Queued, PendingPages, Blocks.Run, LodgedPages;
  }

  lemma AccountedSettled(space: LocalSpace, cfg: Config, client: Client)
    requires Accounted(space, cfg, client)
    ensures Settled(cfg, Snap(space, client))
  {
    hide LocalSpace.Valid, LocalSpace.LivePages, LocalSpace.LiveBlocks, Queued, PendingPages, Blocks.Run, LodgedPages;
    hide Lodged, Aligned, LocalSpace.Overtaken, Waiting, Named, LocalSpace.PlainPages, FreeIn, BatchedIn, Snap;
    hide Conserved, HandedOut;
    SnapMeans(space, client, 0);
    space.SlabsLodged();
    space.PagesPartition();
    space.BlocksInSlabs();
    var pages := space.pages;
    var all := Blocks.Run(0, cfg.pub);
    QueuedStill(client.pages, space.LivePages(), all - pages.FreePages() - pages.BatchedPages() - pages.SlabPages(),
        cfg.pub);
    LodgedStill(pages.slabs, cfg.slabPages, pages.UsedPages(),
                all - pages.FreePages() - pages.BatchedPages() - PendingPages(client.pages), cfg.pub);
    SameNames(client.small, space.LiveBlocks());
    AccountedConserved(space, cfg, client);
    AccountedBlocks(space, cfg, client);
  }

  lemma AccountedConserved(space: LocalSpace, cfg: Config, client: Client)
    requires Accounted(space, cfg, client)
    ensures Conserved(cfg, Snap(space, client))
  {
    hide LocalSpace.Valid, LocalSpace.LivePages, LocalSpace.LiveBlocks, Queued, PendingPages, Blocks.Run, LodgedPages;
    hide Waiting, Named, FreeIn, BatchedIn, AddressSpace.Image, S.SlabPool.Now, AddressSpace.FreePages;
    hide AddressSpace.BatchedPages;
    SnapMeans(space, client, 0);
    space.PagesPartition();
    space.ValidJoint();
  }

  lemma AccountedBlocks(space: LocalSpace, cfg: Config, client: Client)
    requires Accounted(space, cfg, client)
    ensures HandedOut(cfg, Snap(space, client))
  {
    hide LocalSpace.LivePages, Queued, PendingPages, Blocks.Run, LodgedPages, AddressSpace.Consistent, Legal, Aligned;
    hide Waiting, Named, AddressSpace.Image, S.Live, S.Sturdy, Covered;
  }

  lemma SameNames(small: seq<(nat, nat)>, live: set<(nat, nat)>)
    requires Named(small) == live && Waiting(small, live)
    ensures Waiting(small, Named(small)) && forall b :: b in small <==> b in live
  {
    assert forall b :: b in small <==> b in Named(small);
  }

  lemma BelowEnd(o: nat, n: nat, pub: nat)
    requires n > 0 && Blocks.Run(o, n) <= Blocks.Run(0, pub)
    ensures o + n <= pub
  {
    assert o + n - 1 in Blocks.Run(o, n);
  }

  lemma Positive(q: Request)
    requires Legal(q)
    ensures q.pages > 0
  {
  }

  /** A run of pages that answers a request joins the client's blocks. */
  lemma Holds(client: Client, q: Request, o: nat, live: set<nat>, slabs: map<nat, nat>, cfg: Config)
    requires Covered(client.pages, live, cfg.pub) && Legal(q)
    requires Answers(q, o, Blocks.Run(0, cfg.pub) - live - LodgedPages(slabs, cfg.slabPages))
    ensures Covered([PageFree(o, q.pages)] + client.pages, live + Blocks.Run(o, q.pages), cfg.pub)
    ensures Answers(q, o, Unheld(client, slabs, cfg))
  {
    hide Blocks.Run, LodgedPages, Queued;
    Positive(q);
    BelowEnd(o, q.pages, cfg.pub);
    hide Covered;
    Allot(client.pages, PageFree(o, q.pages), live, cfg.pub);
  }

  /** Blocks that stay in use stay where they are, as slabs only go. */
  lemma SmallStay(small: seq<(nat, nat)>, small': seq<(nat, nat)>, slabs: map<nat, nat>, slabs': map<nat, nat>)
    requires Fewer(slabs, slabs') && forall b :: b in small' ==> b.0 in slabs'
    ensures Stay(Named(small) * Named(small'), slabs, slabs')
  {
  }

  lemma NamesIn(small: seq<(nat, nat)>, live: set<(nat, nat)>, slabs: map<nat, nat>)
    requires Named(small) == live && forall b :: b in live ==> b.0 in slabs
    ensures forall b :: b in small ==> b.0 in slabs
  {
    assert forall b :: b in small ==> b in Named(small);
  }

  lemma StepFollows(cfg: Config, m: Moment, op: Op, r: Outcome, m': Moment)
    requires OpFollows(cfg, m, op, r, m') && m'.client == After(m.client, op, r)
    requires var x := Next(cfg, m, op, NodeOf(r)); r == x.outcome && m'.space == x.effect.space
    requires (HeapInOrder(m) && !Risky(cfg, m, op) ==> HeapInOrder(m')) && (Calm(m, op, m') ==> !Risky(cfg, m, op))
    requires Stay(Named(m.client.small) * Named(m'.client.small), m.space.slabs, m'.space.slabs)
    requires !op.AllocateSmall? ==> Fewer(m.space.slabs, m'.space.slabs) && (AllListed(m) ==> AllListed(m'))
    ensures Follows(cfg, m, op, r, m')
  {
    hide OpFollows, Next, Risky, Calm, HeapInOrder, AllListed, Stay, Fewer, Named, After;
  }

  method StepAllocate(space: LocalSpace, cfg: Config, client: Client, q: Request) returns (r: Outcome)
    requires Accounted(space, cfg, client) && Legal(q) && Safe(q, cfg.pub)
    modifies space.Repr()
    ensures space.Repr() == old(space.Repr()) && Accounted(space, cfg, After(client, Allocate(q), r))
    ensures Follows(cfg, old(Snap(space, client)), Allocate(q), r, Snap(space, After(client, Allocate(q), r)))
  {
    hide LocalSpace.Valid, LocalSpace.LivePages, LocalSpace.LiveBlocks, LocalSpace.Store, Queued, Blocks.Run,
        LodgedPages;
    hide Legal, Safe, Covered, Answers, Unanswerable, Unheld, Stay, Fewer, LocalSpace.Overtaken, Emptied, Waiting,
        Named, FreeIn, BatchedIn, HeapInOrder, AllListed, Overtaken, OneMore, Snap, P.InOrder;
    hide Allocated, Reserved, Deallocated, BlockDeallocated, SlabAllocated, Merged, Entries, P.Straddles, HasList;
    hide AddressSpace.FreePages, AddressSpace.BatchedPages, AddressSpace.HeapOrdered, S.Listed, S.SlabPool.Now,
        FillsGap;
    hide TakenFrom, Follows, Untouched, P.Take;
    SnapMeans(space, client, 0);
    ghost var m := Snap(space, client);
    ghost var slabs, live := space.pages.slabs, space.LivePages();
    space.BlocksInSlabs();
    AllocatedTouches(cfg, m.space, q);
    var o, entries, hazard := space.PageAllocate(q);
    r := if o.Some? then Granted(o.value) else Refused;
    if o.Some? {
      Holds(client, q, o.value, live, space.pages.slabs, cfg);
    } else {
      UnusedIsUnheld(space, cfg, client);
    }
    SnapMeans(space, After(client, Allocate(q), r), 0);
    space.BlocksInSlabs();
    NamesIn(client.small, space.LiveBlocks(), space.pages.slabs);
    SmallStay(client.small, client.small, slabs, space.pages.slabs);
    StepFollows(cfg, m, Allocate(q), r, Snap(space, After(client, Allocate(q), r)));
  }

  lemma GrowStepFollows(cfg: Config, m: Moment, k: nat, n: nat, g: Grant, r: Outcome, m': Moment)
    requires k < |m.client.pages|
    requires g == Reserved(cfg, m.space, m.client.pages[k].offset + m.client.pages[k].pages, n)
    requires r == Grew(if g.offset.Some? then n else 0) && m'.space == g.effect.space
    requires m'.client == After(m.client, Grow(k, n), r) && GrowFollows(cfg, m, k, n, r, m')
    requires HeapInOrder(m) && !g.effect.hazard ==> HeapInOrder(m')
    requires Quiet(m.space) && !FillsGap(FreeIn(m), BatchedIn(m)) ==> !g.effect.hazard
    requires Stay(Named(m.client.small) * Named(m'.client.small), m.space.slabs, m'.space.slabs)
    requires Fewer(m.space.slabs, m'.space.slabs) && (AllListed(m) ==> AllListed(m'))
    ensures Follows(cfg, m, Grow(k, n), r, m')
  {
    hide Reserved, GrowFollows, HeapInOrder, AllListed, Stay, Fewer, Named, After, FillsGap, FreeIn, BatchedIn, Quiet;
  }

  lemma SmallTouch(cfg: Config, m: Moment, c: nat, s: nat, m': Moment)
    requires cfg.buffer > 0 && m'.space == SlabAllocated(cfg, m.space, c, s).effect.space
    ensures SmallTouches(cfg, m, c, m')
  {
    SlabAllocatedTouches(cfg, m.space, c, s);
    hide SlabAllocated, HasList, P.Total;
  }

  lemma SmallStepFollows(cfg: Config, m: Moment, c: nat, h: Handing, r: Outcome, m': Moment)
    requires h == SlabAllocated(cfg, m.space, c, NodeOf(r)) && m'.space == h.effect.space
    requires r == if h.block.Some? then Handed(h.block.value.0, h.block.value.1) else Refused
    requires m'.client == After(m.client, AllocateSmall(c), r) && SmallFollows(cfg, m, c, r, m')
    requires HeapInOrder(m) && !h.effect.hazard ==> HeapInOrder(m')
    requires Quiet(m.space) && !FillsGap(FreeIn(m), BatchedIn(m)) ==> !h.effect.hazard
    requires Stay(Named(m.client.small) * Named(m'.client.small), m.space.slabs, m'.space.slabs)
    ensures Follows(cfg, m, AllocateSmall(c), r, m')
  {
    SameRisk(cfg, m.space, c, NodeOf(r));
    hide SlabAllocated, SmallFollows, HeapInOrder, AllListed, Stay, Fewer, Named, After, FillsGap, FreeIn, BatchedIn;
    hide Quiet, NodeOf;
  }

  /** A block grows by pages that are not in use. */
  lemma Grown(client: Client, k: nat, g: nat, live: set<nat>, slabs: map<nat, nat>, cfg: Config)
    requires Covered(client.pages, live, cfg.pub) && k < |client.pages|
    requires var end := client.pages[k].offset + client.pages[k].pages;
      Blocks.Run(end, g) <= Blocks.Run(0, cfg.pub) - live - LodgedPages(slabs, cfg.slabPages)
    ensures var b := client.pages[k];
      && Covered([PageFree(b.offset, b.pages + g)] + Without(client.pages, k),
                 live + Blocks.Run(b.offset + b.pages, g), cfg.pub)
      && Blocks.Run(b.offset + b.pages, g) <= Unheld(client, slabs, cfg)
  {
    hide Queued, Blocks.Run, LodgedPages;
    var b := client.pages[k];
    var r, more := PageFree(b.offset, b.pages + g), Blocks.Run(b.offset + b.pages, g);
    Retire(client.pages, k, live, cfg.pub);
    Blocks.RunSplit(b.offset, b.pages + g, b.pages);
    if g > 0 { BelowEnd(b.offset + b.pages, g, cfg.pub); }
    assert PagesOf(r) == PagesOf(b) + more;
    assert live - PagesOf(b) + PagesOf(r) == live + more;
    hide PagesOf, Covered;
    assert PagesOf(r) !! live - PagesOf(b);
    Allot(Without(client.pages, k), r, live - PagesOf(b), cfg.pub);
  }

  /** A block in use ends there. */
  lemma EndOfBlock(space: LocalSpace, cfg: Config, client: Client, k: nat)
    requires Accounted(space, cfg, client) && k < |client.pages|
    ensures space.Ends(client.pages[k].offset + client.pages[k].pages)
  {
    hide LocalSpace.Valid, LocalSpace.LivePages, LocalSpace.LiveBlocks, LodgedPages, Waiting, Named, LocalSpace.Stock;
    Retire(client.pages, k, space.LivePages(), cfg.pub);
    var b := client.pages[k];
    assert b.offset + b.pages - 1 in PagesOf(b);
  }

  /** What there is room for. */
  lemma RoomMeans(space: LocalSpace, cfg: Config, client: Client, o: nat, n: nat)
    requires Accounted(space, cfg, client)
    ensures Room(cfg, Snap(space, client), o, n) <==> space.Extends(o, n)
  {
    hide LocalSpace.Valid, AddressSpace.FreePages, AddressSpace.Image, Entries, P.Straddles, P.Leftover, PendingPages;
    hide LocalSpace.LivePages, LocalSpace.LiveBlocks, Covered, Waiting, Named, Blocks.Run, FreeIn;
    SnapMeans(space, client, o);
  }

  method StepGrow(space: LocalSpace, cfg: Config, client: Client, k: nat, n: nat) returns (r: Outcome)
    requires Accounted(space, cfg, client) && k < |client.pages| && n > 0
    modifies space.Repr()
    ensures space.Repr() == old(space.Repr()) && Accounted(space, cfg, After(client, Grow(k, n), r))
    ensures Follows(cfg, old(Snap(space, client)), Grow(k, n), r, Snap(space, After(client, Grow(k, n), r)))
  {
    hide LocalSpace.Valid, LocalSpace.LivePages, LocalSpace.LiveBlocks, LocalSpace.Store, Queued, Blocks.Run,
        LodgedPages;
    hide Legal, Safe, Covered, Answers, Unanswerable, Unheld, Stay, Fewer, LocalSpace.Overtaken, Emptied, Waiting,
        Named, FreeIn, BatchedIn, HeapInOrder, AllListed, Overtaken, OneMore, Snap, P.InOrder;
    hide Allocated, Reserved, Deallocated, BlockDeallocated, SlabAllocated, Merged, Entries, P.Straddles, HasList;
    hide AddressSpace.FreePages, AddressSpace.BatchedPages, AddressSpace.HeapOrdered, S.Listed, S.SlabPool.Now,
        FillsGap;
    hide Room, LocalSpace.Ends, LocalSpace.Extends;
    hide Follows, Untouched, P.TakeAt, Next, Calm, Risky;
    SnapMeans(space, client, client.pages[k].offset + client.pages[k].pages);
    ghost var m := Snap(space, client);
    ghost var slabs, live := space.pages.slabs, space.LivePages();
    EndOfBlock(space, cfg, client, k);
    RoomMeans(space, cfg, client, client.pages[k].offset + client.pages[k].pages, n);
    ReservedTouches(cfg, m.space, client.pages[k].offset + client.pages[k].pages, n);
    var g, entries, hazard := space.PageReserve(client.pages[k].offset + client.pages[k].pages, n);
    r := Grew(g);
    SnapMeans(space, After(client, Grow(k, n), r), 0);
    Grown(client, k, g, live, space.pages.slabs, cfg);
    space.BlocksInSlabs();
    NamesIn(client.small, space.LiveBlocks(), space.pages.slabs);
    SmallStay(client.small, client.small, slabs, space.pages.slabs);
    GrowStepFollows(cfg, m, k, n, Reserved(cfg, m.space, client.pages[k].offset + client.pages[k].pages, n), r,
                    Snap(space, After(client, Grow(k, n), r)));
  }

  lemma FreeStepFollows(cfg: Config, m: Moment, k: nat, from: nat, n: nat, e: Effect, m': Moment)
    requires Frees(m.client, k, from, n) && k < |m.client.pages|
    requires e == Deallocated(cfg, m.space, m.client.pages[k].offset + from, n) && m'.space == e.space
    requires m'.client == After(m.client, Free(k, from, n, false), Done)
    requires HeapInOrder(m) && !e.hazard ==> HeapInOrder(m')
    requires
      Quiet(m.space) && !FillsGap(FreeIn(m), BatchedIn(m) + Blocks.Run(m.client.pages[k].offset + from, n)) ==>
        !e.hazard
    requires Stay(Named(m.client.small) * Named(m'.client.small), m.space.slabs, m'.space.slabs)
    requires Fewer(m.space.slabs, m'.space.slabs) && (AllListed(m) ==> AllListed(m'))
    ensures Follows(cfg, m, Free(k, from, n, false), Done, m')
  {
    hide Deallocated, HeapInOrder, AllListed, Stay, Fewer, Named, After, FillsGap, FreeIn, BatchedIn, Quiet, Frees;
  }

  method StepFree(space: LocalSpace, cfg: Config, client: Client, k: nat, from: nat, n: nat) returns (r: Outcome)
    requires Accounted(space, cfg, client) && Frees(client, k, from, n)
    modifies space.Repr()
    ensures space.Repr() == old(space.Repr()) && Accounted(space, cfg, After(client, Free(k, from, n, false), r))
    ensures Follows(cfg, old(Snap(space, client)), Free(k, from, n, false), r,
                    Snap(space, After(client, Free(k, from, n, false), r)))
  {
    hide LocalSpace.Valid, LocalSpace.LivePages, LocalSpace.LiveBlocks, LocalSpace.Store, Queued, Blocks.Run,
        LodgedPages;
    hide Legal, Safe, Covered, Answers, Unanswerable, Unheld, Stay, Fewer, LocalSpace.Overtaken, Emptied, Waiting,
        Named, FreeIn, BatchedIn, HeapInOrder, AllListed, Overtaken, OneMore, Snap, P.InOrder;
    hide Allocated, Reserved, Deallocated, BlockDeallocated, SlabAllocated, Merged, Entries, P.Straddles, HasList;
    hide AddressSpace.FreePages, AddressSpace.BatchedPages, AddressSpace.HeapOrdered, S.Listed, S.SlabPool.Now,
        FillsGap;
    hide Follows, Next, Calm, Risky;
    SnapMeans(space, client, 0);
    ghost var m, slabs := Snap(space, client), space.pages.slabs;
    CutCovers(client.pages, k, from, n, space.LivePages(), cfg.pub);
    ghost var entries, hazard := space.Deallocate(client.pages[k].offset + from, n);
    r := Done;
    SnapMeans(space, After(client, Free(k, from, n, false), r), 0);
    space.BlocksInSlabs();
    NamesIn(client.small, space.LiveBlocks(), space.pages.slabs);
    SmallStay(client.small, client.small, slabs, space.pages.slabs);
    FreeStepFollows(cfg, m, k, from, n, Deallocated(cfg, m.space, client.pages[k].offset + from, n),
                    Snap(space, After(client, Free(k, from, n, false), r)));
  }

  method StepFreeElsewhere(space: LocalSpace, cfg: Config, client: Client, k: nat, from: nat, n: nat)
    returns (r: Outcome)
    requires Accounted(space, cfg, client) && Frees(client, k, from, n)
    modifies space.Repr()
    ensures space.Repr() == old(space.Repr()) && Accounted(space, cfg, After(client, Free(k, from, n, true), r))
    ensures Follows(cfg, old(Snap(space, client)), Free(k, from, n, true), r,
                    Snap(space, After(client, Free(k, from, n, true), r)))
  {
    hide LocalSpace.Valid, LocalSpace.LivePages, LocalSpace.LiveBlocks, LocalSpace.Store, Queued, Blocks.Run,
        LodgedPages;
    hide Legal, Safe, Covered, Answers, Unanswerable, Unheld, Stay, Fewer, LocalSpace.Overtaken, Emptied, Waiting,
        Named, FreeIn, BatchedIn, HeapInOrder, AllListed, Overtaken, OneMore, Snap, P.InOrder;
    hide Allocated, Reserved, Deallocated, BlockDeallocated, SlabAllocated, Merged, Entries, P.Straddles, HasList;
    hide AddressSpace.FreePages, AddressSpace.BatchedPages, AddressSpace.HeapOrdered, S.Listed, S.SlabPool.Now,
        FillsGap;
    hide Follows;
    SnapMeans(space, client, 0);
    ghost var m, slabs := Snap(space, client), space.pages.slabs;
    CutCovers(client.pages, k, from, n, space.LivePages(), cfg.pub);
    FewerAtFirst(slabs);
    space.FreePagesElsewhere(client.pages[k].offset + from, n);
    r := Done;
    SnapMeans(space, After(client, Free(k, from, n, true), r), 0);
    space.BlocksInSlabs();
    NamesIn(client.small, space.LiveBlocks(), space.pages.slabs);
    SmallStay(client.small, client.small, slabs, space.pages.slabs);
    StepFollows(cfg, m, Free(k, from, n, true), r, Snap(space, After(client, Free(k, from, n, true), r)));
  }

  /** What the plain blocks of a moment say of the space. */
  lemma SnapMeans(space: LocalSpace, client: Client, o: nat)
    requires space.Valid()
    ensures var m := Snap(space, client);
      && m.client == client && m.space == space.Shown() && m.space.slabs == space.pages.slabs
      && FreeIn(m) == space.pages.FreePages() && BatchedIn(m) == space.pages.BatchedPages()
      && (HeapInOrder(m) <==> space.pages.HeapOrdered()) && (AllListed(m) <==> space.pool.AllListed())
      && (Quiet(m.space) <==> space.Quiet()) && |m.space.image.batch| == space.pages.batchSize
      && (P.Straddles(m.space.image.batch, o) <==>
            space.pages.batchSize > 0 && space.pages.batchMin <= o <= space.pages.batchMax)
  {
    hide LocalSpace.Valid, AddressSpace.FreePages, AddressSpace.BatchedPages, AddressSpace.HeapOrdered, S.Listed;
    hide P.Straddles, P.InOrder, AddressSpace.Image, LocalSpace.JointBut, S.SlabPool.Now, PendingPages;
    space.ValidJoint();
    space.BatchLength();
    space.StraddlesBatch(o);
    space.ImageOfPages();
  }

  /** What they say of a class. */
  lemma ClassMeans(space: LocalSpace, client: Client, c: nat)
    ensures Overtaken(Snap(space, client), c) <==> space.Overtaken(c)
    ensures HasList(Snap(space, client).space, c) <==> c < space.pool.heads.Length && !space.NoList(c)
  {
    hide LocalSpaces.Frees, AddressSpace.Image;
  }

  lemma JoinsSmall(small: seq<(nat, nat)>, b: (nat, nat), live: set<(nat, nat)>)
    requires Named(small) == live && Waiting(small, live) && b !in live
    ensures Named([b] + small) == live + {b} && Waiting([b] + small, live + {b})
    ensures Named(small) * Named([b] + small) == live && b !in small
  {
    var r := [b] + small;
    assert b !in Named(small);
    forall k | 0 < k < |r| ensures r[k] == small[k - 1] && r[k] in small {
    }
    assert r[0] == b;
    forall x | x in live + {b} ensures x in r {
      if x in live { assert x in Named(small); }
    }
  }

  lemma SameSmall(small: seq<(nat, nat)>)
    ensures Named(small) * Named(small) == Named(small)
  {
  }

  lemma LeavesSmall(small: seq<(nat, nat)>, k: nat, live: set<(nat, nat)>)
    requires Named(small) == live && Waiting(small, live) && k < |small|
    ensures small[k] in live && Named(Without(small, k)) == live - {small[k]}
    ensures Waiting(Without(small, k), live - {small[k]})
  {
    var w := Without(small, k);
    assert forall i :: 0 <= i < |w| ==> w[i] == small[if i < k then i else i + 1];
    forall x | x in live - {small[k]} ensures x in w {
      assert x in Named(small);
      var i :| 0 <= i < |small| && small[i] == x;
      assert w[if i < k then i else i - 1] == x;
    }
  }

  /** The node of a new slab makes no difference to the hazards. */
  lemma SameRisk(cfg: Config, w: Space, c: nat, node: nat)
    ensures SlabAllocated(cfg, w, c, node).effect.hazard == SlabAllocated(cfg, w, c, 0).effect.hazard
  {
    hide Sought, Opened, S.Popped;
  }

  lemma DueMeans(space: LocalSpace, cfg: Config, client: Client, m: Moment, c: nat, s: nat, b: nat, p: S.Pool)
    requires space.Valid() && m.space.pool == p && cfg == space.Cfg()
    requires
      if HasList(m.space, c) then S.TakesDue(p, space.pool.Now(), cfg.blocks, s, b)
      else
        && b == 0 && s in space.pages.slabs
        && space.LiesRight(space.pages.slabs[s], HeapInOrder(m) && !Risky(cfg, m, AllocateSmall(c)))
    ensures HandsDue(cfg, m, c, s, b, Snap(space, client))
  {
    SnapMeans(space, client, 0);
    hide S.TakesDue, HasList, AddressSpace.Image, HeapInOrder, Risky, TakenFrom, Blocks.Run, FreeIn, LocalSpace.Valid;
    hide AddressSpace.FreePages, S.SlabPool.Now;
  }

  lemma RiskOfSmall(cfg: Config, m: Moment, c: nat, node: nat)
    ensures Risky(cfg, m, AllocateSmall(c)) <==> SlabAllocated(cfg, m.space, c, node).effect.hazard
  {
    SameRisk(cfg, m.space, c, node);
    hide SlabAllocated;
  }

  method StepAllocateSmall(space: LocalSpace, cfg: Config, client: Client, c: nat)
    returns (r: Outcome)
    requires Accounted(space, cfg, client) && c < |cfg.blocks| && Sensible(cfg)
    modifies space.Repr()
    ensures space.Repr() == old(space.Repr()) && Accounted(space, cfg, After(client, AllocateSmall(c), r))
    ensures Follows(cfg, old(Snap(space, client)), AllocateSmall(c), r,
                    Snap(space, After(client, AllocateSmall(c), r)))
  {
    hide LocalSpace.Valid, LocalSpace.LivePages, LocalSpace.LiveBlocks, LocalSpace.Store, Queued, Blocks.Run,
        LodgedPages;
    hide Legal, Safe, Covered, Answers, Unanswerable, Unheld, Stay, Fewer, LocalSpace.Overtaken, Emptied, Waiting,
        Named, FreeIn, BatchedIn, HeapInOrder, AllListed, Overtaken, OneMore, Snap, P.InOrder;
    hide Allocated, Reserved, Deallocated, BlockDeallocated, SlabAllocated, Merged, Entries, P.Straddles, HasList;
    hide AddressSpace.FreePages, AddressSpace.BatchedPages, AddressSpace.HeapOrdered, S.Listed, S.SlabPool.Now,
        FillsGap;
    hide S.TakesDue, HandsDue, Sought, LocalSpace.LiesRight;
    hide Follows, Next, Calm, Risky, SmallTouches;
    SnapMeans(space, client, 0);
    ClassMeans(space, client, c);
    space.ListOf(c);
    ghost var m, p := Snap(space, client), space.pool.Now();
    ghost var live := space.LiveBlocks();
    var b, entries, hazard := space.SlabAllocate(c);
    RiskOfSmall(cfg, m, c, if b.Some? then b.value.0 else 0);
    r := Refused;
    if b.Some? {
      var (s, id) := b.value;
      r := Handed(s, id);
      JoinsSmall(client.small, (s, id), live);
      DueMeans(space, cfg, After(client, AllocateSmall(c), r), m, c, s, id, p);
    } else {
      SameSmall(client.small);
      UnusedIsUnheld(space, cfg, client);
    }
    SnapMeans(space, After(client, AllocateSmall(c), r), 0);
    ClassMeans(space, After(client, AllocateSmall(c), r), c);
    space.ListOf(c);
    SmallTouch(cfg, m, c, NodeOf(r), Snap(space, After(client, AllocateSmall(c), r)));
    SmallStepFollows(cfg, m, c, SlabAllocated(cfg, m.space, c, NodeOf(r)), r,
                     Snap(space, After(client, AllocateSmall(c), r)));
  }

  method StepFreeSmall(space: LocalSpace, cfg: Config, client: Client, k: nat, elsewhere: bool)
    returns (r: Outcome)
    requires Accounted(space, cfg, client) && k < |client.small|
    modifies space.Repr()
    ensures space.Repr() == old(space.Repr()) && Accounted(space, cfg, After(client, FreeSmall(k, elsewhere), r))
    ensures Follows(cfg, old(Snap(space, client)), FreeSmall(k, elsewhere), r,
                    Snap(space, After(client, FreeSmall(k, elsewhere), r)))
  {
    hide LocalSpace.Valid, LocalSpace.LivePages, LocalSpace.LiveBlocks, LocalSpace.Store, Queued, Blocks.Run,
        LodgedPages;
    hide Legal, Safe, Covered, Answers, Unanswerable, Unheld, Stay, Fewer, LocalSpace.Overtaken, Emptied, Waiting,
        Named, FreeIn, BatchedIn, HeapInOrder, AllListed, Overtaken, OneMore, Snap, P.InOrder;
    hide Allocated, Reserved, Deallocated, BlockDeallocated, SlabAllocated, Merged, Entries, P.Straddles, HasList;
    hide AddressSpace.FreePages, AddressSpace.BatchedPages, AddressSpace.HeapOrdered, S.Listed, S.SlabPool.Now,
        FillsGap;
    hide Follows;
    SnapMeans(space, client, 0);
    ghost var m := Snap(space, client);
    ghost var slabs := space.pages.slabs;
    LeavesSmall(client.small, k, space.LiveBlocks());
    var (s, b) := client.small[k];
    ghost var entries, hazard := 0, false;
    if elsewhere {
      FewerAtFirst(slabs);
      space.FreeBlockElsewhere(s, b);
    } else {
      entries, hazard := space.DeallocateBlock(s, b);
    }
    r := Done;
    SnapMeans(space, After(client, FreeSmall(k, elsewhere), r), 0);
    space.BlocksInSlabs();
    NamesIn(Without(client.small, k), space.LiveBlocks(), space.pages.slabs);
    SmallStay(client.small, Without(client.small, k), slabs, space.pages.slabs);
    StepFollows(cfg, m, FreeSmall(k, elsewhere), r, Snap(space, After(client, FreeSmall(k, elsewhere), r)));
  }

  method StepMerge(space: LocalSpace, cfg: Config, client: Client) returns (r: Outcome)
    requires Accounted(space, cfg, client)
    modifies space.Repr()
    ensures space.Repr() == old(space.Repr()) && Accounted(space, cfg, client) && r == Done
    ensures Follows(cfg, old(Snap(space, client)), Merge, r, Snap(space, client))
  {
    hide LocalSpace.Valid, LocalSpace.LivePages, LocalSpace.LiveBlocks, LocalSpace.Store, Queued, Blocks.Run,
        LodgedPages;
    hide Legal, Safe, Covered, Answers, Unanswerable, Unheld, Stay, Fewer, LocalSpace.Overtaken, Emptied, Waiting,
        Named, FreeIn, BatchedIn, HeapInOrder, AllListed, Overtaken, OneMore, Snap, P.InOrder;
    hide Allocated, Reserved, Deallocated, BlockDeallocated, SlabAllocated, Merged, Entries, P.Straddles, HasList;
    hide AddressSpace.FreePages, AddressSpace.BatchedPages, AddressSpace.HeapOrdered, S.Listed, S.SlabPool.Now,
        FillsGap;
    SnapMeans(space, client, 0);
    ghost var m := Snap(space, client);
    ghost var slabs := space.pages.slabs;
    FewerAtFirst(slabs);
    ghost var hazard := space.Merge();
    r := Done;
    SnapMeans(space, client, 0);
    space.BlocksInSlabs();
    NamesIn(client.small, space.LiveBlocks(), space.pages.slabs);
    SmallStay(client.small, client.small, slabs, space.pages.slabs);
  }

  // ---------- whole runs ----------

  lemma Skips(cfg: Config, m: Moment, op: Op)
    requires Settled(cfg, m)
    requires match op
      case Grow(k, n) => k >= |m.client.pages|
      case Free(k, from, n, _) => !Frees(m.client, k, from, n)
      case FreeSmall(k, _) => k >= |m.client.small|
      case _ => false
    ensures After(m.client, op, Skipped) == m.client && Follows(cfg, m, op, Skipped, m)
  {
    hide Queued, Lodged, Aligned, FillsGap;
    hide Conserved, HandedOut;
    SmallStays(m.client.small, m.space.slabs);
  }

  lemma SmallStays(small: seq<(nat, nat)>, slabs: map<nat, nat>)
    requires forall b :: b in small ==> b.0 in slabs
    ensures Stay(Named(small) * Named(small), slabs, slabs) && Fewer(slabs, slabs)
  {
  }

  method Step(space: LocalSpace, cfg: Config, client: Client, op: Op) returns (r: Outcome)
    requires Accounted(space, cfg, client) && Proper(op, cfg) && Sensible(cfg)
    modifies space.Repr()
    ensures space.Repr() == old(space.Repr()) && Accounted(space, cfg, After(client, op, r))
    ensures Follows(cfg, old(Snap(space, client)), op, r, Snap(space, After(client, op, r)))
  {
    hide Accounted, Snap, Settled, Legal, Safe, Follows, Sensible, LocalSpace.Repr, After;
    AccountedSettled(space, cfg, client);
    ghost var m := Snap(space, client);
    SnapClient(space, client);
    match op
    case Allocate(q) => r := StepAllocate(space, cfg, client, q);
    case AllocateSmall(c) => r := StepAllocateSmall(space, cfg, client, c);
    case Merge => r := StepMerge(space, cfg, client); AfterMerge(client);
    case Grow(k, n) =>
      if k < |client.pages| { r := StepGrow(space, cfg, client, k, n); }
      else { Skips(cfg, m, op); r := Skipped; }
    case Free(k, from, n, e) =>
      if !Frees(client, k, from, n) { Skips(cfg, m, op); r := Skipped; }
      else if e { r := StepFreeElsewhere(space, cfg, client, k, from, n); }
      else { r := StepFree(space, cfg, client, k, from, n); }
    case FreeSmall(k, e) =>
      if k < |client.small| { r := StepFreeSmall(space, cfg, client, k, e); }
      else { Skips(cfg, m, op); r := Skipped; }
  }

  lemma SnapClient(space: LocalSpace, client: Client)
    ensures Snap(space, client).client == client
  {
  }

  lemma AfterMerge(client: Client)
    ensures After(client, Merge, Done) == client
  {
  }

  /** Any run, on a new space, is a run of the abstract allocator, step by step, and ends with the
      client's blocks, as the outcomes tell them, being exactly what is in use. */
  method Run(cfg: Config, ops: seq<Op>)
    returns (space: LocalSpace, client: Client, outcomes: seq<Outcome>, ghost moments: seq<Moment>)
    requires Sensible(cfg) && forall i :: 0 <= i < |ops| ==> Proper(ops[i], cfg)
    ensures fresh(space.Repr()) && Accounted(space, cfg, client) && Trace(cfg, ops, outcomes, moments)
    ensures moments[|ops|] == Snap(space, client) && client == Replay(ops, outcomes)
  {
    hide Accounted, Proper, Settled, Follows, Snap, After, LocalSpace.Repr, Trace, Sensible, Begins;
    space := Start(cfg);
    client := Client([], []);
    outcomes, moments := [], [Snap(space, client)];
    TraceBegins(cfg, moments[0]);
    assert ops[..0] == [];
    var i := 0;
    while i < |ops|
      invariant i <= |ops| && fresh(space.Repr()) && Accounted(space, cfg, client)
      invariant |moments| == i + 1 && moments[i] == Snap(space, client)
      invariant Trace(cfg, ops[..i], outcomes, moments)
    {
      var r := Step(space, cfg, client, ops[i]);
      client := After(client, ops[i], r);
      AccountedSettled(space, cfg, client);
      TraceGoesOn(cfg, ops, i, outcomes, moments, r, Snap(space, client));
      outcomes, moments := outcomes + [r], moments + [Snap(space, client)];
      i := i + 1;
    }
    assert ops[..|ops|] == ops;
    TraceEnds(cfg, ops, outcomes, moments);
    SnapClient(space, client);
  }

  method Start(cfg: Config) returns (space: LocalSpace)
    requires Sensible(cfg)
    ensures fresh(space.Repr()) && Accounted(space, cfg, Client([], []))
    ensures Begins(Snap(space, Client([], [])), cfg) && Settled(cfg, Snap(space, Client([], [])))
  {
    hide LocalSpace.Valid, LocalSpace.Empty, Accounted, Snap, Begins, Settled, LocalSpace.Repr;
    space := new LocalSpace(cfg.pub, cfg.buffer, cfg.threshold, cfg.slabPages, cfg.base, cfg.blocks);
    RunBegins(space, cfg);
    AccountedSettled(space, cfg, Client([], []));
  }

  lemma TraceBegins(cfg: Config, m: Moment)
    requires Begins(m, cfg) && Settled(cfg, m)
    ensures Trace(cfg, [], [], [m])
  {
  }

  lemma TraceGoesOn(cfg: Config, ops: seq<Op>, i: nat, outcomes: seq<Outcome>, moments: seq<Moment>, r: Outcome,
                    m: Moment)
    requires i < |ops| && Trace(cfg, ops[..i], outcomes, moments) && |moments| == i + 1
    requires Follows(cfg, moments[i], ops[i], r, m) && Settled(cfg, m)
    ensures Trace(cfg, ops[..i + 1], outcomes + [r], moments + [m])
  {
    hide Follows, Settled, Begins;
  }

  lemma TraceEnds(cfg: Config, ops: seq<Op>, outcomes: seq<Outcome>, moments: seq<Moment>)
    requires Trace(cfg, ops, outcomes, moments)
    ensures |outcomes| == |ops| && |moments| == |ops| + 1 && moments[|ops|].client == Replay(ops, outcomes)
  {
    TraceReplays(cfg, ops, outcomes, moments, |ops|);
    assert ops[..|ops|] == ops && outcomes[..|ops|] == outcomes;
  }

  lemma RunBegins(space: LocalSpace, cfg: Config)
    requires space.Valid() && space.Empty() && space.Cfg() == cfg
    requires space.Shown() == NewSpace(cfg)
    ensures Accounted(space, cfg, Client([], [])) && Begins(Snap(space, Client([], [])), cfg)
  {
    hide LocalSpace.Valid, LocalSpace.LivePages, LocalSpace.LiveBlocks, Blocks.Run, HeapInOrder, AllListed;
    hide AddressSpace.HeapOrdered, S.Listed, AddressSpace.Image, S.SlabPool.Now, S.NoSlabs;
    SnapMeans(space, Client([], []), 0);
    NoneWaiting();
    NothingQueued(space.LivePages(), cfg.pub);
    space.PagesPartition();
    space.NothingLodged();
  }

  /** The client's blocks, which the outcomes of a run determine, make up the partition together with
      the free, batched and waiting pages and the slabs; they are disjoint, and committed. */
  lemma AccountedPartition(space: LocalSpace, cfg: Config, client: Client)
    requires Accounted(space, cfg, client)
    ensures space.pages.FreePages() + space.pages.BatchedPages() + PendingPages(space.remotePage)
         + PendingPages(client.pages) + space.pages.SlabPages() == Blocks.Run(0, cfg.pub)
    ensures space.pages.FreePages() !! space.pages.BatchedPages() !! PendingPages(space.remotePage)
         !! PendingPages(client.pages) !! space.pages.SlabPages()
    ensures forall k, m :: 0 <= k < m < |client.pages| ==> PagesOf(client.pages[k]) !! PagesOf(client.pages[m])
    ensures forall p :: p in PendingPages(client.pages) ==> p in space.pages.committed
  {
    hide LocalSpace.Valid, LocalSpace.LivePages, LocalSpace.LiveBlocks, Blocks.Run, PagesOf, Waiting, Named;
    hide AddressSpace.FreePages, AddressSpace.BatchedPages, AddressSpace.SlabPages;
    space.PagesPartition();
    forall p | p in PendingPages(client.pages) ensures p in space.pages.committed {
      space.LiveIsCommitted(p);
    }
  }
}
