/** The order in which slabs hand out their blocks, told from the operations of a run and their outcomes. */
module SlabOrders {
  import opened Options
  import opened Bisect
  import opened Searching
  import opened LocalSpaces
  import opened PlainSpaces
  import opened Runs
  import P = Plain
  import S = Slabs

  /** The blocks that an operation gives back to their slabs: those that waited and do so no longer, in the
      order in which they are drained, and then the one it frees. */
  ghost function Back(m: Moment, op: Op, m': Moment): seq<(nat, nat)>
  {
    (if m'.space.remoteSlab == [] then m.space.remoteSlab else [])
    + if op.FreeSmall? && !op.elsewhere && op.block < |m.client.small| then [m.client.small[op.block]] else []
  }

  /** A block of slab `s` is handed out although its class had no list: the slab is new. */
  ghost predicate Opens(m: Moment, op: Op, r: Outcome, s: nat)
  {
    op.AllocateSmall? && r.Handed? && r.slab == s && !HasList(m.space, op.class_)
  }

  ghost function Later(o: S.Order, m: Moment, op: Op, r: Outcome, m': Moment, s: nat): S.Order
  {
    if Opens(m, op, r, s) then S.DueTaken(S.NEW_ORDER)
    else
      var p := o.(back := o.back + S.Of(Back(m, op, m'), s));
      if r.Handed? && r.slab == s then S.DueTaken(p) else p
  }

  /** Which blocks of slab `s` have been handed out and given back since it was opened, `i` operations into
      the run. */
  ghost function OrderAt(ops: seq<Op>, outcomes: seq<Outcome>, moments: seq<Moment>, s: nat, i: nat): S.Order
    requires |outcomes| == |ops| && |moments| == |ops| + 1 && i <= |ops|
  {
    if i == 0 then S.NEW_ORDER
    else
      Later(OrderAt(ops, outcomes, moments, s, i - 1), moments[i - 1], ops[i - 1], outcomes[i - 1], moments[i], s)
  }

  // ---------- what becomes of the pool ----------

  /** Nothing goes back to the pool, or everything that waits does. */
  ghost predicate DrainsOrNot(cfg: Config, w: Space, w': Space)
  {
    || (w'.pool == w.pool && (w'.remoteSlab == [] ==> w.remoteSlab == []))
    || (w'.remoteSlab == [] && w'.pool == S.AllReturned(w.pool, cfg.blocks, w.remoteSlab).pool)
  }

  lemma DrainedPool(cfg: Config, w: Space)
    ensures var d := Drained(cfg, w).space;
      d.remoteSlab == [] && d.pool == S.AllReturned(w.pool, cfg.blocks, w.remoteSlab).pool
  {
    hide S.AllReturned, P.JoinAll;
  }

  lemma AllocatedPool(cfg: Config, w: Space, q: Request)
    ensures var w' := Allocated(cfg, w, q).effect.space;
      DrainsOrNot(cfg, w, w') && (w'.remoteSlab == w.remoteSlab || w'.remoteSlab == [])
  {
    hide Drained, P.Take, P.MergeBatch, S.AllReturned;
    DrainedPool(cfg, w);
  }

  lemma ReservedPool(cfg: Config, w: Space, o: nat, n: nat)
    ensures DrainsOrNot(cfg, w, Reserved(cfg, w, o, n).effect.space)
  {
    hide Drained, P.TakeAt, P.MergeBatch, S.AllReturned, P.Straddles;
    DrainedPool(cfg, w);
  }

  lemma DeallocatedPool(cfg: Config, w: Space, o: nat, n: nat)
    ensures DrainsOrNot(cfg, w, Deallocated(cfg, w, o, n).space)
  {
    hide Drained, P.MergeMany, S.AllReturned;
    DrainedPool(cfg, w);
  }

  lemma BlockDeallocatedPool(cfg: Config, w: Space, s: nat, b: nat)
    ensures var w' := BlockDeallocated(cfg, w, s, b).space;
      w'.remoteSlab == [] && w'.pool == S.AllReturned(w.pool, cfg.blocks, w.remoteSlab + [(s, b)]).pool
  {
    hide Drained, P.MergeMany, S.AllReturned, S.Returned, S.Reclaimable;
    DrainedPool(cfg, w);
    var q := w.remoteSlab + [(s, b)];
    assert q[..|q| - 1] == w.remoteSlab;
    S.LastReturned(w.pool, cfg.blocks, q);
  }

  lemma SoughtPool(cfg: Config, w: Space)
    ensures var w' := Sought(cfg, w).effect.space;
      w'.remoteSlab == [] && w'.pool == S.AllReturned(w.pool, cfg.blocks, w.remoteSlab).pool
  {
    DrainedPool(cfg, w);
    var m := MergedMany(cfg, Drained(cfg, w).space);
    AllocatedPool(cfg, m.space, SlabOf(cfg));
    NothingReturned(m.space.pool, cfg.blocks);
    hide Drained, P.MergeMany, S.AllReturned, Allocated;
  }

  lemma NothingReturned(p: S.Pool, blocks: seq<nat>)
    ensures S.AllReturned(p, blocks, []).pool == p
  {
  }

  lemma DrainsBack(cfg: Config, w: Space, w': Space)
    requires DrainsOrNot(cfg, w, w')
    ensures w'.pool == S.AllReturned(w.pool, cfg.blocks, if w'.remoteSlab == [] then w.remoteSlab else []).pool
  {
    NothingReturned(w.pool, cfg.blocks);
    hide S.AllReturned;
  }

  /** Operations that hand out no block only give blocks back. */
  lemma NextPool(cfg: Config, m: Moment, op: Op, r: Outcome, m': Moment)
    requires Follows(cfg, m, op, r, m') && !r.Handed?
    ensures m'.space.pool == S.AllReturned(m.space.pool, cfg.blocks, Back(m, op, m')).pool
  {
    FollowsAfter(cfg, m, op, r, m');
    if op.AllocateSmall? { FollowsRefused(cfg, m, op.class_, r, m'); }
    hide Follows, S.AllReturned, Next, DrainsOrNot, Back, HasList, HeapInOrder, Calm, Risky;
    if op.FreeSmall? && !op.elsewhere && op.block < |m.client.small| {
      OwnBack(cfg, m, op.block, r, m');
    } else {
      NextDrains(cfg, m, op, NodeOf(r));
      NoOwn(m, op, m');
      DrainsBack(cfg, m.space, m'.space);
    }
  }

  lemma OwnBack(cfg: Config, m: Moment, k: nat, r: Outcome, m': Moment)
    requires k < |m.client.small| && m'.space == Next(cfg, m, FreeSmall(k, false), NodeOf(r)).effect.space
    ensures m'.space.pool == S.AllReturned(m.space.pool, cfg.blocks, Back(m, FreeSmall(k, false), m')).pool
  {
    hide S.AllReturned, BlockDeallocated, Allocated, Reserved, Deallocated, SlabAllocated, Merged;
    var x := m.client.small[k];
    BlockDeallocatedPool(cfg, m.space, x.0, x.1);
    assert (x.0, x.1) == x;
  }

  lemma FollowsRefused(cfg: Config, m: Moment, c: nat, r: Outcome, m': Moment)
    requires Follows(cfg, m, AllocateSmall(c), r, m') && !r.Handed?
    ensures !HasList(m.space, c) && Sought(cfg, m.space).offset == None
  {
    hide Stay, Fewer, Unheld, Unanswerable, Runs.After, Next, Risky, HeapInOrder, AllListed, Runs.Overtaken, OneMore;
    hide Sought, HasList, Calm;
  }

  lemma NextDrains(cfg: Config, m: Moment, op: Op, node: nat)
    requires !op.FreeSmall? || op.elsewhere || op.block >= |m.client.small|
    requires op.AllocateSmall? ==> !HasList(m.space, op.class_) && Sought(cfg, m.space).offset == None
    ensures DrainsOrNot(cfg, m.space, Next(cfg, m, op, node).effect.space)
  {
    var w := m.space;
    hide S.AllReturned, Allocated, Reserved, Deallocated, BlockDeallocated, SlabAllocated, Merged, HasList, Sought;
    match op
    case Allocate(q) => AllocatedPool(cfg, w, q);
    case Grow(k, n) =>
      if k < |m.client.pages| { ReservedPool(cfg, w, m.client.pages[k].offset + m.client.pages[k].pages, n); }
    case Free(k, from, n, elsewhere) =>
      if Runs.Frees(m.client, k, from, n) { DeallocatedPool(cfg, w, m.client.pages[k].offset + from, n); }
    case AllocateSmall(c) => RefusedPool(cfg, w, c, node);
    case FreeSmall(k, elsewhere) =>
    case Merge => MergedPool(w);
  }

  lemma NoOwn(m: Moment, op: Op, m': Moment)
    requires !op.FreeSmall? || op.elsewhere || op.block >= |m.client.small|
    ensures Back(m, op, m') == if m'.space.remoteSlab == [] then m.space.remoteSlab else []
  {
  }

  lemma MergedPool(w: Space)
    ensures Merged(w).space.pool == w.pool && Merged(w).space.remoteSlab == w.remoteSlab
  {
    hide P.MergeBatch;
  }

  lemma RefusedPool(cfg: Config, w: Space, c: nat, s: nat)
    requires !HasList(w, c) && Sought(cfg, w).offset == None
    ensures DrainsOrNot(cfg, w, SlabAllocated(cfg, w, c, s).effect.space)
  {
    SoughtPool(cfg, w);
    hide Sought, S.AllReturned, S.Opened;
  }

  // ---------- each operation keeps the order ----------

  /** Giving back blocks that were handed out. */
  lemma {:induction false} AllReturnedOrder(p: S.Pool, blocks: seq<nat>, q: seq<(nat, nat)>, s: nat, o: S.Order)
    requires S.Sturdy(p, blocks) && Waiting(q, S.Live(p, blocks))
    ensures var r := S.AllReturned(p, blocks, q).pool;
      && S.Sturdy(r, blocks) && S.Live(r, blocks) == S.Live(p, blocks) - Named(q) && r.slabs <= p.slabs
      && (S.Ordered(p, blocks, s, o) ==> S.Ordered(r, blocks, s, o.(back := o.back + S.Of(q, s))))
    decreases |q|
  {
    hide S.Sturdy, S.Live, S.Ordered, S.Returned;
    if q == [] {
      NoneWaiting();
      assert S.Live(p, blocks) - {} == S.Live(p, blocks) && o.back + [] == o.back;
    } else {
      var front, x := q[..|q| - 1], q[|q| - 1];
      assert q == front + [x];
      AllReturnedOrder(p, blocks, front, s, o);
      WaitsLast(front, x, S.Live(p, blocks));
      var r := S.AllReturned(p, blocks, front).pool;
      S.LastReturned(p, blocks, q);
      S.ReturnedSturdy(r, blocks, x.0, x.1);
      FewerSlabs(r, blocks, x.0, x.1);
      var o' := o.(back := o.back + S.Of(front, s));
      if S.Ordered(p, blocks, s, o) { S.ReturnedOrder(r, blocks, x.0, x.1, s, o'); }
      assert o.back + (S.Of(front, s) + [x.1]) == o'.back + [x.1] && o.back + (S.Of(front, s) + []) == o'.back;
    }
  }

  lemma WaitsLast(q: seq<(nat, nat)>, x: (nat, nat), live: set<(nat, nat)>)
    requires Waiting(q + [x], live)
    ensures Waiting(q, live) && x in live - Named(q) && live - Named(q + [x]) == live - Named(q) - {x}
  {
    var r := q + [x];
    assert r[|q|] == x;
    forall k | 0 <= k < |q| ensures r[k] == q[k] {
    }
  }

  lemma FewerSlabs(p: S.Pool, blocks: seq<nat>, s: nat, b: nat)
    ensures S.Returned(p, blocks, s, b).slabs <= p.slabs
  {
    hide S.LeftWithout, S.RightWithout, S.Sans, S.Reclaimable;
  }

  /** What goes back was handed out. */
  lemma BackWaits(cfg: Config, m: Moment, op: Op, m': Moment)
    requires HandedOut(cfg, m) && Waiting(m.client.small, Named(m.client.small))
    ensures Waiting(Back(m, op, m'), S.Live(m.space.pool, cfg.blocks))
  {
    hide S.Sturdy, S.Live;
    var q := Back(m, op, m');
    if op.FreeSmall? && !op.elsewhere && op.block < |m.client.small| {
      assert m.client.small[op.block] in Named(m.client.small);
    }
  }

  /** An operation that hands out no block. */
  lemma GivesOrder(cfg: Config, m: Moment, op: Op, r: Outcome, m': Moment, s: nat, o: S.Order)
    requires Follows(cfg, m, op, r, m') && !r.Handed? && Settled(cfg, m)
    requires s in m.space.pool.slabs ==> S.Ordered(m.space.pool, cfg.blocks, s, o)
    ensures s in m'.space.pool.slabs ==> S.Ordered(m'.space.pool, cfg.blocks, s, Later(o, m, op, r, m', s))
  {
    hide Follows, S.Ordered, S.Sturdy, S.Live, S.AllReturned, Back, Waiting;
    NextPool(cfg, m, op, r, m');
    BackWaits(cfg, m, op, m');
    AllReturnedOrder(m.space.pool, cfg.blocks, Back(m, op, m'), s, o);
  }

  /** A block is handed out of a slab that was there. */
  lemma TakesOrder(cfg: Config, m: Moment, c: nat, r: Outcome, m': Moment, s: nat, o: S.Order)
    requires Follows(cfg, m, AllocateSmall(c), r, m') && r.Handed? && HasList(m.space, c) && Settled(cfg, m)
    requires s in m.space.pool.slabs ==> S.Ordered(m.space.pool, cfg.blocks, s, o)
    ensures s in m'.space.pool.slabs ==>
      S.Ordered(m'.space.pool, cfg.blocks, s, Later(o, m, AllocateSmall(c), r, m', s))
    ensures s == r.slab ==> s in m.space.pool.slabs && r.id == S.Due(o)
  {
    hide Follows, S.Ordered, S.Sturdy, S.Live, HasList, SlabAllocated, Later, Back;
    FollowsHanded(cfg, m, c, r, m');
    HeadTaken(cfg, m.space, c, r, m'.space);
    NothingBack(o, m, c, r, m', s);
    DueNext(cfg, m, c, r, m', s, o);
  }

  lemma NothingBack(o: S.Order, m: Moment, c: nat, r: Outcome, m': Moment, s: nat)
    requires r.Handed? && HasList(m.space, c) && m'.space.remoteSlab == m.space.remoteSlab
    ensures Later(o, m, AllocateSmall(c), r, m', s) == if r.slab == s then S.DueTaken(o) else o
  {
    hide HasList;
    assert Back(m, AllocateSmall(c), m') == [];
    assert o.back + [] == o.back;
  }

  lemma DueNext(cfg: Config, m: Moment, c: nat, r: Outcome, m': Moment, s: nat, o: S.Order)
    requires r.Handed? && HasList(m.space, c) && HandsDue(cfg, m, c, r.slab, r.id, m')
    requires r.slab in m.space.pool.slabs && m'.space.pool.slabs == m.space.pool.slabs
    requires s in m.space.pool.slabs ==> S.Ordered(m.space.pool, cfg.blocks, s, o)
    ensures s in m'.space.pool.slabs ==>
      S.Ordered(m'.space.pool, cfg.blocks, s, if r.slab == s then S.DueTaken(o) else o)
    ensures s == r.slab ==> r.id == S.Due(o)
  {
    hide S.Ordered, HasList;
  }

  lemma FollowsHanded(cfg: Config, m: Moment, c: nat, r: Outcome, m': Moment)
    requires Follows(cfg, m, AllocateSmall(c), r, m') && r.Handed?
    ensures HandsDue(cfg, m, c, r.slab, r.id, m')
    ensures var h := SlabAllocated(cfg, m.space, c, r.slab);
      h.block == Some((r.slab, r.id)) && h.effect.space == m'.space
  {
    hide Stay, Fewer, Unheld, Unanswerable, Runs.After, Risky, HeapInOrder, AllListed, Runs.Overtaken, OneMore;
    hide Sought, HasList, Calm, SlabAllocated, HandsDue;
  }

  lemma HeadTaken(cfg: Config, w: Space, c: nat, r: Outcome, w': Space)
    requires r.Handed? && HasList(w, c) && S.Sturdy(w.pool, cfg.blocks)
    requires var h := SlabAllocated(cfg, w, c, r.slab); h.block == Some((r.slab, r.id)) && h.effect.space == w'
    ensures r.slab in w.pool.slabs && w'.pool.slabs == w.pool.slabs && w'.remoteSlab == w.remoteSlab
  {
    hide Sought, S.LeftWithout, S.RightWithout, S.Mutual, S.Stocked;
    assert S.Headed(w.pool, c);
  }

  // ---------- a new slab ----------

  /** The node of the block is the one that the slab got. */
  lemma ReopenedOpens(cfg: Config, p: S.Pool, c: nat, s: nat)
    requires S.Sturdy(p, cfg.blocks)
    requires var q := Reopened(cfg, p, c, s);
      c < |q.heads| && c < |q.chains| && q.heads[c] == s && s < |q.left| && s < |q.right| && s < |q.count|
    ensures c < |p.heads| && c < |p.chains| && c < |cfg.blocks|
    ensures s < |p.left| && s < |p.right| && s < |p.count| && s < |p.size|
    ensures Reopened(cfg, p, c, s) == S.Opened(p, cfg.blocks, c, s)
  {
    hide S.Stocked, S.Mutual, S.Headed, S.Opened;
  }

  /** The slab is opened and its first block taken. */
  lemma NewTaken(cfg: Config, w: Space, c: nat, r: Outcome, w': Space, r': nat, o: S.Order)
    requires r.Handed? && !HasList(w, c) && S.Sturdy(Sought(cfg, w).effect.space.pool, cfg.blocks)
    requires var h := SlabAllocated(cfg, w, c, r.slab); h.block == Some((r.slab, r.id)) && h.effect.space == w'
    ensures var p := Sought(cfg, w).effect.space.pool;
      && S.Ordered(w'.pool, cfg.blocks, r.slab, S.DueTaken(S.NEW_ORDER)) && r.id == 0
      && (r' != r.slab && S.Ordered(p, cfg.blocks, r', o) ==> S.Ordered(w'.pool, cfg.blocks, r', o))
      && w'.pool.slabs == p.slabs + {r.slab}
  {
    var (p, s) := (Sought(cfg, w).effect.space.pool, r.slab);
    hide Sought, HasList, S.Sturdy, S.Ordered, S.LeftWithout, S.RightWithout, S.Descending;
    ReopenedOpens(cfg, p, c, s);
    var q := S.Opened(p, cfg.blocks, c, s);
    S.OpenedOrder(p, cfg.blocks, c, s);
    S.PoppedOrder(q, cfg.blocks, c, s, S.NEW_ORDER);
    if r' != s {
      S.OpenedElsewhere(p, cfg.blocks, c, s, r', o);
      S.PoppedElsewhere(q, cfg.blocks, c, s, r', o);
    }
  }

  /** A block is handed out of a slab that is new. */
  lemma OpensOrder(cfg: Config, m: Moment, c: nat, r: Outcome, m': Moment, s: nat, o: S.Order)
    requires Follows(cfg, m, AllocateSmall(c), r, m') && r.Handed? && !HasList(m.space, c) && Settled(cfg, m)
    requires s in m.space.pool.slabs ==> S.Ordered(m.space.pool, cfg.blocks, s, o)
    ensures s in m'.space.pool.slabs ==>
      S.Ordered(m'.space.pool, cfg.blocks, s, Later(o, m, AllocateSmall(c), r, m', s))
    ensures r.id == 0
  {
    hide Follows, S.Ordered, S.Sturdy, S.Live, HasList, SlabAllocated, S.AllReturned, Waiting, Sought;
    FollowsHanded(cfg, m, c, r, m');
    SoughtPool(cfg, m.space);
    var q := m.space.remoteSlab;
    AllReturnedOrder(m.space.pool, cfg.blocks, q, s, o);
    var o' := o.(back := o.back + S.Of(q, s));
    NewTaken(cfg, m.space, c, r, m'.space, s, o');
    NewLeavesQuiet(cfg, m.space, c, r.slab);
    assert Back(m, AllocateSmall(c), m') == q + [] == q;
  }

  lemma NewLeavesQuiet(cfg: Config, w: Space, c: nat, s: nat)
    requires !HasList(w, c) && Sought(cfg, w).effect.space.remoteSlab == []
    ensures SlabAllocated(cfg, w, c, s).effect.space.remoteSlab == []
  {
    hide Sought, HasList, Reopened, S.Popped;
  }

  // ---------- over every run ----------

  lemma StepKeepsOrder(cfg: Config, m: Moment, op: Op, r: Outcome, m': Moment, s: nat, o: S.Order)
    requires Follows(cfg, m, op, r, m') && Settled(cfg, m)
    requires s in m.space.pool.slabs ==> S.Ordered(m.space.pool, cfg.blocks, s, o)
    ensures s in m'.space.pool.slabs ==> S.Ordered(m'.space.pool, cfg.blocks, s, Later(o, m, op, r, m', s))
    ensures op.AllocateSmall? && r.Handed? && r.slab == s ==>
      r.id == if HasList(m.space, op.class_) then S.Due(o) else 0
  {
    if r.Handed? { FollowsSmall(cfg, m, op, r, m'); }
    hide Follows, Settled, S.Ordered, Later, HasList;
    if !r.Handed? { GivesOrder(cfg, m, op, r, m', s, o); }
    else if HasList(m.space, op.class_) { TakesOrder(cfg, m, op.class_, r, m', s, o); }
    else { OpensOrder(cfg, m, op.class_, r, m', s, o); }
  }

  lemma FollowsSmall(cfg: Config, m: Moment, op: Op, r: Outcome, m': Moment)
    requires Follows(cfg, m, op, r, m') && r.Handed?
    ensures op.AllocateSmall?
  {
    hide AllocateFollows, GrowFollows, SmallFollows, Calm, Risky, HeapInOrder, AllListed, Stay, Fewer;
    FollowsAfter(cfg, m, op, r, m');
  }

  lemma {:induction false} OrdersHold(cfg: Config, ops: seq<Op>, outcomes: seq<Outcome>, moments: seq<Moment>,
                                      s: nat, i: nat)
    requires Trace(cfg, ops, outcomes, moments) && i <= |ops|
    ensures s in moments[i].space.pool.slabs ==>
      S.Ordered(moments[i].space.pool, cfg.blocks, s, OrderAt(ops, outcomes, moments, s, i))
  {
    hide Follows, Settled, S.Ordered, Later, HeapInOrder, AllListed;
    if i > 0 {
      OrdersHold(cfg, ops, outcomes, moments, s, i - 1);
      StepKeepsOrder(cfg, moments[i - 1], ops[i - 1], outcomes[i - 1], moments[i], s,
                     OrderAt(ops, outcomes, moments, s, i - 1));
    }
  }

  /** Over any run, the first block handed out of a new slab is block 0, and after that every block handed out
      of a slab is the one given back last of those given back since the slab was opened and free again, and
      if there are none the least that it has never handed out. */
  lemma HandsOutInOrder(cfg: Config, ops: seq<Op>, outcomes: seq<Outcome>, moments: seq<Moment>, i: nat)
    requires Trace(cfg, ops, outcomes, moments) && i < |ops| && ops[i].AllocateSmall? && outcomes[i].Handed?
    ensures var (s, b) := (outcomes[i].slab, outcomes[i].id);
      b == if HasList(moments[i].space, ops[i].class_) then S.Due(OrderAt(ops, outcomes, moments, s, i)) else 0
  {
    hide Follows, Settled, S.Ordered, Later, HasList, HeapInOrder, AllListed, Begins;
    var s := outcomes[i].slab;
    OrdersHold(cfg, ops, outcomes, moments, s, i);
    StepKeepsOrder(cfg, moments[i], ops[i], outcomes[i], moments[i + 1], s, OrderAt(ops, outcomes, moments, s, i));
  }
}
