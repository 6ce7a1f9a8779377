/** Frees from other threads: lock-free stacks that the owner drains, and a teardown after
    which the freeing threads do the accounting.  A step system over sequentially consistent
    atomic actions: every atomic load, store, exchange or read-modify-write is one step. */
module RemoteFree {
  import opened Sequences

  datatype Kind = Slab | Page

  datatype Block = Block(kind: Kind, bytes: nat)

  /** Where a call that frees a block from another thread has got to. */
  datatype Pc =
    | Idle  // not called
    | Entered  // counted in flight
    | Direct  // saw the owner gone before pushing
    | Push  // saw the owner
    | Pushed
    | Sweep  // saw the owner gone after pushing
    | Sweeping(list: seq<nat>)  // charging what it took off the stack
    | Leave
    | Test  // was the last in flight
    | TestOccupied  // and saw the owner gone
    | Done

  /** Where the owner has got to. */
  datatype Stage =
    | Out
    | In  // within a call
    | DrainedSlabs  // batching what it took off the slab stack
    | DrainedPages
    | Finished  // teardown: both stacks have been drained
    | Testing
    | TestingOccupied
    | Gone

  /** Where the accounting of a block stands.  No step looks at this: it only records. */
  datatype Place = Live | Calling | Stacked(kind: Kind) | Drained | Swept(call: nat) | Charged

  /** Blocks are named by one number per allocation.  `charges` counts how often each block's
      bytes have been subtracted from `occupied`. */
  datatype State = State(
    alive: bool, occupied: int, inFlight: int, slabs: seq<nat>, pages: seq<nat>, unmapped: bool,
    stage: Stage, held: seq<nat>, blocks: map<nat, Block>, pc: map<nat, Pc>,
    charges: multiset<nat>, place: map<nat, Place>)

  datatype Step =
    | OwnerEnter
    | OwnerAllocate(id: nat, block: Block)
    | OwnerFree(id: nat)
    | OwnerDrain
    | OwnerCharge
    | OwnerDrainPages
    | OwnerResume
    | OwnerClose
    | OwnerLeave
    | OwnerTest
    | OwnerTestOccupied
    | Enter(id: nat)
    | LoadOwner(id: nat)
    | ChargeOwn(id: nat)
    | PushOwn(id: nat)
    | LoadAgain(id: nat)
    | TakeStack(id: nat)
    | ChargeSwept(id: nat)
    | EndSweep(id: nat)
    | LeaveCall(id: nat)
    | TestOwner(id: nat)
    | TestEmpty(id: nat)

  // ---------- the steps ----------

  function Init(): State
  {
    State(true, 0, 0, [], [], false, Out, [], map[], map[], multiset{}, map[])
  }

  /** A block's bytes are subtracted. */
  function Charge(s: State, i: nat): State
    requires i in s.blocks
  {
    s.(occupied := s.occupied - s.blocks[i].bytes, charges := s.charges + multiset{i}, place := s.place[i := Charged])
  }

  function At(s: State, i: nat, pc: Pc): State
  {
    s.(pc := s.pc[i := pc])
  }

  /** Blocks taken together go to the same place. */
  function Moved(place: map<nat, Place>, list: seq<nat>, p: Place): (r: map<nat, Place>)
    ensures r.Keys == place.Keys
    ensures forall i :: i in place ==> r[i] == if i in list then p else place[i]
  {
    map i | i in place :: if i in list then p else place[i]
  }

  predicate Calls(s: State, i: nat, pc: Pc)
  {
    i in s.blocks && i in s.pc && i in s.place && s.pc[i] == pc
  }

  function StackOf(s: State, i: nat): seq<nat>
    requires i in s.blocks
  {
    if s.blocks[i].kind == Slab then s.slabs else s.pages
  }

  function WithStack(s: State, i: nat, stack: seq<nat>): State
    requires i in s.blocks
  {
    if s.blocks[i].kind == Slab then s.(slabs := stack) else s.(pages := stack)
  }

  predicate Sweeps(s: State, i: nat)
  {
    i in s.blocks && i in s.pc && i in s.place && s.pc[i].Sweeping? && s.pc[i].list != [] && s.pc[i].list[0] in s.blocks
  }

  predicate OwnerEnabled(s: State, t: Step)
  {
    match t
    case OwnerEnter => s.stage == Out
    case OwnerAllocate(i, b) => s.stage == In && s.alive && i !in s.blocks && b.bytes > 0
    case OwnerFree(i) => s.stage == In && s.alive && i in s.blocks && i in s.place && s.place[i] == Live
    case OwnerDrain => s.stage == In
    case OwnerCharge =>
      (s.stage == DrainedSlabs || s.stage == DrainedPages) && s.held != [] && s.held[0] in s.blocks
    case OwnerDrainPages => s.stage == DrainedSlabs && s.held == []
    case OwnerResume => s.stage == DrainedPages && s.held == []
    case OwnerClose => s.stage == In && s.alive
    case OwnerLeave => (s.stage == In && s.alive) || s.stage == Finished
    case OwnerTest => s.stage == Testing
    case OwnerTestOccupied => s.stage == TestingOccupied
    case _ => false
  }

  predicate CallEnabled(s: State, t: Step)
  {
    match t
    case Enter(i) => Calls(s, i, Idle) && s.place[i] == Live
    case LoadOwner(i) => Calls(s, i, Entered)
    case ChargeOwn(i) => Calls(s, i, Direct)
    case PushOwn(i) => Calls(s, i, Push)
    case LoadAgain(i) => Calls(s, i, Pushed)
    case TakeStack(i) => Calls(s, i, Sweep)
    case ChargeSwept(i) => Sweeps(s, i)
    case EndSweep(i) => Calls(s, i, Sweeping([]))
    case LeaveCall(i) => Calls(s, i, Leave)
    case TestOwner(i) => Calls(s, i, Test)
    case TestEmpty(i) => Calls(s, i, TestOccupied)
    case _ => false
  }

  /** The caller's side: blocks are allocated before they are freed, and freed once.  Nothing
      is specified once the region has been unmapped. */
  predicate Enabled(s: State, t: Step)
  {
    !s.unmapped && (OwnerEnabled(s, t) || CallEnabled(s, t))
  }

  function Allocating(s: State, i: nat, b: Block): State
  {
    s.(occupied := s.occupied + b.bytes, blocks := s.blocks[i := b], pc := s.pc[i := Idle], place := s.place[i := Live])
  }

  /** The owner takes a whole stack in one exchange. */
  function Draining(s: State, k: Kind): State
  {
    if k == Slab then
      s.(held := s.slabs, slabs := [], stage := DrainedSlabs, place := Moved(s.place, s.slabs, Drained))
    else
      s.(held := s.pages, pages := [], stage := DrainedPages, place := Moved(s.place, s.pages, Drained))
  }

  function ChargingHeld(s: State): State
    requires s.held != [] && s.held[0] in s.blocks
  {
    Charge(s, s.held[0]).(held := s.held[1..])
  }

  function OwnerApply(s: State, t: Step): State
    requires OwnerEnabled(s, t)
  {
    match t
    case OwnerEnter => s.(stage := In, inFlight := s.inFlight + 1)
    case OwnerAllocate(i, b) => Allocating(s, i, b)
    case OwnerFree(i) => Charge(s, i)
    case OwnerDrain => Draining(s, Slab)
    case OwnerCharge => ChargingHeld(s)
    case OwnerDrainPages => Draining(s, Page)
    case OwnerResume => s.(stage := if s.alive then In else Finished)
    case OwnerClose => s.(alive := false)
    case OwnerLeave =>
      s.(inFlight := s.inFlight - 1, stage := if s.inFlight == 1 then Testing else if s.alive then Out else Gone)
    case OwnerTest => s.(stage := if s.alive then Out else TestingOccupied)
    case OwnerTestOccupied => s.(stage := Gone, unmapped := s.occupied == 0)
  }

  function Entering(s: State, i: nat): State
  {
    At(s, i, Entered).(inFlight := s.inFlight + 1, place := s.place[i := Calling])
  }

  function ChargingOwn(s: State, i: nat): State
    requires i in s.blocks
  {
    At(Charge(s, i), i, Leave)
  }

  function Pushing(s: State, i: nat): State
    requires i in s.blocks
  {
    WithStack(At(s, i, Pushed).(place := s.place[i := Stacked(s.blocks[i].kind)]), i, [i] + StackOf(s, i))
  }

  function Taking(s: State, i: nat): State
    requires i in s.blocks
  {
    WithStack(At(s, i, Sweeping(StackOf(s, i))).(place := Moved(s.place, StackOf(s, i), Swept(i))), i, [])
  }

  function ChargingSwept(s: State, i: nat): State
    requires Sweeps(s, i)
  {
    At(Charge(s, s.pc[i].list[0]), i, Sweeping(s.pc[i].list[1..]))
  }

  function CallApply(s: State, t: Step): State
    requires CallEnabled(s, t)
  {
    match t
    case Enter(i) => Entering(s, i)
    case LoadOwner(i) => At(s, i, if s.alive then Push else Direct)
    case ChargeOwn(i) => ChargingOwn(s, i)
    case PushOwn(i) => Pushing(s, i)
    case LoadAgain(i) => At(s, i, if s.alive then Leave else Sweep)
    case TakeStack(i) => Taking(s, i)
    case ChargeSwept(i) => ChargingSwept(s, i)
    case EndSweep(i) => At(s, i, Leave)
    case LeaveCall(i) => At(s, i, if s.inFlight == 1 then Test else Done).(inFlight := s.inFlight - 1)
    case TestOwner(i) => At(s, i, if s.alive then Done else TestOccupied)
    case TestEmpty(i) => At(s, i, Done).(unmapped := s.occupied == 0)
  }

  function Apply(s: State, t: Step): State
    requires Enabled(s, t)
  {
    if OwnerEnabled(s, t) then OwnerApply(s, t) else CallApply(s, t)
  }

  /** The state after a run of steps, if each is enabled in its turn. */
  ghost predicate Reaches(s: State, run: seq<Step>, s': State)
    decreases |run|
  {
    if run == [] then s' == s
    else Enabled(s, run[0]) && Reaches(Apply(s, run[0]), run[1..], s')
  }

  // ---------- every uncharged block is in exactly one place ----------

  /** `l` lists exactly the blocks at `p`. */
  ghost predicate Lists(l: seq<nat>, place: map<nat, Place>, p: Place)
  {
    NoDup(l) && forall i :: i in l <==> i in place && place[i] == p
  }

  lemma ListsSet(l: seq<nat>, place: map<nat, Place>, p: Place, i: nat, q: Place)
    requires Lists(l, place, p) && q != p && (i in place ==> place[i] != p)
    ensures Lists(l, place[i := q], p)
  {
  }

  lemma ListsPush(l: seq<nat>, place: map<nat, Place>, p: Place, i: nat)
    requires Lists(l, place, p) && (i in place ==> place[i] != p)
    ensures Lists([i] + l, place[i := p], p)
  {
    assert i !in l;
    var l' := [i] + l;
    forall a, b | 0 <= a < b < |l'| ensures l'[a] != l'[b] {
      if a == 0 { assert l'[b] in l; }
    }
  }

  lemma ListsPop(l: seq<nat>, place: map<nat, Place>, p: Place, q: Place)
    requires l != [] && Lists(l, place, p) && q != p
    ensures l[0] in place && place[l[0]] == p && Lists(l[1..], place[l[0] := q], p)
  {
    assert l == [l[0]] + l[1..];
    assert l[0] in l;
    forall i ensures i in l[1..] <==> i in l && i != l[0] {
      if i in l[1..] {
        var a :| 0 <= a < |l[1..]| && l[1..][a] == i;
        assert l[a + 1] == i;
      }
    }
  }

  lemma ListsTaken(l: seq<nat>, place: map<nat, Place>, p: Place, q: Place)
    requires Lists(l, place, p) && Lists([], place, q) && p != q
    ensures Lists(l, Moved(place, l, q), q) && Lists([], Moved(place, l, q), p)
  {
  }

  lemma ListsElsewhere(l: seq<nat>, place: map<nat, Place>, p: Place, q: Place, r: Place, m: seq<nat>)
    requires Lists(l, place, p) && Lists(m, place, r) && r != p && r != q
    ensures Lists(m, Moved(place, l, q), r)
  {
  }

  predicate OwnCall(pc: Pc)
  {
    pc == Entered || pc == Direct || pc == Push
  }

  function SweepList(pc: map<nat, Pc>, j: nat): seq<nat>
  {
    if j in pc && pc[j].Sweeping? then pc[j].list else []
  }

  ghost predicate Keyed(s: State)
  {
    && s.place.Keys == s.blocks.Keys == s.pc.Keys
    && forall i :: i in s.blocks ==> s.blocks[i].bytes > 0
  }

  /** The stacks and lists hold exactly the blocks recorded there. */
  ghost predicate Listed(s: State)
  {
    && Lists(s.slabs, s.place, Stacked(Slab)) && Lists(s.pages, s.place, Stacked(Page))
    && Lists(s.held, s.place, Drained)
    && (s.held != [] ==> s.stage == DrainedSlabs || s.stage == DrainedPages)
    && forall j: nat :: Lists(SweepList(s.pc, j), s.place, Swept(j))
  }

  predicate Fits(p: Place, pc: Pc, k: Kind)
  {
    && (p == Calling <==> OwnCall(pc)) && (p == Live ==> pc == Idle) && (pc == Idle ==> p == Live || p == Charged)
    && (p.Stacked? ==> p.kind == k)
  }

  predicate FitsAt(s: State, i: nat)
  {
    i in s.blocks && i in s.place && i in s.pc ==> Fits(s.place[i], s.pc[i], s.blocks[i].kind)
  }

  /** A block that no list holds is live, charged, or in the hands of its own call. */
  ghost predicate Called(s: State)
  {
    forall i: nat :: FitsAt(s, i)
  }

  /** Charged once if the record says so, and otherwise not at all. */
  ghost predicate ChargedOnce(s: State)
  {
    forall i: nat :: s.charges[i] == if i in s.place && s.place[i] == Charged then 1 else 0
  }

  /** What the blocks not yet charged add up to. */
  ghost function Total(blocks: map<nat, Block>, ids: set<nat>): int
    requires ids <= blocks.Keys
    decreases |ids|
  {
    if ids == {} then 0
    else
      var i :| i in ids;
      blocks[i].bytes + Total(blocks, ids - {i})
  }

  ghost function Uncharged(s: State): set<nat>
  {
    set i | i in s.blocks && i in s.place && s.place[i] != Charged
  }

  /** The accounting: every block is where it is recorded to be, and `occupied` is the sum of
      those not charged. */
  ghost predicate Books(s: State)
  {
    && Keyed(s) && Listed(s) && Called(s) && ChargedOnce(s)
    && s.occupied == Total(s.blocks, Uncharged(s))
  }

  lemma {:induction false} TotalWithout(blocks: map<nat, Block>, ids: set<nat>, i: nat)
    requires ids <= blocks.Keys && i in ids
    ensures Total(blocks, ids) == blocks[i].bytes + Total(blocks, ids - {i})
    decreases |ids|
  {
    var j :| j in ids && Total(blocks, ids) == blocks[j].bytes + Total(blocks, ids - {j});
    if j != i {
      TotalWithout(blocks, ids - {j}, i);
      TotalWithout(blocks, ids - {i}, j);
      assert ids - {j} - {i} == ids - {i} - {j};
    }
  }

  lemma {:induction false} TotalFrame(blocks: map<nat, Block>, blocks': map<nat, Block>, ids: set<nat>)
    requires ids <= blocks.Keys && ids <= blocks'.Keys
    requires forall i :: i in ids ==> blocks'[i] == blocks[i]
    ensures Total(blocks', ids) == Total(blocks, ids)
    decreases |ids|
  {
    if ids != {} {
      var i :| i in ids;
      TotalWithout(blocks, ids, i);
      TotalWithout(blocks', ids, i);
      TotalFrame(blocks, blocks', ids - {i});
    }
  }

  lemma {:induction false} TotalZero(blocks: map<nat, Block>, ids: set<nat>)
    requires ids <= blocks.Keys && forall i :: i in ids ==> blocks[i].bytes > 0
    ensures Total(blocks, ids) >= 0 && (Total(blocks, ids) == 0 <==> ids == {})
    decreases |ids|
  {
    if ids != {} {
      var i :| i in ids;
      TotalWithout(blocks, ids, i);
      TotalZero(blocks, ids - {i});
    }
  }

  // ---------- each step keeps the accounting ----------

  ghost predicate SameSweeps(pc: map<nat, Pc>, pc': map<nat, Pc>)
  {
    forall j: nat :: SweepList(pc', j) == SweepList(pc, j)
  }

  /** A block that is in none of the lists moves to none of them. */
  lemma ListedSet(s: State, i: nat, q: Place, s': State)
    requires Listed(s) && (i in s.place ==> s.place[i] == Live || s.place[i] == Calling)
    requires q == Live || q == Calling || q == Charged
    requires s'.slabs == s.slabs && s'.pages == s.pages && s'.held == s.held && s'.stage == s.stage
    requires s'.place == s.place[i := q] && SameSweeps(s.pc, s'.pc)
    ensures Listed(s')
  {
    hide Lists, SweepList;
    ListsSet(s.slabs, s.place, Stacked(Slab), i, q);
    ListsSet(s.pages, s.place, Stacked(Page), i, q);
    ListsSet(s.held, s.place, Drained, i, q);
    forall j: nat ensures Lists(SweepList(s'.pc, j), s'.place, Swept(j)) {
      ListsSet(SweepList(s.pc, j), s.place, Swept(j), i, q);
    }
  }

  ghost predicate SameAt(s: State, s': State, i: nat)
  {
    && (i in s'.blocks ==> i in s.blocks && s'.blocks[i] == s.blocks[i])
    && (i in s'.place ==> i in s.place && s'.place[i] == s.place[i])
    && (i in s'.pc ==> i in s.pc && s'.pc[i] == s.pc[i])
  }

  lemma CalledStill(s: State, s': State, changed: set<nat>)
    requires Called(s) && forall i: nat :: i !in changed ==> SameAt(s, s', i)
    requires forall i :: i in changed ==> FitsAt(s', i)
    ensures Called(s')
  {
    forall i: nat ensures FitsAt(s', i) {
      assert FitsAt(s, i);
      if i !in changed { assert SameAt(s, s', i); }
    }
  }

  lemma FitsHere(s: State, i: nat)
    requires Called(s)
    ensures FitsAt(s, i)
  {
  }

  /** Steps that touch no block's accounting. */
  lemma WalkKeepsBooks(s: State, s': State, i: nat, x: Pc)
    requires Books(s) && i in s.pc && s'.pc == s.pc[i := x]
    requires x != Idle && s.pc[i] != Idle && (OwnCall(x) <==> OwnCall(s.pc[i]))
    requires SweepList(s'.pc, i) == SweepList(s.pc, i)
    requires s'.blocks == s.blocks && s'.place == s.place && s'.charges == s.charges && s'.occupied == s.occupied
    requires s'.slabs == s.slabs && s'.pages == s.pages && s'.held == s.held && s'.stage == s.stage
    ensures Books(s')
  {
    hide Lists, Total, Called, ChargedOnce;
    assert SameSweeps(s.pc, s'.pc);
    FitsHere(s, i);
    CalledStill(s, s', {i});
    assert ChargedOnce(s') by { SameCharges(s, s'); }
    assert Uncharged(s') == Uncharged(s);
  }

  lemma SameCharges(s: State, s': State)
    requires ChargedOnce(s) && s'.charges == s.charges && s'.place == s.place
    ensures ChargedOnce(s')
  {
  }

  lemma OwnerWalkKeepsBooks(s: State, s': State)
    requires Books(s) && s'.pc == s.pc
    requires s'.blocks == s.blocks && s'.place == s.place && s'.charges == s.charges && s'.occupied == s.occupied
    requires s'.slabs == s.slabs && s'.pages == s.pages && s'.held == s.held
    requires s.held != [] ==> s'.stage == s.stage
    ensures Books(s')
  {
    hide Lists, Total, Called, ChargedOnce;
    CalledStill(s, s', {});
    SameCharges(s, s');
    assert Uncharged(s') == Uncharged(s);
  }

  /** A block not yet charged is charged. */
  lemma ChargeCounts(s: State, i: nat)
    requires Keyed(s) && ChargedOnce(s) && i in s.blocks && s.place[i] != Charged
    requires s.occupied == Total(s.blocks, Uncharged(s))
    ensures Keyed(Charge(s, i)) && ChargedOnce(Charge(s, i))
    ensures Charge(s, i).occupied == Total(s.blocks, Uncharged(Charge(s, i)))
  {
    hide Total;
    TotalWithout(s.blocks, Uncharged(s), i);
    assert Uncharged(Charge(s, i)) == Uncharged(s) - {i};
  }

  lemma SameTotal(s: State, s': State)
    requires Keyed(s) && s'.blocks == s.blocks && s'.place.Keys == s.place.Keys
    requires forall i :: i in s.place ==> (s'.place[i] == Charged <==> s.place[i] == Charged)
    ensures Uncharged(s') == Uncharged(s)
    ensures s'.charges == s.charges && ChargedOnce(s) ==> ChargedOnce(s')
  {
  }

  lemma AllocatingKeepsCalled(s: State, i: nat, b: Block)
    requires Keyed(s) && Called(s) && i !in s.blocks && b.bytes > 0
    ensures Keyed(Allocating(s, i, b)) && Called(Allocating(s, i, b))
    ensures SameSweeps(s.pc, Allocating(s, i, b).pc)
  {
    CalledStill(s, Allocating(s, i, b), {i});
  }

  lemma AllocatingCounts(s: State, i: nat, b: Block)
    requires Keyed(s) && ChargedOnce(s) && i !in s.blocks && s.occupied == Total(s.blocks, Uncharged(s))
    ensures ChargedOnce(Allocating(s, i, b))
    ensures Allocating(s, i, b).occupied == Total(Allocating(s, i, b).blocks, Uncharged(Allocating(s, i, b)))
  {
    hide Total;
    var s' := Allocating(s, i, b);
    assert Uncharged(s') == Uncharged(s) + {i};
    TotalWithout(s'.blocks, Uncharged(s'), i);
    assert Uncharged(s') - {i} == Uncharged(s);
    TotalFrame(s.blocks, s'.blocks, Uncharged(s));
  }

  lemma AllocatingKeepsBooks(s: State, i: nat, b: Block)
    requires Books(s) && i !in s.blocks && b.bytes > 0
    ensures Books(Allocating(s, i, b))
  {
    hide Listed, Called, ChargedOnce, Total, SameSweeps;
    AllocatingKeepsCalled(s, i, b);
    AllocatingCounts(s, i, b);
    ListedSet(s, i, Live, Allocating(s, i, b));
  }

  lemma FreeingKeepsBooks(s: State, i: nat)
    requires Books(s) && i in s.blocks && s.place[i] == Live
    ensures Books(Charge(s, i))
  {
    var s' := Charge(s, i);
    hide ChargedOnce, Total, Lists;
    ListedSet(s, i, Charged, s');
    FitsHere(s, i);
    CalledStill(s, s', {i});
    ChargeCounts(s, i);
  }

  lemma OwnerTakes(s: State, k: Kind)
    requires Listed(s) && s.held == []
    ensures Listed(Draining(s, k))
  {
    hide Lists, Moved, SweepList;
    var l := if k == Slab then s.slabs else s.pages;
    var other := Stacked(if k == Slab then Page else Slab);
    ListsTaken(l, s.place, Stacked(k), Drained);
    ListsElsewhere(l, s.place, Stacked(k), Drained, other, if k == Slab then s.pages else s.slabs);
    var s' := Draining(s, k);
    forall j: nat ensures Lists(SweepList(s'.pc, j), s'.place, Swept(j)) {
      ListsElsewhere(l, s.place, Stacked(k), Drained, Swept(j), SweepList(s.pc, j));
    }
  }

  lemma StackPlaces(s: State, k: Kind)
    requires Listed(s)
    ensures forall i :: i in (if k == Slab then s.slabs else s.pages) ==> i in s.place && s.place[i] == Stacked(k)
  {
  }

  lemma DrainingKeepsCalled(s: State, k: Kind)
    requires Keyed(s) && Listed(s) && Called(s)
    ensures Keyed(Draining(s, k)) && Called(Draining(s, k))
    ensures forall j :: j in s.place ==> (Draining(s, k).place[j] == Charged <==> s.place[j] == Charged)
  {
    hide Listed, Moved;
    StackPlaces(s, k);
    forall i: nat ensures FitsAt(Draining(s, k), i) {
      FitsHere(s, i);
    }
  }

  lemma DrainingKeepsBooks(s: State, k: Kind)
    requires Books(s) && s.held == []
    ensures Books(Draining(s, k))
  {
    hide Listed, Called, ChargedOnce, Total, Uncharged;
    OwnerTakes(s, k);
    DrainingKeepsCalled(s, k);
    SameTotal(s, Draining(s, k));
  }

  lemma ChargingHeldKeepsBooks(s: State)
    requires Books(s) && s.held != []
    ensures s.held[0] in s.blocks && Books(ChargingHeld(s))
  {
    hide Lists, Total, ChargedOnce;
    var i := s.held[0];
    ListsPop(s.held, s.place, Drained, Charged);
    var s' := ChargingHeld(s);
    ListsSet(s.slabs, s.place, Stacked(Slab), i, Charged);
    ListsSet(s.pages, s.place, Stacked(Page), i, Charged);
    forall j: nat ensures Lists(SweepList(s'.pc, j), s'.place, Swept(j)) {
      ListsSet(SweepList(s.pc, j), s.place, Swept(j), i, Charged);
    }
    FitsHere(s, i);
    CalledStill(s, s', {i});
    hide Called;
    ChargeCounts(s, i);
    SameCharges(Charge(s, i), s');
  }

  lemma EnteringKeepsCalled(s: State, i: nat)
    requires Keyed(s) && Called(s) && Calls(s, i, Idle) && s.place[i] == Live
    ensures Keyed(Entering(s, i)) && Called(Entering(s, i)) && SameSweeps(s.pc, Entering(s, i).pc)
  {
    CalledStill(s, Entering(s, i), {i});
  }

  lemma EnteringKeepsBooks(s: State, i: nat)
    requires Books(s) && Calls(s, i, Idle) && s.place[i] == Live
    ensures Books(Entering(s, i))
  {
    hide Listed, Called, ChargedOnce, Total, SameSweeps, Uncharged;
    EnteringKeepsCalled(s, i);
    ListedSet(s, i, Calling, Entering(s, i));
    SameTotal(s, Entering(s, i));
  }

  lemma ChargingOwnKeepsCalled(s: State, i: nat)
    requires Keyed(s) && Called(s) && Calls(s, i, Direct)
    ensures s.place[i] == Calling && SameSweeps(s.pc, ChargingOwn(s, i).pc)
    ensures Keyed(ChargingOwn(s, i)) && Called(ChargingOwn(s, i))
  {
    FitsHere(s, i);
    CalledStill(s, ChargingOwn(s, i), {i});
  }

  lemma ChargingOwnKeepsBooks(s: State, i: nat)
    requires Books(s) && Calls(s, i, Direct)
    ensures Books(ChargingOwn(s, i))
  {
    hide Listed, Called, ChargedOnce, Total, SameSweeps, Uncharged;
    ChargingOwnKeepsCalled(s, i);
    ListedSet(s, i, Charged, ChargingOwn(s, i));
    ChargeCounts(s, i);
    SameCharges(Charge(s, i), ChargingOwn(s, i));
    SameTotal(Charge(s, i), ChargingOwn(s, i));
  }

  lemma PushingKeepsListed(s: State, i: nat)
    requires Listed(s) && i in s.blocks && i in s.place && i in s.pc && s.place[i] == Calling && s.pc[i] == Push
    ensures Listed(Pushing(s, i))
  {
    hide Lists;
    var k := s.blocks[i].kind;
    var s' := Pushing(s, i);
    ListsPush(StackOf(s, i), s.place, Stacked(k), i);
    ListsSet(if k == Slab then s.pages else s.slabs, s.place, Stacked(if k == Slab then Page else Slab), i, Stacked(k));
    ListsSet(s.held, s.place, Drained, i, Stacked(k));
    assert SameSweeps(s.pc, s'.pc);
    forall j: nat ensures Lists(SweepList(s'.pc, j), s'.place, Swept(j)) {
      ListsSet(SweepList(s.pc, j), s.place, Swept(j), i, Stacked(k));
    }
  }

  lemma PushingKeepsCalled(s: State, i: nat)
    requires Keyed(s) && Called(s) && Calls(s, i, Push)
    ensures s.place[i] == Calling && Keyed(Pushing(s, i)) && Called(Pushing(s, i))
  {
    FitsHere(s, i);
    CalledStill(s, Pushing(s, i), {i});
  }

  lemma PushingKeepsBooks(s: State, i: nat)
    requires Books(s) && Calls(s, i, Push)
    ensures Books(Pushing(s, i))
  {
    hide Listed, Called, ChargedOnce, Total, Uncharged;
    PushingKeepsCalled(s, i);
    PushingKeepsListed(s, i);
    SameTotal(s, Pushing(s, i));
  }

  lemma TakingKeepsListed(s: State, i: nat)
    requires Listed(s) && Calls(s, i, Sweep)
    ensures Listed(Taking(s, i))
  {
    hide Lists, Moved;
    var k, l := s.blocks[i].kind, StackOf(s, i);
    var s' := Taking(s, i);
    var other := Stacked(if k == Slab then Page else Slab);
    assert SweepList(s.pc, i) == [];
    ListsTaken(l, s.place, Stacked(k), Swept(i));
    ListsElsewhere(l, s.place, Stacked(k), Swept(i), other, if k == Slab then s.pages else s.slabs);
    ListsElsewhere(l, s.place, Stacked(k), Swept(i), Drained, s.held);
    forall j: nat ensures Lists(SweepList(s'.pc, j), s'.place, Swept(j)) {
      if j != i { ListsElsewhere(l, s.place, Stacked(k), Swept(i), Swept(j), SweepList(s.pc, j)); }
    }
  }

  lemma TakingKeepsKeyed(s: State, i: nat)
    requires Keyed(s) && Listed(s) && Calls(s, i, Sweep)
    ensures Keyed(Taking(s, i))
    ensures forall j :: j in s.place ==> (Taking(s, i).place[j] == Charged <==> s.place[j] == Charged)
  {
    hide Listed, Moved;
    StackPlaces(s, s.blocks[i].kind);
  }

  lemma TakingKeepsCalled(s: State, i: nat)
    requires Keyed(s) && Listed(s) && Called(s) && Calls(s, i, Sweep)
    ensures Called(Taking(s, i))
  {
    hide Listed, Moved;
    StackPlaces(s, s.blocks[i].kind);
    var s' := Taking(s, i);
    forall j: nat ensures FitsAt(s', j) {
      FitsHere(s, j);
      hide Called;
      if j in s.place {
        assert s'.place[j] == if j in StackOf(s, i) then Swept(i) else s.place[j];
      }
    }
  }

  lemma TakingKeepsBooks(s: State, i: nat)
    requires Books(s) && Calls(s, i, Sweep)
    ensures Books(Taking(s, i))
  {
    hide Listed, Called, ChargedOnce, Total, Uncharged;
    TakingKeepsKeyed(s, i);
    TakingKeepsCalled(s, i);
    TakingKeepsListed(s, i);
    SameTotal(s, Taking(s, i));
  }

  lemma SweepingKeepsListed(s: State, i: nat)
    requires Listed(s) && Sweeps(s, i)
    ensures var j := s.pc[i].list[0]; j in s.place && s.place[j] == Swept(i)
    ensures Listed(ChargingSwept(s, i))
  {
    hide Lists;
    var l := s.pc[i].list;
    var s' := ChargingSwept(s, i);
    assert SweepList(s.pc, i) == l;
    ListsPop(l, s.place, Swept(i), Charged);
    ListsSet(s.slabs, s.place, Stacked(Slab), l[0], Charged);
    ListsSet(s.pages, s.place, Stacked(Page), l[0], Charged);
    ListsSet(s.held, s.place, Drained, l[0], Charged);
    forall j: nat ensures Lists(SweepList(s'.pc, j), s'.place, Swept(j)) {
      if j != i { ListsSet(SweepList(s.pc, j), s.place, Swept(j), l[0], Charged); }
    }
  }

  lemma ChargingSweptKeepsCalled(s: State, i: nat)
    requires Keyed(s) && Called(s) && Sweeps(s, i) && s.place[s.pc[i].list[0]].Swept?
    ensures Keyed(ChargingSwept(s, i)) && Called(ChargingSwept(s, i))
  {
    FitsHere(s, i);
    FitsHere(s, s.pc[i].list[0]);
    CalledStill(s, ChargingSwept(s, i), {i, s.pc[i].list[0]});
  }

  lemma ChargingSweptKeepsBooks(s: State, i: nat)
    requires Books(s) && Sweeps(s, i)
    ensures Books(ChargingSwept(s, i))
  {
    hide Listed, Called, ChargedOnce, Total, Uncharged;
    var j := s.pc[i].list[0];
    SweepingKeepsListed(s, i);
    ChargingSweptKeepsCalled(s, i);
    ChargeCounts(s, j);
    SameCharges(Charge(s, j), ChargingSwept(s, i));
    SameTotal(Charge(s, j), ChargingSwept(s, i));
  }


  // ---------- calls in flight, teardown and unmapping ----------

  predicate InCall(pc: Pc)
  {
    !pc.Idle? && !pc.Test? && !pc.TestOccupied? && !pc.Done?
  }

  predicate Guarded(stage: Stage)
  {
    stage == In || stage == DrainedSlabs || stage == DrainedPages || stage == Finished
  }

  ghost function Active(pc: map<nat, Pc>): set<nat>
  {
    set i | i in pc && InCall(pc[i])
  }

  /** `inFlight` counts the calls, and the owner if it is within one. */
  ghost predicate Flight(s: State)
  {
    s.inFlight == |Active(s.pc)| + if Guarded(s.stage) then 1 else 0
  }

  /** What is on the stack was pushed by calls that have yet to look at the owner again. */
  ghost predicate Unseen(l: seq<nat>, pc: map<nat, Pc>)
  {
    forall i :: i in l ==> i in pc && (pc[i] == Pushed || pc[i] == Sweep)
  }

  /** Once teardown has drained a stack, whoever pushes onto it will sweep it. */
  ghost predicate Closing(s: State)
  {
    && (s.alive ==> s.stage != Finished && s.stage != TestingOccupied && s.stage != Gone)
    && (!s.alive ==> s.stage != Out)
    && (!s.alive && s.stage != In ==> Unseen(s.slabs, s.pc))
    && (!s.alive && s.stage != In && s.stage != DrainedSlabs ==> Unseen(s.pages, s.pc))
  }

  ghost predicate Testers(s: State)
  {
    s.stage == Testing || s.stage == TestingOccupied ||
    exists i :: i in s.pc && (s.pc[i] == Test || s.pc[i] == TestOccupied)
  }

  /** An empty region that nobody uses is unmapped, or somebody is about to test it. */
  ghost predicate Watched(s: State)
  {
    !s.alive && s.inFlight == 0 && s.occupied == 0 && !s.unmapped ==> Testers(s)
  }

  /** The region is unmapped only when it is empty and the owner is gone. */
  ghost predicate Safe(s: State)
  {
    && (s.unmapped ==> !s.alive && s.occupied == 0)
    && forall i :: i in s.pc && s.pc[i] == TestOccupied ==> !s.alive
  }

  ghost predicate Control(s: State)
  {
    Flight(s) && Closing(s) && Watched(s) && Safe(s)
  }

  lemma FlightStep(pc: map<nat, Pc>, i: nat, x: Pc)
    requires i in pc
    ensures |Active(pc[i := x])| == |Active(pc)| + (if InCall(x) then 1 else 0) - (if InCall(pc[i]) then 1 else 0)
  {
    var a, b := Active(pc), Active(pc[i := x]);
    if InCall(x) && !InCall(pc[i]) { assert b == a + {i}; }
    else if !InCall(x) && InCall(pc[i]) { assert b == a - {i}; }
    else { assert b == a; }
  }

  lemma InFlightPositive(s: State, i: nat)
    requires Flight(s) && i in s.pc && InCall(s.pc[i])
    ensures s.inFlight >= 1
  {
    assert i in Active(s.pc);
  }

  /** A call takes a step of its own, and neither stack changes. */
  lemma CallWalks(s: State, s': State, i: nat, x: Pc)
    requires Control(s) && i in s.pc && s'.pc == s.pc[i := x] && !s.unmapped
    requires InCall(s.pc[i]) && InCall(x) && s'.inFlight == s.inFlight
    requires s'.alive == s.alive && s'.stage == s.stage && s'.unmapped == s.unmapped
    requires s'.slabs == s.slabs && s'.pages == s.pages
    requires (s.pc[i] == Pushed || s.pc[i] == Sweep) && !s.alive ==> x == Sweep
    ensures Control(s')
  {
    FlightStep(s.pc, i, x);
    InFlightPositive(s, i);
    hide Active;
  }

  lemma ChargeKeepsControl(s: State, s': State, i: nat, x: Pc)
    requires Control(s) && i in s.pc && s'.pc == s.pc[i := x] && !s.unmapped
    requires InCall(s.pc[i]) && InCall(x) && s'.inFlight == s.inFlight
    requires s'.alive == s.alive && s'.stage == s.stage && s'.unmapped == s.unmapped
    requires s'.slabs == s.slabs && s'.pages == s.pages && s.pc[i] != Pushed && s.pc[i] != Sweep
    ensures Control(s')
  {
    CallWalks(s, s', i, x);
  }

  lemma EnteringKeepsControl(s: State, i: nat)
    requires Control(s) && Calls(s, i, Idle) && !s.unmapped
    ensures Control(Entering(s, i))
  {
    FlightStep(s.pc, i, Entered);
    hide Active;
  }

  lemma LeavingKeepsControl(s: State, i: nat)
    requires Control(s) && Calls(s, i, Leave) && !s.unmapped
    ensures Control(CallApply(s, LeaveCall(i)))
  {
    var s' := CallApply(s, LeaveCall(i));
    FlightStep(s.pc, i, s'.pc[i]);
    InFlightPositive(s, i);
    hide Active;
    assert s'.inFlight == 0 ==> s'.pc[i] == Test;
  }

  lemma TestingKeepsControl(s: State, t: Step)
    requires Control(s) && !s.unmapped && (t.TestOwner? || t.TestEmpty?) && CallEnabled(s, t)
    ensures Control(CallApply(s, t))
  {
    var i := t.id;
    var s' := CallApply(s, t);
    FlightStep(s.pc, i, s'.pc[i]);
    hide Active;
    if t.TestOwner? && !s.alive { assert s'.pc[i] == TestOccupied; }
    if t.TestEmpty? && s.occupied == 0 { assert s'.unmapped; }
  }

  lemma PushingKeepsControl(s: State, i: nat)
    requires Control(s) && Calls(s, i, Push) && !s.unmapped
    ensures Control(Pushing(s, i))
  {
    FlightStep(s.pc, i, Pushed);
    InFlightPositive(s, i);
    hide Active;
  }

  /** A block is on the stack of its kind, if on any. */
  lemma OwnStack(s: State, i: nat)
    requires Keyed(s) && Listed(s) && Called(s) && i in s.blocks
    ensures i !in (if s.blocks[i].kind == Slab then s.pages else s.slabs)
  {
    FitsHere(s, i);
  }

  lemma TakingKeepsControl(s: State, i: nat)
    requires Books(s) && Control(s) && Calls(s, i, Sweep) && !s.unmapped
    ensures Control(Taking(s, i))
  {
    OwnStack(s, i);
    hide Books, Moved, Active;
    FlightStep(s.pc, i, Sweeping(StackOf(s, i)));
    InFlightPositive(s, i);
  }

  lemma OwnerKeepsControl(s: State, t: Step)
    requires Control(s) && OwnerEnabled(s, t) && !s.unmapped && !t.OwnerAllocate?
    ensures Control(OwnerApply(s, t))
  {
    hide Active, Moved;
  }

  lemma AllocatingKeepsControl(s: State, i: nat, b: Block)
    requires Control(s) && s.alive && s.stage == In && b.bytes > 0 && i !in s.pc && !s.unmapped
    ensures Control(Allocating(s, i, b))
  {
    assert Active(s.pc[i := Idle]) == Active(s.pc);
  }

  // ---------- over every run ----------

  ghost predicate Inv(s: State)
  {
    Books(s) && Control(s)
  }

  lemma InitInv()
    ensures Inv(Init())
  {
    var s := Init();
    assert Active(s.pc) == {};
    assert Uncharged(s) == {};
  }

  lemma OwnerKeeps(s: State, t: Step)
    requires Inv(s) && !s.unmapped && OwnerEnabled(s, t)
    ensures Inv(OwnerApply(s, t))
  {
    BooksGive(s);
    hide Books, Control;
    match t
    case OwnerAllocate(i, b) =>
      AllocatingKeepsBooks(s, i, b);
      AllocatingKeepsControl(s, i, b);
    case OwnerFree(i) =>
      FreeingKeepsBooks(s, i);
      OwnerKeepsControl(s, t);
    case OwnerDrain =>
      DrainingKeepsBooks(s, Slab);
      OwnerKeepsControl(s, t);
    case OwnerDrainPages =>
      DrainingKeepsBooks(s, Page);
      OwnerKeepsControl(s, t);
    case OwnerCharge =>
      ChargingHeldKeepsBooks(s);
      OwnerKeepsControl(s, t);
    case OwnerEnter =>
      OwnerWalkKeepsBooks(s, OwnerApply(s, t));
      OwnerKeepsControl(s, t);
    case OwnerResume =>
      OwnerWalkKeepsBooks(s, OwnerApply(s, t));
      OwnerKeepsControl(s, t);
    case OwnerClose =>
      OwnerWalkKeepsBooks(s, OwnerApply(s, t));
      OwnerKeepsControl(s, t);
    case OwnerLeave =>
      OwnerWalkKeepsBooks(s, OwnerApply(s, t));
      OwnerKeepsControl(s, t);
    case OwnerTest =>
      OwnerWalkKeepsBooks(s, OwnerApply(s, t));
      OwnerKeepsControl(s, t);
    case OwnerTestOccupied =>
      OwnerWalkKeepsBooks(s, OwnerApply(s, t));
      OwnerKeepsControl(s, t);
  }

  lemma BooksGive(s: State)
    requires Books(s)
    ensures s.place.Keys == s.blocks.Keys == s.pc.Keys
    ensures s.held != [] ==> s.stage == DrainedSlabs || s.stage == DrainedPages
  {
  }

  lemma SweepLists(pc: map<nat, Pc>, i: nat, x: Pc)
    requires i in pc
    ensures SweepList(pc[i := x], i) == (if x.Sweeping? then x.list else [])
    ensures SweepList(pc, i) == (if pc[i].Sweeping? then pc[i].list else [])
  {
  }

  /** Steps that move a block's accounting. */
  lemma BlockStepKeeps(s: State, t: Step)
    requires Inv(s) && !s.unmapped && CallEnabled(s, t)
    requires t.Enter? || t.ChargeOwn? || t.PushOwn? || t.TakeStack? || t.ChargeSwept?
    ensures Inv(CallApply(s, t))
  {
    BooksGive(s);
    hide Books, Control, Moved, SweepList;
    var i := t.id;
    match t
    case Enter(_) =>
      EnteringKeepsBooks(s, i);
      EnteringKeepsControl(s, i);
    case ChargeOwn(_) =>
      ChargingOwnKeepsBooks(s, i);
      ChargeKeepsControl(s, ChargingOwn(s, i), i, Leave);
    case PushOwn(_) =>
      PushingKeepsBooks(s, i);
      PushingKeepsControl(s, i);
    case TakeStack(_) =>
      TakingKeepsBooks(s, i);
      TakingKeepsControl(s, i);
    case ChargeSwept(_) =>
      ChargingSweptKeepsBooks(s, i);
      ChargeKeepsControl(s, ChargingSwept(s, i), i, Sweeping(s.pc[i].list[1..]));
  }

  predicate Walks(t: Step)
  {
    t.LoadOwner? || t.LoadAgain? || t.EndSweep? || t.LeaveCall? || t.TestOwner? || t.TestEmpty?
  }

  /** Steps that only move the call on. */
  lemma WalkMoves(s: State, t: Step)
    requires CallEnabled(s, t) && Walks(t)
    ensures var s' := CallApply(s, t);
      && t.id in s.pc && t.id in s'.pc && s'.pc == s.pc[t.id := s'.pc[t.id]]
      && s'.pc[t.id] != Idle && s.pc[t.id] != Idle && (OwnCall(s'.pc[t.id]) <==> OwnCall(s.pc[t.id]))
      && SweepList(s'.pc, t.id) == SweepList(s.pc, t.id)
      && s'.blocks == s.blocks && s'.place == s.place && s'.charges == s.charges && s'.occupied == s.occupied
      && s'.slabs == s.slabs && s'.pages == s.pages && s'.held == s.held && s'.stage == s.stage
  {
    hide SweepList;
    SweepLists(s.pc, t.id, CallApply(s, t).pc[t.id]);
  }

  lemma WalkStepKeepsBooks(s: State, t: Step)
    requires Books(s) && CallEnabled(s, t) && Walks(t)
    ensures Books(CallApply(s, t))
  {
    WalkMoves(s, t);
    hide *;
    var s' := CallApply(s, t);
    WalkKeepsBooks(s, s', t.id, s'.pc[t.id]);
  }

  lemma WalkStepKeepsControl(s: State, t: Step)
    requires Control(s) && !s.unmapped && CallEnabled(s, t) && Walks(t)
    ensures Control(CallApply(s, t))
  {
    hide Control;
    var i := t.id;
    match t
    case LoadOwner(_) => CallWalks(s, CallApply(s, t), i, if s.alive then Push else Direct);
    case LoadAgain(_) => CallWalks(s, CallApply(s, t), i, if s.alive then Leave else Sweep);
    case EndSweep(_) => CallWalks(s, CallApply(s, t), i, Leave);
    case LeaveCall(_) => LeavingKeepsControl(s, i);
    case TestOwner(_) => TestingKeepsControl(s, t);
    case TestEmpty(_) => TestingKeepsControl(s, t);
  }

  lemma StepKeeps(s: State, t: Step)
    requires Inv(s) && Enabled(s, t)
    ensures Inv(Apply(s, t))
  {
    hide Books, Control, OwnerApply, CallApply;
    if OwnerEnabled(s, t) {
      OwnerKeeps(s, t);
    } else if t.Enter? || t.ChargeOwn? || t.PushOwn? || t.TakeStack? || t.ChargeSwept? {
      BlockStepKeeps(s, t);
    } else {
      WalkStepKeepsBooks(s, t);
      WalkStepKeepsControl(s, t);
    }
  }

  lemma {:induction false} RunKeeps(s: State, run: seq<Step>, s': State)
    requires Inv(s) && Reaches(s, run, s')
    ensures Inv(s')
    decreases |run|
  {
    hide Inv, Apply;
    if run != [] {
      StepKeeps(s, run[0]);
      RunKeeps(Apply(s, run[0]), run[1..], s');
    }
  }

  /** Over every run, each block is charged at most once, and `occupied` is exactly what the
      blocks not yet charged add up to: it never runs below zero. */
  lemma ChargedAtMostOnce(run: seq<Step>, s: State)
    requires Reaches(Init(), run, s)
    ensures forall i: nat :: s.charges[i] <= 1
    ensures var rest := set i | i in s.blocks && s.charges[i] == 0;
      s.occupied == Total(s.blocks, rest) && s.occupied >= 0
  {
    InitInv();
    RunKeeps(Init(), run, s);
    hide Total, Listed, Called, Control;
    var rest := set i | i in s.blocks && s.charges[i] == 0;
    assert rest == Uncharged(s);
    TotalZero(s.blocks, rest);
  }

  // ---------- while the owner lives ----------

  /** The call has seen the owner gone and accounts for blocks itself. */
  predicate Behind(pc: Pc)
  {
    pc.Direct? || pc.Sweep? || pc.Sweeping?
  }

  ghost predicate Late(s: State)
  {
    s.alive ==> forall i :: i in s.pc ==> !Behind(s.pc[i])
  }

  lemma OwnerKeepsLate(s: State, t: Step)
    requires Late(s) && OwnerEnabled(s, t)
    ensures Late(OwnerApply(s, t)) && (OwnerApply(s, t).alive ==> s.alive)
  {
    hide Moved;
  }

  lemma CallKeepsLate(s: State, t: Step)
    requires Late(s) && CallEnabled(s, t)
    ensures Late(CallApply(s, t)) && CallApply(s, t).alive == s.alive
  {
    hide Moved;
  }

  lemma StepKeepsLate(s: State, t: Step)
    requires Late(s) && Enabled(s, t)
    ensures Late(Apply(s, t)) && (Apply(s, t).alive ==> s.alive)
  {
    hide Late, OwnerApply, CallApply;
    if OwnerEnabled(s, t) { OwnerKeepsLate(s, t); } else { CallKeepsLate(s, t); }
  }

  lemma {:induction false} RunKeepsLate(s: State, run: seq<Step>, s': State)
    requires Late(s) && Reaches(s, run, s')
    ensures Late(s') && (s'.alive ==> s.alive)
    decreases |run|
  {
    hide Late, Apply;
    if run != [] {
      StepKeepsLate(s, run[0]);
      RunKeepsLate(Apply(s, run[0]), run[1..], s');
    }
  }

  lemma NotBehind(s: State, t: Step)
    requires Late(s) && s.alive && CallEnabled(s, t)
    ensures !t.ChargeOwn? && !t.TakeStack? && !t.ChargeSwept?
  {
  }

  lemma CallChargesNothing(s: State, t: Step)
    requires CallEnabled(s, t) && !t.ChargeOwn? && !t.TakeStack? && !t.ChargeSwept?
    ensures var s' := CallApply(s, t);
      s'.occupied == s.occupied && s'.charges == s.charges && |s'.slabs| >= |s.slabs| && |s'.pages| >= |s.pages|
  {
  }

  lemma OwnerCharges(s: State, t: Step)
    requires OwnerEnabled(s, t) && !t.OwnerFree? && !t.OwnerCharge?
    ensures OwnerApply(s, t).occupied >= s.occupied && OwnerApply(s, t).charges == s.charges
    ensures !t.OwnerDrain? ==> OwnerApply(s, t).slabs == s.slabs
    ensures !t.OwnerDrainPages? ==> OwnerApply(s, t).pages == s.pages
  {
    hide Moved;
  }

  lemma OwnerFreesInPlace(s: State, t: Step)
    requires OwnerEnabled(s, t) && (t.OwnerFree? || t.OwnerCharge?)
    ensures OwnerApply(s, t).slabs == s.slabs && OwnerApply(s, t).pages == s.pages
  {
  }

  /** While the owner lives no other thread charges a block or takes one off a stack: `occupied` falls
      only by the owner's own steps. */
  lemma OnlyOwnerCharges(run: seq<Step>, s: State, t: Step)
    requires Reaches(Init(), run, s) && Enabled(s, t) && s.alive
    ensures !t.ChargeOwn? && !t.TakeStack? && !t.ChargeSwept?
    ensures Apply(s, t).occupied < s.occupied || Apply(s, t).charges != s.charges ==> t.OwnerFree? || t.OwnerCharge?
    ensures |Apply(s, t).slabs| < |s.slabs| ==> t.OwnerDrain?
    ensures |Apply(s, t).pages| < |s.pages| ==> t.OwnerDrainPages?
  {
    hide OwnerEnabled, CallEnabled, OwnerApply, CallApply;
    RunKeepsLate(Init(), run, s);
    if OwnerEnabled(s, t) {
      OwnerNotCall(s, t);
      if t.OwnerFree? || t.OwnerCharge? { OwnerFreesInPlace(s, t); } else { OwnerCharges(s, t); }
    } else {
      NotBehind(s, t);
      CallChargesNothing(s, t);
    }
  }

  lemma OwnerNotCall(s: State, t: Step)
    requires OwnerEnabled(s, t)
    ensures !t.ChargeOwn? && !t.TakeStack? && !t.ChargeSwept?
  {
  }

  lemma {:induction false} ReachesLast(s: State, run: seq<Step>, s': State) returns (m: State)
    requires run != [] && Reaches(s, run, s')
    ensures Reaches(s, run[..|run| - 1], m) && Enabled(m, run[|run| - 1]) && s' == Apply(m, run[|run| - 1])
    decreases |run|
  {
    hide Enabled, Apply;
    if |run| == 1 {
      m := s;
    } else {
      m := ReachesLast(Apply(s, run[0]), run[1..], s');
      assert run[..|run| - 1][1..] == run[1..][..|run| - 2];
    }
  }

  /** At some step of the run the owner charged the block, which it had taken off a stack. */
  ghost predicate OwnerCharged(run: seq<Step>, i: nat)
  {
    exists k: nat, m: State :: k < |run| && ChargedAt(run, k, m, i)
  }

  ghost predicate ChargedAt(run: seq<Step>, k: nat, m: State, i: nat)
    requires k < |run|
  {
    run[k] == OwnerCharge && Reaches(Init(), run[..k], m) && m.held != [] && m.held[0] == i
  }

  lemma ChargedBefore(run: seq<Step>, t: Step, i: nat)
    requires OwnerCharged(run, i)
    ensures OwnerCharged(run + [t], i)
  {
    hide Reaches;
    var k: nat, m: State :| k < |run| && ChargedAt(run, k, m, i);
    assert (run + [t])[..k] == run[..k];
    assert ChargedAt(run + [t], k, m, i);
  }

  lemma ChargedNow(run: seq<Step>, m: State)
    requires Reaches(Init(), run, m) && m.held != []
    ensures OwnerCharged(run + [OwnerCharge], m.held[0])
  {
    hide Reaches;
    assert (run + [OwnerCharge])[..|run|] == run;
    assert ChargedAt(run + [OwnerCharge], |run|, m, m.held[0]);
  }

  /** The call has pushed its block, or left. */
  predicate Handed(pc: Pc)
  {
    !pc.Idle? && !OwnCall(pc)
  }

  /** The block is waiting for the owner or in its hands. */
  predicate Awaits(s: State, i: nat)
  {
    i in s.place && (s.place[i].Stacked? || s.place[i].Drained?)
  }

  /** A block that has been handed to a living owner stays on its stack or with the owner until it is
      charged. */
  lemma OwnerAwaits(s: State, t: Step, i: nat)
    requires Books(s) && OwnerEnabled(s, t) && Awaits(s, i)
    ensures Awaits(OwnerApply(s, t), i) || (t == OwnerCharge && s.held != [] && s.held[0] == i)
  {
    BooksGive(s);
    hide Books, Moved, Charge;
    match t
    case OwnerDrain => DrainAwaits(s, Slab, i);
    case OwnerDrainPages => DrainAwaits(s, Page, i);
    case OwnerCharge => ChargeAwaits(s, s.held[0], i);
    case OwnerFree(j) => ChargeAwaits(s, j, i);
    case OwnerAllocate(_, _) =>
    case _ => OwnerMovesNothing(s, t);
  }

  lemma ChargeAwaits(s: State, j: nat, i: nat)
    requires j in s.blocks && Awaits(s, i)
    ensures i != j ==> Awaits(Charge(s, j), i)
  {
  }

  lemma DrainAwaits(s: State, k: Kind, i: nat)
    requires Awaits(s, i)
    ensures Awaits(Draining(s, k), i)
  {
    hide Moved;
  }

  lemma OwnerHandsNothing(s: State, t: Step, i: nat)
    requires OwnerEnabled(s, t)
    requires var s' := OwnerApply(s, t); i in s'.pc && Handed(s'.pc[i])
    ensures i in s.pc && Handed(s.pc[i])
  {
    hide Moved;
  }

  lemma OwnerMovesNothing(s: State, t: Step)
    requires OwnerEnabled(s, t) && !t.OwnerAllocate? && !t.OwnerFree? && !t.OwnerDrain? && !t.OwnerDrainPages?
    requires !t.OwnerCharge?
    ensures OwnerApply(s, t).pc == s.pc && OwnerApply(s, t).place == s.place
  {
  }

  /** Unless it takes or charges blocks off a stack, a call moves its own block only. */
  lemma OthersStay(s: State, t: Step, i: nat)
    requires CallEnabled(s, t) && !t.TakeStack? && !t.ChargeSwept? && t.id != i
    ensures var s' := CallApply(s, t);
      && (i in s'.pc <==> i in s.pc) && (i in s.pc ==> s'.pc[i] == s.pc[i])
      && (i in s'.place <==> i in s.place) && (i in s.place ==> s'.place[i] == s.place[i])
  {
    hide StackOf;
    match t
    case Enter(_) =>
    case ChargeOwn(_) =>
    case PushOwn(_) =>
    case _ => WalkMoves(s, t);
  }

  lemma OwnAwaits(s: State, t: Step)
    requires CallEnabled(s, t) && !t.ChargeOwn? && !t.TakeStack? && !t.ChargeSwept?
    requires t.id in s.pc && Handed(s.pc[t.id]) ==> Awaits(s, t.id)
    ensures var s' := CallApply(s, t); t.id in s'.pc && Handed(s'.pc[t.id]) ==> Awaits(s', t.id)
  {
  }

  lemma CallAwaits(s: State, t: Step, i: nat)
    requires s.alive && Late(s) && CallEnabled(s, t)
    requires var s' := CallApply(s, t); i in s'.pc && Handed(s'.pc[i])
    requires i in s.pc && Handed(s.pc[i]) ==> Awaits(s, i)
    ensures Awaits(CallApply(s, t), i)
  {
    NotBehind(s, t);
    hide CallEnabled, CallApply, Late, Handed;
    if t.id == i { OwnAwaits(s, t); } else { OthersStay(s, t, i); }
  }

  lemma AwaitsOn(s: State, t: Step, i: nat)
    requires Books(s) && s.alive && Late(s) && Enabled(s, t)
    requires var s' := Apply(s, t); i in s'.pc && Handed(s'.pc[i])
    requires i in s.pc && Handed(s.pc[i]) ==> Awaits(s, i)
    ensures Awaits(Apply(s, t), i) || (t == OwnerCharge && s.held != [] && s.held[0] == i)
  {
    hide Books, Late, OwnerApply, CallApply, OwnerEnabled, CallEnabled, Awaits, Handed;
    if OwnerEnabled(s, t) { OwnerHandsNothing(s, t, i); OwnerAwaits(s, t, i); } else { CallAwaits(s, t, i); }
  }

  /** A block is handed to a living owner by a push, and by nothing else. */
  lemma HandsByPush(s: State, t: Step, i: nat)
    requires s.alive && Late(s) && Enabled(s, t)
    requires var s' := Apply(s, t); i in s'.pc && Handed(s'.pc[i])
    ensures t == PushOwn(i) || (i in s.pc && Handed(s.pc[i]))
  {
    hide Late, OwnerApply, CallApply, OwnerEnabled, CallEnabled, Handed;
    if OwnerEnabled(s, t) { OwnerHandsNothing(s, t, i); } else { CallHandsByPush(s, t, i); }
  }

  lemma CallHandsByPush(s: State, t: Step, i: nat)
    requires s.alive && Late(s) && CallEnabled(s, t)
    requires var s' := CallApply(s, t); i in s'.pc && Handed(s'.pc[i])
    ensures t == PushOwn(i) || (i in s.pc && Handed(s.pc[i]))
  {
    NotBehind(s, t);
    hide Late;
    if t.id != i {
      hide CallEnabled, CallApply, Handed;
      OthersStay(s, t, i);
    }
  }

  lemma {:induction false} ReachesOwner(run: seq<Step>, s: State, i: nat)
    requires Reaches(Init(), run, s) && s.alive && i in s.pc && Handed(s.pc[i])
    ensures (Awaits(s, i) || OwnerCharged(run, i)) && PushOwn(i) in run
    decreases |run|
  {
    hide Inv, Late, Apply, Awaits, OwnerCharged, Enabled, Handed;
    if run != [] {
      var n, t := |run| - 1, run[|run| - 1];
      var m := ReachesLast(Init(), run, s);
      assert run == run[..n] + [t];
      Prefix(run[..n], m, t);
      HandsByPush(m, t, i);
      if i in m.pc && Handed(m.pc[i]) { ReachesOwner(run[..n], m, i); }
      if OwnerCharged(run[..n], i) {
        ChargedBefore(run[..n], t, i);
      } else {
        AwaitsOn(m, t, i);
        if !Awaits(s, i) { ChargedNow(run[..n], m); }
      }
    }
  }

  predicate HasLeft(pc: Pc)
  {
    pc.Leave? || pc.Test? || pc.TestOccupied? || pc.Done?
  }

  /** While the owner lives, every call that is over has pushed its block, and the block is on the stack of
      its kind, among those that the owner has taken off, or was charged by the owner. */
  lemma FreesReachOwner(run: seq<Step>, s: State, i: nat)
    requires Reaches(Init(), run, s) && s.alive && i in s.pc && HasLeft(s.pc[i])
    ensures PushOwn(i) in run && i in s.blocks
    ensures i in StackOf(s, i) || i in s.held || OwnerCharged(run, i)
  {
    InitInv();
    ReachesOwner(run, s, i);
    RunKeeps(Init(), run, s);
    hide Control, ChargedOnce, Total, OwnerCharged, Lists;
    FitsHere(s, i);
    if i in s.place { Recorded(s, i); }
  }

  lemma Prefix(run: seq<Step>, m: State, t: Step)
    requires Reaches(Init(), run, m) && Enabled(m, t)
    ensures Books(m) && Late(m) && Late(Apply(m, t)) && (Apply(m, t).alive ==> m.alive)
  {
    InitInv();
    hide Books, Control, Apply;
    RunKeeps(Init(), run, m);
    RunKeepsLate(Init(), run, m);
    StepKeepsLate(m, t);
  }

  /** The call has seen the owner gone before it pushed: its block is in its own hands until it charges it. */
  predicate Aside(s: State, i: nat)
  {
    !s.alive && i in s.pc && i in s.place &&
    if OwnCall(s.pc[i]) then !s.pc[i].Push? && s.place[i] == Calling else HasLeft(s.pc[i]) && s.place[i] == Charged
  }

  lemma OwnerKeepsAside(s: State, t: Step, i: nat)
    requires Keyed(s) && Listed(s) && Aside(s, i) && OwnerEnabled(s, t)
    ensures Aside(OwnerApply(s, t), i)
  {
    Heads(s);
    StackPlaces(s, Slab);
    StackPlaces(s, Page);
    hide Listed, Moved;
  }

  lemma OwnKeepsAside(s: State, t: Step)
    requires CallEnabled(s, t) && Aside(s, t.id)
    ensures !t.PushOwn? && Aside(CallApply(s, t), t.id)
  {
  }

  lemma CallKeepsAside(s: State, t: Step, i: nat)
    requires Listed(s) && Aside(s, i) && CallEnabled(s, t) && t.id != i
    ensures Aside(CallApply(s, t), i)
  {
    if t.TakeStack? {
      StackPlaces(s, s.blocks[t.id].kind);
      hide Listed, Moved;
    } else if t.ChargeSwept? {
      SweepingKeepsListed(s, t.id);
      hide Listed;
    } else {
      OthersStay(s, t, i);
      CallKeepsAlive(s, t);
      hide Listed, CallEnabled, CallApply;
    }
  }

  lemma CallKeepsAlive(s: State, t: Step)
    requires CallEnabled(s, t)
    ensures CallApply(s, t).alive == s.alive
  {
  }

  lemma StepKeepsAside(s: State, t: Step, i: nat)
    requires Inv(s) && Aside(s, i) && Enabled(s, t)
    ensures Aside(Apply(s, t), i) && t != PushOwn(i)
  {
    hide Control, Keyed, Listed, Called, ChargedOnce, Aside, OwnerEnabled, CallEnabled, OwnerApply, CallApply;
    if OwnerEnabled(s, t) {
      OwnerPushesNothing(s, t);
      OwnerKeepsAside(s, t, i);
    } else {
      CallStepKeepsAside(s, t, i);
    }
  }

  lemma CallStepKeepsAside(s: State, t: Step, i: nat)
    requires Listed(s) && Aside(s, i) && CallEnabled(s, t)
    ensures Aside(CallApply(s, t), i) && t != PushOwn(i)
  {
    hide Listed, Aside, CallApply;
    if t.id == i { OwnKeepsAside(s, t); } else { CallKeepsAside(s, t, i); }
  }

  lemma OwnerPushesNothing(s: State, t: Step)
    requires OwnerEnabled(s, t)
    ensures !t.PushOwn?
  {
  }

  lemma {:induction false} RunKeepsAside(s: State, more: seq<Step>, s': State, i: nat)
    requires Inv(s) && Aside(s, i) && Reaches(s, more, s')
    ensures Inv(s') && Aside(s', i) && PushOwn(i) !in more
    decreases |more|
  {
    hide Inv, Apply, Aside, Enabled;
    if more != [] {
      StepKeeps(s, more[0]);
      StepKeepsAside(s, more[0], i);
      RunKeepsAside(Apply(s, more[0]), more[1..], s', i);
      assert more == [more[0]] + more[1..];
    }
  }

  /** A call that begins after the owner has gone never pushes: it charges its own block, and by the time it
      leaves it has. */
  lemma LateFreesKeepOff(run: seq<Step>, s: State, i: nat, more: seq<Step>, s': State)
    requires Reaches(Init(), run, s) && !s.alive && Calls(s, i, Entered) && Reaches(s, more, s')
    ensures PushOwn(i) !in more && i !in s'.slabs && i !in s'.pages && i !in s'.held && i in s'.pc
    ensures s'.charges[i] == if HasLeft(s'.pc[i]) then 1 else 0
  {
    InitInv();
    RunKeeps(Init(), run, s);
    hide Control, Total, Lists;
    FitsHere(s, i);
    RunKeepsAside(s, more, s', i);
  }

  /** When the teardown is over and no call is in flight, both stacks are empty and every block
      that was ever freed has been charged exactly once. */
  lemma NothingLeftBehind(run: seq<Step>, s: State)
    requires Reaches(Init(), run, s)
    requires !s.alive && !Guarded(s.stage) && s.inFlight == 0
    ensures s.slabs == [] && s.pages == [] && s.held == []
    ensures forall i :: i in s.blocks && i in s.pc && s.pc[i] != Idle ==> s.charges[i] == 1
    ensures forall i :: i in s.blocks && i in s.pc && s.pc[i] == Idle && i in s.place && s.place[i] != Live
              ==> s.charges[i] == 1
  {
    InitInv();
    RunKeeps(Init(), run, s);
    NobodyInCall(s);
    hide Total, Active;
    Heads(s);
    forall i | i in s.blocks && i in s.pc && (s.pc[i] != Idle || s.place[i] != Live) ensures s.place[i] == Charged {
      SettledBlock(s, i);
    }
  }

  lemma NobodyInCall(s: State)
    requires Flight(s) && s.inFlight == 0
    ensures forall i :: i in s.pc ==> !InCall(s.pc[i])
  {
    assert Active(s.pc) == {};
    forall i | i in s.pc ensures !InCall(s.pc[i]) {
      assert i !in Active(s.pc);
    }
  }

  lemma SettledBlock(s: State, i: nat)
    requires Keyed(s) && Listed(s) && Called(s) && s.slabs == [] && s.pages == [] && s.held == []
    requires forall j :: j in s.pc ==> !InCall(s.pc[j])
    requires i in s.blocks && (s.pc[i] != Idle || s.place[i] != Live)
    ensures s.place[i] == Charged
  {
    FitsHere(s, i);
    Recorded(s, i);
  }

  lemma Recorded(s: State, i: nat)
    requires Listed(s) && i in s.place
    ensures match s.place[i]
      case Swept(j) => j in s.pc && InCall(s.pc[j])
      case Stacked(k) => i in (if k == Slab then s.slabs else s.pages)
      case Drained => i in s.held
      case _ => true
  {
    match s.place[i]
    case Swept(j) => assert i in SweepList(s.pc, j);
    case _ =>
  }

  lemma Head(l: seq<nat>, place: map<nat, Place>, p: Place)
    requires Lists(l, place, p)
    ensures l != [] ==> l[0] in place && place[l[0]] == p
  {
    if l != [] { assert l[0] in l; }
  }

  /** A list that is not empty holds a block that has not been charged. */
  lemma Heads(s: State)
    requires Listed(s)
    ensures s.slabs != [] ==> s.slabs[0] in s.place && s.place[s.slabs[0]] == Stacked(Slab)
    ensures s.pages != [] ==> s.pages[0] in s.place && s.place[s.pages[0]] == Stacked(Page)
    ensures s.held != [] ==> s.held[0] in s.place && s.place[s.held[0]] == Drained
    ensures forall j: nat :: SweepList(s.pc, j) != [] ==>
      SweepList(s.pc, j)[0] in s.place && s.place[SweepList(s.pc, j)[0]] == Swept(j)
  {
    hide Lists, SweepList;
    Head(s.slabs, s.place, Stacked(Slab));
    Head(s.pages, s.place, Stacked(Page));
    Head(s.held, s.place, Drained);
    forall j: nat ensures SweepList(s.pc, j) != [] ==>
      SweepList(s.pc, j)[0] in s.place && s.place[SweepList(s.pc, j)[0]] == Swept(j)
    {
      Head(SweepList(s.pc, j), s.place, Swept(j));
    }
  }

  /** When a test to unmap passes, no allocation is live, no request is pending, and nothing
      will ever be allocated again: the owner is gone. */
  lemma UnmappedIsEmpty(run: seq<Step>, s: State)
    requires Reaches(Init(), run, s) && s.unmapped
    ensures !s.alive && s.slabs == [] && s.pages == [] && s.held == []
    ensures forall i :: i in s.blocks ==> s.charges[i] == 1
    ensures forall j: nat :: SweepList(s.pc, j) == []
  {
    InitInv();
    RunKeeps(Init(), run, s);
    hide Control, Called;
    assert s.occupied == 0 && !s.alive by { EmptyWhenUnmapped(s); }
    TotalZero(s.blocks, Uncharged(s));
    assert forall i :: i in s.blocks ==> i !in Uncharged(s);
    hide Total, Uncharged;
    Heads(s);
  }

  lemma EmptyWhenUnmapped(s: State)
    requires Control(s) && s.unmapped
    ensures s.occupied == 0 && !s.alive
  {
  }

  /** The region is not forgotten: once the teardown is over, every block has been charged, no
      call is in flight and nobody is testing, it has been unmapped. */
  lemma NotForgotten(run: seq<Step>, s: State)
    requires Reaches(Init(), run, s)
    requires !s.alive && s.stage == Gone && s.inFlight == 0
    requires forall i :: i in s.pc ==> s.pc[i] != Test && s.pc[i] != TestOccupied
    requires forall i :: i in s.blocks ==> s.charges[i] == 1
    ensures s.unmapped
  {
    InitInv();
    RunKeeps(Init(), run, s);
    assert Uncharged(s) == {};
  }
}
