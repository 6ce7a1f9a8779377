/** Choosing where in the free blocks a page allocation goes. */
module Bisect {
  import opened Options
  import opened MaxHeap
  import opened StaleHeap
  import opened Words

  const WORD32: nat := 0x1_0000_0000
  const WORD64: nat := 0x1_0000_0000_0000_0000

  /** 64-bit machine arithmetic. */
  function Wrap64(x: int): nat
  {
    x % 0x1_0000_0000_0000_0000
  }

  function Wrap32(x: int): nat
  {
    x % 0x1_0000_0000
  }

  lemma WrapNear(x: int)
    requires -0x1_0000_0000_0000_0000 <= x < 2 * WORD64
    ensures Wrap64(x) == if x < 0 then x + WORD64 else if x < WORD64 then x else x - WORD64
  {
  }

  lemma WrapSmall(x: int)
    requires 0 <= x < WORD32
    ensures Wrap32(x) == x
  {
  }

  /** What is asked for: a number of pages whose first page, counted from `base` pages past
      an aligned address, is a multiple of `align` pages. */
  datatype Request = Request(pages: nat, align: nat, base: nat)

  ghost predicate Legal(q: Request)
  {
    q.pages > 0 && q.align <= 0x8000_0000_0000_0000 && (q.align <= 1 || q.base < q.align)
  }

  predicate AlignedPage(q: Request, o: nat)
  {
    q.align > 1 ==> (q.base + o) % q.align == 0
  }

  /** The run starting at page `o` answers the request from the block [offset, offset + size). */
  predicate Fits(offset: nat, size: nat, q: Request, o: nat)
  {
    offset <= o && o + q.pages <= offset + size && AlignedPage(q, o)
  }

  /** Where in its block the run lies.  Without an alignment it is in the middle, an odd page being left
      after it.  With one it starts at the last aligned page that leaves no more of the block before the
      run than after it, and if the block has no such page, at the first aligned page of the block. */
  ghost predicate Centred(offset: nat, size: nat, q: Request, o: nat)
  {
    Fits(offset, size, q, o) &&
    var (left, right) := (o - offset, offset + size - q.pages - o);
    if q.align <= 1 then left <= right <= left + 1
    else if left <= right then forall p: nat :: AlignedPage(q, p) && o < p ==> p - offset > offset + size - q.pages - p
    else forall p: nat :: AlignedPage(q, p) && offset <= p ==> o <= p
  }

  /** There is only one such place. */
  lemma CentredUnique(offset: nat, size: nat, q: Request, o: nat, o': nat)
    requires Centred(offset, size, q, o) && Centred(offset, size, q, o')
    ensures o == o'
  {
    hide AlignedPage;
  }

  function Middle(size: nat, q: Request): nat
    requires size >= q.pages
  {
    (size - q.pages) / 2
  }

  /** The distance into the block at which the run is placed.  Addresses are 64-bit words;
      the returned distance is a 32-bit word. */
  function Place(offset: nat, size: nat, q: Request): Option<nat>
    requires size >= q.pages
  {
    var left := Middle(size, q);
    if q.align <= 1 then Some(left)
    else
      var address := Wrap64(q.base + offset + left);
      var aligned := Wrap64(address - address % q.align - q.base);
      var start := if aligned < offset then Wrap64(aligned + q.align) else aligned;
      if start < offset || Wrap64(start + q.pages) > offset + size then None
      else Some(Wrap32(Wrap32(start) - offset))
  }

  /** Rounding down falls before the base address, so the subtraction wraps around, and the
      block is then either mistaken for a fit or skipped although it fits. */
  predicate Misplaces(offset: nat, size: nat, q: Request)
    requires size >= q.pages
  {
    && q.align > 1 && q.base > 0 && q.base + offset + Middle(size, q) < q.align
    && (q.pages >= q.base || q.align - q.base + q.pages <= offset + size)
  }

  /** The placement is a fit, and the one that belongs in the block, if there is a fit, and absent
      otherwise. */
  ghost predicate PlacedRight(offset: nat, size: nat, q: Request)
    requires size >= q.pages
  {
    match Place(offset, size, q)
    case Some(left) => Centred(offset, size, q, offset + left)
    case None => forall o :: !Fits(offset, size, q, o)
  }

  /** The placement is no fit, or absent though there is one. */
  ghost predicate PlacedWrong(offset: nat, size: nat, q: Request)
    requires size >= q.pages
  {
    match Place(offset, size, q)
    case Some(left) => !Fits(offset, size, q, offset + left)
    case None => exists o: nat :: Fits(offset, size, q, o)
  }

  lemma MultipleMod(k: nat, a: nat)
    requires a > 0
    ensures (a * k) % a == 0
  {
    var r, d := (a * k) % a, k - (a * k) / a;
    assert a * d == r;
    Whole(a, d);
  }

  lemma RoundDown(x: nat, a: nat)
    requires a > 0
    ensures (x - x % a) % a == 0 && x - x % a <= x < x - x % a + a
    ensures x < a ==> x % a == x
  {
    assert x - x % a == a * (x / a);
    MultipleMod(x / a, a);
    Whole(a, x / a);
  }

  /** Between consecutive multiples of `a` there is no other. */
  lemma NoMultipleBetween(m: nat, x: nat, a: nat)
    requires a > 0 && m % a == 0 && m < x < m + a
    ensures x % a != 0
  {
    if x % a == 0 {
      var i, j := m / a, x / a;
      assert m == a * i;
      assert x == a * j;
      assert a * (j - i) == x - m;
      Whole(a, j - i);
    }
  }

  lemma NextMultiple(m: nat, a: nat)
    requires a > 0 && m % a == 0
    ensures (m + a) % a == 0
  {
    assert m + a == a * (m / a + 1);
    MultipleMod(m / a + 1, a);
  }

  lemma PlaceWhenWrapped(offset: nat, size: nat, q: Request)
    requires Legal(q) && size >= q.pages && offset + size < WORD32
    requires q.align > 1 && q.base > 0 && q.base + offset + Middle(size, q) < q.align
    ensures Place(offset, size, q)
         == if q.pages >= q.base then Some(Wrap32(Wrap32(WORD64 - q.base) - offset)) else None
  {
    var address := q.base + offset + Middle(size, q);
    RoundDown(address, q.align);
    WrapNear(address);
    WrapNear(0 - q.base);
    WrapNear(WORD64 - q.base + q.pages);
    hide Wrap64, Wrap32;
  }

  /** The first aligned page of a block that begins short of the first aligned address. */
  lemma FirstAligned(offset: nat, size: nat, q: Request)
    requires Legal(q) && size >= q.pages && q.align > 1 && q.base > 0 && q.base + offset < q.align
    ensures (exists o: nat :: Fits(offset, size, q, o)) <==> q.align - q.base + q.pages <= offset + size
  {
    var first := q.align - q.base;
    assert (q.base + first) % q.align == 0 by { RoundDown(0, q.align); NextMultiple(0, q.align); }
    assert first + q.pages <= offset + size ==> Fits(offset, size, q, first);
    forall o: nat | Fits(offset, size, q, o) ensures o >= first {
      if o < first { RoundDown(q.base + o, q.align); }
    }
  }

  lemma WrappedLeft(offset: nat, size: nat, base: nat, pages: nat)
    requires 0 < base <= pages <= size && offset + size < WORD32
    ensures Wrap32(Wrap32(WORD64 - base) - offset) > size - pages
  {
    assert Wrap32(WORD64 - base) == WORD32 - base;
    var d := WORD32 - base - offset;
    assert Wrap32(d) == if d >= 0 then d else d + WORD32;
  }

  lemma PlaceWraps(offset: nat, size: nat, q: Request)
    requires Legal(q) && size >= q.pages && offset + size < WORD32
    requires q.align > 1 && q.base > 0 && q.base + offset + Middle(size, q) < q.align
    ensures if Misplaces(offset, size, q) then PlacedWrong(offset, size, q) else PlacedRight(offset, size, q)
  {
    PlaceWhenWrapped(offset, size, q);
    FirstAligned(offset, size, q);
    hide Place, Wrap32;
    if q.pages >= q.base {
      WrappedLeft(offset, size, q.base, q.pages);
    } else {
      hide Fits;
    }
  }

  /** Without the wrap-around, the rounded page is tried and then the one after it. */
  lemma PlaceSteps(offset: nat, size: nat, q: Request, down: nat)
    requires Legal(q) && size >= q.pages && offset + size < WORD32 && q.align > 1
    requires q.base <= down <= q.base + offset + Middle(size, q)
    requires var x := q.base + offset + Middle(size, q); down == x - x % q.align
    ensures var start := if down - q.base < offset then down - q.base + q.align else down - q.base;
      Place(offset, size, q)
      == if start < offset || start + q.pages > offset + size then None else Some(start - offset)
  {
    var x := q.base + offset + Middle(size, q);
    WrapNear(x);
    WrapNear(down - q.base);
    WrapNear(down - q.base + q.align);
    var start: nat := if down - q.base < offset then down - q.base + q.align else down - q.base;
    WrapNear(start + q.pages);
    hide Wrap64, Wrap32, Middle, Place;
    PlaceUnfolds(offset, size, q, x, down, start);
    if start >= offset && start + q.pages <= offset + size {
      WrapSmall(start);
      WrapSmall(start - offset);
    }
  }

  lemma PlaceUnfolds(offset: nat, size: nat, q: Request, x: nat, down: nat, start: nat)
    requires size >= q.pages && q.align > 1 && q.base <= down
    requires x == q.base + offset + Middle(size, q) && down == x - x % q.align
    requires Wrap64(x) == x && Wrap64(down - q.base) == down - q.base
    requires start == if down - q.base < offset then down - q.base + q.align else down - q.base
    requires Wrap64(down - q.base + q.align) == down - q.base + q.align
    requires Wrap64(start + q.pages) == start + q.pages
    ensures Place(offset, size, q)
      == if start < offset || start + q.pages > offset + size then None
         else Some(Wrap32(Wrap32(start) - offset))
  {
    hide Wrap64, Wrap32, Middle;
  }

  lemma PlaceUnwrapped(offset: nat, size: nat, q: Request)
    requires Legal(q) && size >= q.pages && offset + size < WORD32
    requires q.align > 1 && (q.base == 0 || q.base + offset + Middle(size, q) >= q.align)
    ensures PlacedRight(offset, size, q)
  {
    var x := q.base + offset + Middle(size, q);
    RoundDown(x, q.align);
    var down: nat := x - x % q.align;
    if 0 < down { NoEarlierMultiple(down, q.align); }
    PlaceSteps(offset, size, q, down);
    NextMultiple(down, q.align);
    AlignedAfter(q, down);
    PlacedBetween(offset, size, q, down);
  }

  /** An aligned page after a multiple of the alignment is the next one or a later one. */
  lemma AlignedAfter(q: Request, down: nat)
    requires q.align > 1 && down % q.align == 0
    ensures forall o: nat :: AlignedPage(q, o) && down < q.base + o ==> q.base + o >= down + q.align
  {
    forall o: nat | AlignedPage(q, o) && down < q.base + o ensures q.base + o >= down + q.align {
      if q.base + o < down + q.align { NoMultipleBetween(down, q.base + o, q.align); }
    }
  }

  lemma PlacedBetween(offset: nat, size: nat, q: Request, down: nat)
    requires size >= q.pages && q.align > 1 && q.base <= down <= q.base + offset + Middle(size, q) < down + q.align
    requires down % q.align == 0 && (down + q.align) % q.align == 0
    requires var start := if down - q.base < offset then down - q.base + q.align else down - q.base;
      Place(offset, size, q)
      == if start < offset || start + q.pages > offset + size then None else Some(start - offset)
    requires forall o: nat :: AlignedPage(q, o) && down < q.base + o ==> q.base + o >= down + q.align
    ensures PlacedRight(offset, size, q)
  {
    hide Place;
  }

  lemma NoEarlierMultiple(m: nat, a: nat)
    requires a > 0 && m > 0 && m % a == 0
    ensures m >= a
  {
    assert m == a * (m / a);
    Whole(a, m / a);
  }

  /** Placing a request in a block is right exactly when the block is not misplaced, and wrong when it is. */
  lemma PlaceExact(offset: nat, size: nat, q: Request)
    requires Legal(q) && size >= q.pages && offset + size < WORD32
    ensures PlacedRight(offset, size, q) <==> !Misplaces(offset, size, q)
    ensures PlacedWrong(offset, size, q) <==> Misplaces(offset, size, q)
  {
    if q.align > 1 {
      if q.base > 0 && q.base + offset + Middle(size, q) < q.align {
        PlaceWraps(offset, size, q);
      } else {
        PlaceUnwrapped(offset, size, q);
      }
    }
  }

  /** A 32-page slab requested from a 60-page block at the start of a region that begins 10
      pages past an aligned address is placed outside the region, though page 22 would do. */
  lemma MisplacementHappens(q: Request)
    requires q == Request(32, 32, 10)
    ensures Fits(0, 60, q, 22)
    ensures Place(0, 60, q) == Some(0xFFFF_FFF6)
  {
    assert Middle(60, q) == 14;
    hide Place, Wrap32, Wrap64;
    PlaceWhenWrapped(0, 60, q);
    WrapsBack(10);
  }

  lemma WrapsBack(base: nat)
    requires 0 < base < WORD32
    ensures Wrap32(Wrap32(WORD64 - base) - 0) == WORD32 - base
  {
    assert WORD64 - base == WORD32 * (WORD32 - 1) + (WORD32 - base);
    WrapSmall(WORD32 - base);
  }

  // ---------- searching the heap ----------

  /** A block and the distance into it at which a run is placed. */
  datatype Spot = Spot(id: nat, left: nat)

  /** Searches the entries at and below `pos` for the largest block with a place for the
      request, giving up on a branch as soon as its first block is too small. */
  function PageBisect(h: seq<nat>, off: seq<nat>, size: seq<nat>, pos: nat, q: Request): (r: Option<Spot>)
    requires Sized(h, off) && Sized(h, size)
    ensures r.Some? ==> r.value.id in h && size[r.value.id] >= q.pages
    ensures r.Some? ==> Place(off[r.value.id], size[r.value.id], q) == Some(r.value.left)
    decreases |h| - pos
  {
    if pos >= |h| || size[h[pos]] < q.pages then None
    else
      match Place(off[h[pos]], size[h[pos]], q)
      case Some(left) => Some(Spot(h[pos], left))
      case None =>
        var r1 := PageBisect(h, off, size, 2 * pos + 1, q);
        var r2 := PageBisect(h, off, size, 2 * pos + 2, q);
        if r2.None? || (r1.Some? && size[r1.value.id] >= size[r2.value.id]) then r1 else r2
  }

  /** Block `i` has an aligned run of the requested length. */
  ghost predicate Holds(off: seq<nat>, size: seq<nat>, i: nat, q: Request)
    requires i < |off| && i < |size|
  {
    exists o: nat :: Fits(off[i], size[i], q, o)
  }

  ghost predicate Reaches(offset: nat, size: nat, q: Request)
  {
    offset + size < WORD32 && (size >= q.pages ==> !Misplaces(offset, size, q))
  }

  /** No block of the heap meets the wrap-around in the placement arithmetic. */
  ghost predicate Unwrapped(h: seq<nat>, off: seq<nat>, size: seq<nat>, q: Request)
    requires Sized(h, off) && Sized(h, size)
  {
    forall k :: 0 <= k < |h| ==> Reaches(off[h[k]], size[h[k]], q)
  }

  lemma {:induction false} BelowIsSmaller(h: seq<nat>, size: seq<nat>, pos: nat, k: nat)
    requires Ordered(h, size) && k < |h| && Above(pos, k)
    ensures Key(h, size, k) <= Key(h, size, pos)
    decreases k
  {
    assert Edge(h, size, k);
    if Parent(k) != pos { BelowIsSmaller(h, size, pos, Parent(k)); }
  }

  lemma {:induction false} AboveSplits(pos: nat, k: nat)
    requires Above(pos, k)
    ensures k == 2 * pos + 1 || k == 2 * pos + 2 || Above(2 * pos + 1, k) || Above(2 * pos + 2, k)
    decreases k
  {
    if Parent(k) != pos { AboveSplits(pos, Parent(k)); }
  }

  lemma {:induction false} RootAbove(k: nat)
    requires k > 0
    ensures Above(0, k)
  {
    if Parent(k) > 0 { RootAbove(Parent(k)); }
  }

  ghost predicate CentredAt(off: seq<nat>, size: seq<nat>, s: Spot, q: Request)
  {
    s.id < |off| && s.id < |size| && Centred(off[s.id], size[s.id], q, off[s.id] + s.left)
  }

  /** The answer for the entries at and below `pos`. */
  ghost predicate BestBelow(h: seq<nat>, off: seq<nat>, size: seq<nat>, pos: nat, q: Request, r: Option<Spot>)
    requires Sized(h, off) && Sized(h, size)
  {
    && (r.Some? ==> CentredAt(off, size, r.value, q))
    && (forall k :: 0 <= k < |h| && (k == pos || Above(pos, k)) && Holds(off, size, h[k], q) ==>
          r.Some? && size[h[k]] <= size[r.value.id])
  }

  lemma HoldsNeeds(off: seq<nat>, size: seq<nat>, i: nat, q: Request)
    requires i < |off| && i < |size| && Holds(off, size, i, q)
    ensures size[i] >= q.pages
  {
  }

  lemma NoneBelow(h: seq<nat>, off: seq<nat>, size: seq<nat>, pos: nat, q: Request)
    requires Sized(h, off) && Ordered(h, size)
    requires pos >= |h| || size[h[pos]] < q.pages
    ensures BestBelow(h, off, size, pos, q, None)
  {
    forall k | 0 <= k < |h| && (k == pos || Above(pos, k)) ensures !Holds(off, size, h[k], q) {
      if k != pos {
        AboveDown(pos, k);
        BelowIsSmaller(h, size, pos, k);
      }
      if Holds(off, size, h[k], q) { HoldsNeeds(off, size, h[k], q); }
    }
  }

  lemma RootIsBest(h: seq<nat>, off: seq<nat>, size: seq<nat>, pos: nat, q: Request, s: Spot)
    requires Sized(h, off) && Ordered(h, size) && pos < |h| && s.id == h[pos] && CentredAt(off, size, s, q)
    ensures BestBelow(h, off, size, pos, q, Some(s))
  {
    hide Holds, CentredAt;
    forall k | 0 <= k < |h| && (k == pos || Above(pos, k)) ensures size[h[k]] <= size[s.id] {
      if k != pos { BelowIsSmaller(h, size, pos, k); }
    }
  }

  lemma BestOfTwo(h: seq<nat>, off: seq<nat>, size: seq<nat>, pos: nat, q: Request,
                  r1: Option<Spot>, r2: Option<Spot>, r: Option<Spot>)
    requires Sized(h, off) && Sized(h, size)
    requires pos < |h| ==> !Holds(off, size, h[pos], q)
    requires BestBelow(h, off, size, 2 * pos + 1, q, r1) && BestBelow(h, off, size, 2 * pos + 2, q, r2)
    requires r1.Some? ==> r1.value.id < |size|
    requires r2.Some? ==> r2.value.id < |size|
    requires r == if r2.None? || (r1.Some? && size[r1.value.id] >= size[r2.value.id]) then r1 else r2
    ensures BestBelow(h, off, size, pos, q, r)
  {
    hide Holds, CentredAt;
    forall k | 0 <= k < |h| && (k == pos || Above(pos, k)) && Holds(off, size, h[k], q)
      ensures r.Some? && size[h[k]] <= size[r.value.id]
    {
      AboveSplits(pos, k);
    }
  }

  lemma {:induction false} BisectBelow(h: seq<nat>, off: seq<nat>, size: seq<nat>, pos: nat, q: Request)
    requires Sized(h, off) && Sized(h, size) && Ordered(h, size) && Legal(q) && Unwrapped(h, off, size, q)
    ensures BestBelow(h, off, size, pos, q, PageBisect(h, off, size, pos, q))
    decreases |h| - pos
  {
    hide Place, Misplaces, BestBelow, Ordered;
    if pos >= |h| || size[h[pos]] < q.pages {
      NoneBelow(h, off, size, pos, q);
    } else {
      PlaceExact(off[h[pos]], size[h[pos]], q);
      match Place(off[h[pos]], size[h[pos]], q)
      case Some(left) =>
        RootIsBest(h, off, size, pos, q, Spot(h[pos], left));
      case None =>
        BisectBelow(h, off, size, 2 * pos + 1, q);
        BisectBelow(h, off, size, 2 * pos + 2, q);
        BestOfTwo(h, off, size, pos, q, PageBisect(h, off, size, 2 * pos + 1, q),
                  PageBisect(h, off, size, 2 * pos + 2, q), PageBisect(h, off, size, pos, q));
    }
  }

  lemma {:induction false} AboveDown(pos: nat, k: nat)
    requires Above(pos, k)
    ensures pos < k
  {
  }

  /** The pruned search equals exhaustive search: a largest block with an aligned run of the
      requested length, which is placed where it belongs in the block, and nothing exactly when no block
      has one. */
  lemma BisectExhaustive(h: seq<nat>, off: seq<nat>, size: seq<nat>, q: Request)
    requires Sized(h, off) && Sized(h, size) && Ordered(h, size) && Legal(q) && Unwrapped(h, off, size, q)
    ensures match PageBisect(h, off, size, 0, q)
      case Some(s) =>
        && s.id in h && Centred(off[s.id], size[s.id], q, off[s.id] + s.left)
        && forall k :: 0 <= k < |h| && Holds(off, size, h[k], q) ==> size[h[k]] <= size[s.id]
      case None => forall k :: 0 <= k < |h| ==> !Holds(off, size, h[k], q)
  {
    BisectBelow(h, off, size, 0, q);
    hide Holds, Centred;
    forall k | 0 < k < |h| ensures Above(0, k) {
      RootAbove(k);
    }
  }

  /** No block inside the region is misplaced. */
  ghost predicate Safe(q: Request, pub: nat)
  {
    forall offset: nat, size: nat :: size >= q.pages && offset + size <= pub ==> !Misplaces(offset, size, q)
  }

  /** Which requests are safe whatever the free blocks look like. */
  lemma SafeExactly(q: Request, pub: nat)
    requires Legal(q)
    ensures Safe(q, pub) <==>
      q.align <= 1 || q.base == 0 || q.pages > pub || (q.pages < q.base && q.align - q.base + q.pages > pub)
  {
    if q.align > 1 && q.base > 0 && q.pages <= pub {
      if q.pages >= q.base {
        assert Misplaces(0, q.pages, q);
      } else if q.align - q.base + q.pages <= pub {
        assert Misplaces(0, q.align - q.base + q.pages, q);
      }
    }
  }

  /** What is found is a fit, placed where it belongs in its block, in order or not. */
  lemma FoundFits(h: seq<nat>, off: seq<nat>, size: seq<nat>, q: Request)
    requires Sized(h, off) && Sized(h, size) && Legal(q) && Unwrapped(h, off, size, q)
    ensures match PageBisect(h, off, size, 0, q)
      case Some(s) =>
        s.id in h && s.id < |off| && s.id < |size| && Centred(off[s.id], size[s.id], q, off[s.id] + s.left)
      case None => true
  {
    hide Place, Misplaces, Centred;
    match PageBisect(h, off, size, 0, q)
    case Some(s) =>
      var k :| 0 <= k < |h| && h[k] == s.id;
      PlaceExact(off[s.id], size[s.id], q);
    case None =>
  }
}
