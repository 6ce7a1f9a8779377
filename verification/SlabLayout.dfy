/** How a slab's bytes are divided: blocks from the start, then the stack of free block ids
    growing down from the slab's node id at the very end. */
module SlabLayout {
  import opened Words

  /** Sizes in bytes: the whole slab, a node id, an entry of the free stack. */
  datatype Layout = Layout(slab: nat, node: nat, entry: nat)

  ghost predicate Sane(l: Layout)
  {
    l.entry > 0 && l.node > 0 && l.node <= l.slab
  }

  /** Where the node id is, and the free stack begins. */
  function Offset(l: Layout): nat
    requires l.node <= l.slab
  {
    l.slab - l.node
  }

  /** How many blocks of the class a slab has, each with room for its id in the stack. */
  function BlockCount(l: Layout, size: nat): nat
    requires l.node <= l.slab && l.entry > 0
  {
    Offset(l) / (size + l.entry)
  }

  function BlockStart(base: nat, block: nat, size: nat): nat
  {
    base + block * size
  }

  /** Entry `k` of the free stack, counted from 1. */
  function EntryStart(l: Layout, base: nat, k: nat): int
    requires l.node <= l.slab
  {
    base + Offset(l) - k * l.entry
  }

  /** As many blocks as fit, each with its entry of the stack: one more of each would not. */
  lemma Fit(l: Layout, size: nat)
    requires Sane(l)
    ensures var n := BlockCount(l, size);
      n * size + n * l.entry <= Offset(l) < (n + 1) * size + (n + 1) * l.entry
  {
    var n, d := BlockCount(l, size), size + l.entry;
    assert Offset(l) == d * n + Offset(l) % d;
    assert d * n == n * size + n * l.entry;
    assert d * (n + 1) == (n + 1) * size + (n + 1) * l.entry;
  }

  lemma Before(i: nat, j: nat, size: nat)
    requires i < j
    ensures i * size + size <= j * size
  {
    var d := j - i - 1;
    NotNegative(d, size);
    assert (i + 1 + d) * size == i * size + size + d * size;
  }

  /** Blocks of a slab overlap neither each other, nor any entry of the free stack, nor the node
      id, and all of it lies in the slab. */
  lemma NothingOverlaps(l: Layout, base: nat, size: nat, i: nat, j: nat, k: nat)
    requires Sane(l) && i < BlockCount(l, size) && j < BlockCount(l, size) && 0 < k <= BlockCount(l, size)
    ensures i < j ==> BlockStart(base, i, size) + size <= BlockStart(base, j, size)
    ensures BlockStart(base, i, size) + size <= EntryStart(l, base, k)
    ensures EntryStart(l, base, k) + l.entry <= base + Offset(l)
    ensures j > 0 && j < k ==> EntryStart(l, base, k) + l.entry <= EntryStart(l, base, j)
    ensures base <= BlockStart(base, i, size) && base + Offset(l) + l.node == base + l.slab
  {
    hide BlockCount;
    var n := BlockCount(l, size);
    Fit(l, size);
    Inside(i, k, n, size, l.entry, Offset(l));
    if i < j { Before(i, j, size); }
    if 0 < j < k { Before(j, k, l.entry); }
  }

  lemma Inside(i: nat, k: nat, n: nat, size: nat, entry: nat, offset: nat)
    requires i < n && 0 < k <= n && n * size + n * entry <= offset
    ensures i * size >= 0 && i * size + size <= offset - k * entry && k * entry >= entry
  {
    Before(i, n, size);
    if k < n { Before(k, n, entry); }
    Before(0, k, entry);
  }

  // ---------- finding the slab and the block of an address ----------

  /** Clears the low bits of an address; slabs are as large as their alignment. */
  function SlabStart(l: Layout, p: nat): nat
    requires l.slab > 0
  {
    p - p % l.slab
  }

  function BlockOf(base: nat, p: nat, size: nat): nat
    requires size > 0 && base <= p
  {
    (p - base) / size
  }

  /** Looking up any address inside a block finds the slab. */
  lemma SlabFound(l: Layout, base: nat, size: nat, block: nat, p: nat)
    requires Sane(l) && size > 0 && base % l.slab == 0 && block < BlockCount(l, size)
    requires BlockStart(base, block, size) <= p < BlockStart(base, block, size) + size
    ensures SlabStart(l, p) == base
  {
    hide BlockCount;
    NothingOverlaps(l, base, size, block, block, 1);
    InBlock(l.slab, base, p);
  }

  lemma InBlock(slab: nat, base: nat, p: nat)
    requires slab > 0 && base % slab == 0 && base <= p < base + slab
    ensures p - p % slab == base
  {
    Recompose(base, slab);
    Euclid(p, slab, base / slab, p - base);
  }

  /** Looking up any address inside a block, its start included, finds the block. */
  lemma BlockFound(base: nat, size: nat, block: nat, p: nat)
    requires size > 0 && BlockStart(base, block, size) <= p < BlockStart(base, block, size) + size
    ensures base <= p && BlockOf(base, p, size) == block
  {
    NotNegative(block, size);
    Commute(block, size);
    Euclid(p - base, size, block, p - BlockStart(base, block, size));
  }

  lemma LookupInverts(l: Layout, base: nat, size: nat, block: nat, p: nat)
    requires Sane(l) && size > 0 && base % l.slab == 0 && block < BlockCount(l, size)
    requires BlockStart(base, block, size) <= p < BlockStart(base, block, size) + size
    ensures SlabStart(l, p) == base && base <= p && BlockOf(base, p, size) == block
  {
    hide BlockCount, SlabStart, BlockOf, BlockStart;
    SlabFound(l, base, size, block, p);
    BlockFound(base, size, block, p);
  }

  // ---------- size classes ----------

  /** The next size class: a quarter more, rounded up to a multiple of the pointer size. */
  function NextClass(n: nat, pointer: nat): nat
    requires pointer > 0
  {
    (n * 5 / (4 * pointer) + if n * 5 % (4 * pointer) != 0 then 1 else 0) * pointer
  }

  function SizeClass(i: nat, pointer: nat): nat
    requires pointer > 0
  {
    if i == 0 then pointer else NextClass(SizeClass(i - 1, pointer), pointer)
  }

  lemma NextClassGrows(n: nat, pointer: nat)
    requires pointer > 0 && n > 0 && n % pointer == 0
    ensures n < NextClass(n, pointer) && NextClass(n, pointer) % pointer == 0
    ensures 5 * n <= 4 * NextClass(n, pointer) < 5 * n + 4 * pointer
  {
    var d := 4 * pointer;
    var q, r := n * 5 / d, n * 5 % d;
    Recompose(n * 5, d);
    var m := q + if r != 0 then 1 else 0;
    RoundUp(n * 5, pointer, q, r, m);
    Commute(m, pointer);
    Euclid(m * pointer, pointer, m, 0);
  }

  lemma RoundUp(x: nat, pointer: nat, q: nat, r: nat, m: nat)
    requires x == (4 * pointer) * q + r && r < 4 * pointer && m == q + if r != 0 then 1 else 0
    ensures x <= 4 * (m * pointer) < x + 4 * pointer
  {
    assert (4 * pointer) * q == 4 * (q * pointer);
    assert (q + 1) * pointer == q * pointer + pointer;
  }

  /** Every size class is a multiple of the pointer size, so blocks are aligned to it, and the
      classes ascend. */
  lemma {:induction false} ClassesAscend(i: nat, pointer: nat)
    requires pointer > 0
    ensures SizeClass(i, pointer) % pointer == 0 && SizeClass(i, pointer) > 0
    ensures SizeClass(i, pointer) < SizeClass(i + 1, pointer)
  {
    hide NextClass;
    if i == 0 {
      Euclid(pointer, pointer, 1, 0);
    } else {
      ClassesAscend(i - 1, pointer);
      NextClassGrows(SizeClass(i - 1, pointer), pointer);
    }
    NextClassGrows(SizeClass(i, pointer), pointer);
  }

  /** The table of the first `n` size classes. */
  ghost predicate ClassTable(classes: seq<nat>)
  {
    forall i, j :: 0 <= i < j < |classes| ==> classes[i] < classes[j]
  }

  lemma TableAscends(n: nat, pointer: nat)
    requires pointer > 0
    ensures ClassTable(seq(n, i requires 0 <= i < n => SizeClass(i, pointer)))
  {
    forall i: nat, j: nat | i < j < n ensures SizeClass(i, pointer) < SizeClass(j, pointer) {
      Ascending(i, j, pointer);
    }
  }

  lemma {:induction false} Ascending(i: nat, j: nat, pointer: nat)
    requires pointer > 0 && i < j
    ensures SizeClass(i, pointer) < SizeClass(j, pointer)
  {
    if i + 1 < j { Ascending(i, j - 1, pointer); }
    ClassesAscend(j - 1, pointer);
  }

  predicate Aligned(size: nat, alignment: nat)
    requires alignment > 0
  {
    size % alignment == 0
  }

  /** The first class whose blocks hold `bytes` and are multiples of the alignment, or the number of
      classes when there is none. */
  method SlabClass(classes: seq<nat>, bytes: nat, alignment: nat) returns (lo: nat)
    requires ClassTable(classes) && alignment > 0
    ensures lo <= |classes| && (lo < |classes| ==> bytes <= classes[lo] && Aligned(classes[lo], alignment))
    ensures forall i: nat :: i < lo ==> !(bytes <= classes[i] && Aligned(classes[i], alignment))
  {
    hide Aligned;
    lo := 0;
    var hi := |classes|;
    while lo < hi
      invariant lo <= hi <= |classes|
      invariant forall i: nat :: i < lo ==> classes[i] < bytes
      invariant forall i: nat :: hi <= i < |classes| ==> bytes <= classes[i]
    {
      var mid := (hi + lo) / 2;
      if classes[mid] < bytes {
        lo := mid + 1;
      } else {
        hi := mid;
      }
    }
    while lo < |classes| && !Aligned(classes[lo], alignment)
      invariant lo <= |classes| && forall i: nat :: lo <= i < |classes| ==> bytes <= classes[i]
      invariant forall i: nat :: i < lo ==> !(bytes <= classes[i] && Aligned(classes[i], alignment))
    {
      lo := lo + 1;
    }
  }
}
