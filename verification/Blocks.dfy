/** Page intervals held by nodes: `off[i]` and `size[i]` give the block of node `i`. */
module Blocks {

  /** The pages from `offset` on. */
  ghost function Run(offset: nat, pages: nat): (r: set<nat>)
    ensures forall p :: p in r <==> offset <= p < offset + pages
  {
    if pages == 0 then {} else Run(offset, pages - 1) + {offset + pages - 1}
  }

  lemma RunSplit(o: nat, n: nat, k: nat)
    requires k <= n
    ensures Run(o, n) == Run(o, k) + Run(o + k, n - k) && Run(o, k) !! Run(o + k, n - k)
  {
    hide Run;
  }

  lemma BeforeInRun(a: nat, k: nat, o: nat)
    ensures a < o <= a + k ==> o - 1 in Run(a, k)
  {
  }

  /** Nonempty, in-bounds and pairwise disjoint blocks. */
  ghost predicate Disjoint(off: seq<nat>, size: seq<nat>, ids: set<nat>, pub: nat)
  {
    && |off| == |size|
    && (forall i :: i in ids ==> i < |off| && size[i] > 0 && off[i] + size[i] <= pub)
    && (forall i, j :: i in ids && j in ids && i != j ==>
          off[i] + size[i] <= off[j] || off[j] + size[j] <= off[i])
  }

  /** No block ends where another starts. */
  ghost predicate Spaced(off: seq<nat>, size: seq<nat>, ids: set<nat>)
  {
    |off| == |size| &&
    forall i, j :: i in ids && j in ids && i < |off| && j < |off| ==> off[i] + size[i] != off[j]
  }

  /** The pages the given blocks hold. */
  ghost function Pages(off: seq<nat>, size: seq<nat>, ids: set<nat>): set<nat>
  {
    set i, p | i in ids && i < |off| && i < |size| && p in Run(off[i], size[i]) :: p
  }

  lemma PagesIn(off: seq<nat>, size: seq<nat>, ids: set<nat>, i: nat)
    requires i in ids && i < |off| && i < |size|
    ensures Run(off[i], size[i]) <= Pages(off, size, ids)
  {
  }

  /** Blocks of other nodes are unaffected. */
  lemma PagesFrame(off: seq<nat>, size: seq<nat>, off': seq<nat>, size': seq<nat>, ids: set<nat>)
    requires |off'| == |off| && |size'| == |size|
    requires forall i :: i in ids && i < |off| && i < |size| ==> off'[i] == off[i] && size'[i] == size[i]
    ensures Pages(off', size', ids) == Pages(off, size, ids)
  {
  }

  lemma PagesUnion(off: seq<nat>, size: seq<nat>, a: set<nat>, b: set<nat>)
    ensures Pages(off, size, a + b) == Pages(off, size, a) + Pages(off, size, b)
  {
  }

  lemma PagesOne(off: seq<nat>, size: seq<nat>, i: nat)
    requires i < |off| && i < |size|
    ensures Pages(off, size, {i}) == Run(off[i], size[i])
  {
  }

  lemma PagesDisjoint(off: seq<nat>, size: seq<nat>, a: set<nat>, b: set<nat>, pub: nat)
    requires Disjoint(off, size, a + b, pub) && a !! b
    ensures Pages(off, size, a) !! Pages(off, size, b)
  {
  }

  /** A new block in pages no block holds. */
  lemma AddBlock(off: seq<nat>, size: seq<nat>, ids: set<nat>, pub: nat, i: nat, o: nat, n: nat)
    requires Disjoint(off, size, ids, pub) && i !in ids && i < |off| && n > 0 && o + n <= pub
    requires Run(o, n) !! Pages(off, size, ids)
    ensures Disjoint(off[i := o], size[i := n], ids + {i}, pub)
    ensures Pages(off[i := o], size[i := n], ids + {i}) == Pages(off, size, ids) + Run(o, n)
  {
    hide Run, Pages;
    var off', size' := off[i := o], size[i := n];
    forall k | k in ids ensures off[k] + size[k] <= o || o + n <= off[k] {
      PagesIn(off, size, ids, k);
      var p := if off[k] <= o then o else off[k];
      assert !(p in Run(o, n) && p in Run(off[k], size[k]));
    }
    PagesFrame(off, size, off', size', ids);
    PagesUnion(off', size', ids, {i});
    PagesOne(off', size', i);
  }

  lemma DropBlock(off: seq<nat>, size: seq<nat>, ids: set<nat>, pub: nat, i: nat)
    requires Disjoint(off, size, ids, pub) && i in ids
    ensures Disjoint(off, size, ids - {i}, pub)
    ensures Pages(off, size, ids - {i}) == Pages(off, size, ids) - Run(off[i], size[i])
  {
    assert ids == (ids - {i}) + {i};
    PagesUnion(off, size, ids - {i}, {i});
    PagesOne(off, size, i);
    PagesDisjoint(off, size, ids - {i}, {i}, pub);
  }

  /** A block gives up pages at either end. */
  lemma ShrinkBlock(off: seq<nat>, size: seq<nat>, ids: set<nat>, pub: nat, i: nat, o: nat, n: nat)
    requires Disjoint(off, size, ids, pub) && i in ids
    requires off[i] <= o && o + n <= off[i] + size[i] && n > 0
    ensures Disjoint(off[i := o], size[i := n], ids, pub)
    ensures Pages(off[i := o], size[i := n], ids)
         == Pages(off, size, ids) - Run(off[i], size[i]) + Run(o, n)
  {
    hide Run, Pages;
    DropBlock(off, size, ids, pub, i);
    assert Run(o, n) <= Run(off[i], size[i]);
    AddBlock(off, size, ids - {i}, pub, i, o, n);
    assert (ids - {i}) + {i} == ids;
  }

  /** A block absorbs the one that starts where it ends. */
  lemma MergeBlocks(off: seq<nat>, size: seq<nat>, ids: set<nat>, pub: nat, i: nat, j: nat)
    requires Disjoint(off, size, ids, pub) && i in ids && j in ids && off[i] + size[i] == off[j]
    ensures Disjoint(off, size[i := size[i] + size[j]], ids - {j}, pub)
    ensures Pages(off, size[i := size[i] + size[j]], ids - {j}) == Pages(off, size, ids)
  {
    hide Run, Pages;
    DropBlock(off, size, ids, pub, j);
    DropBlock(off, size, ids - {j}, pub, i);
    var rest := ids - {j} - {i};
    var n := size[i] + size[j];
    PagesIn(off, size, ids, i);
    PagesIn(off, size, ids, j);
    PagesIn(off, size, ids - {j}, i);
    assert Run(off[i], n) == Run(off[i], size[i]) + Run(off[j], size[j]);
    AddBlock(off, size, rest, pub, i, off[i], n);
    assert off[i := off[i]] == off;
    assert rest + {i} == ids - {j};
  }

  /** Spaced blocks are maximal runs: the pages just outside a block are not held. */
  lemma MaximalRun(off: seq<nat>, size: seq<nat>, ids: set<nat>, pub: nat, i: nat)
    requires Disjoint(off, size, ids, pub) && Spaced(off, size, ids) && i in ids
    ensures off[i] > 0 ==> off[i] - 1 !in Pages(off, size, ids)
    ensures off[i] + size[i] !in Pages(off, size, ids)
  {
  }

  /** Every run of held pages lies inside a single block when the blocks are spaced. */
  lemma {:induction false} RunInOneBlock(off: seq<nat>, size: seq<nat>, ids: set<nat>, pub: nat,
                                         o: nat, n: nat) returns (i: nat)
    requires Disjoint(off, size, ids, pub) && Spaced(off, size, ids)
    requires n > 0 && Run(o, n) <= Pages(off, size, ids)
    ensures i in ids && off[i] <= o && o + n <= off[i] + size[i]
  {
    if n == 1 {
      assert o in Run(o, n);
      i :| i in ids && o in Run(off[i], size[i]);
    } else {
      i := RunInOneBlock(off, size, ids, pub, o, n - 1);
      var p := o + n - 1;
      assert p in Run(o, n);
      var j :| j in ids && p in Run(off[j], size[j]);
    }
  }

  // ---------- two families of blocks side by side ----------

  lemma Subfamily(off: seq<nat>, size: seq<nat>, ids: set<nat>, sub: set<nat>, pub: nat)
    requires Disjoint(off, size, ids, pub) && sub <= ids
    ensures Disjoint(off, size, sub, pub)
  {
  }

  /** A block of the first family gives up pages at its ends. */
  lemma ShrinkIn(off: seq<nat>, size: seq<nat>, a: set<nat>, b: set<nat>, pub: nat, i: nat, o: nat, n: nat)
    requires Disjoint(off, size, a + b, pub) && a !! b && i in a
    requires off[i] <= o && o + n <= off[i] + size[i] && n > 0
    ensures var (off', size') := (off[i := o], size[i := n]);
      && Disjoint(off', size', a + b, pub)
      && Pages(off', size', a) == Pages(off, size, a) - Run(off[i], size[i]) + Run(o, n)
      && Pages(off', size', b) == Pages(off, size, b)
      && (Spaced(off, size, a) ==> Spaced(off', size', a))
  {
    hide Run, Pages;
    Subfamily(off, size, a + b, a, pub);
    ShrinkBlock(off, size, a, pub, i, o, n);
    ShrinkBlock(off, size, a + b, pub, i, o, n);
    PagesFrame(off, size, off[i := o], size[i := n], b);
  }

  /** A new block joins the first family. */
  lemma AddIn(off: seq<nat>, size: seq<nat>, a: set<nat>, b: set<nat>, pub: nat, i: nat, o: nat, n: nat)
    requires Disjoint(off, size, a + b, pub) && a !! b && i !in a + b && i < |off| && n > 0 && o + n <= pub
    requires Run(o, n) !! Pages(off, size, a) && Run(o, n) !! Pages(off, size, b)
    ensures var (off', size') := (off[i := o], size[i := n]);
      && Disjoint(off', size', (a + {i}) + b, pub)
      && Pages(off', size', a + {i}) == Pages(off, size, a) + Run(o, n)
      && Pages(off', size', b) == Pages(off, size, b)
  {
    hide Run, Pages;
    Subfamily(off, size, a + b, a, pub);
    PagesUnion(off, size, a, b);
    AddBlock(off, size, a, pub, i, o, n);
    AddBlock(off, size, a + b, pub, i, o, n);
    PagesFrame(off, size, off[i := o], size[i := n], b);
    assert (a + b) + {i} == (a + {i}) + b;
  }

  /** No block touches the run. */
  ghost predicate ClearOf(off: seq<nat>, size: seq<nat>, a: set<nat>, o: nat, n: nat)
  {
    forall k :: k in a && k < |off| && k < |size| ==> off[k] + size[k] != o && o + n != off[k]
  }

  lemma SpacedAdd(off: seq<nat>, size: seq<nat>, a: set<nat>, i: nat, o: nat, n: nat)
    requires Spaced(off, size, a) && i !in a && i < |off| && n > 0 && ClearOf(off, size, a, o, n)
    ensures Spaced(off[i := o], size[i := n], a + {i})
  {
  }

  /** A block of the first family is given away. */
  lemma DropIn(off: seq<nat>, size: seq<nat>, a: set<nat>, b: set<nat>, pub: nat, i: nat)
    requires Disjoint(off, size, a + b, pub) && i in a
    ensures Disjoint(off, size, (a - {i}) + b, pub)
    ensures Pages(off, size, a - {i}) == Pages(off, size, a) - Run(off[i], size[i])
    ensures Spaced(off, size, a) ==> Spaced(off, size, a - {i})
  {
    Subfamily(off, size, a + b, (a - {i}) + b, pub);
    Subfamily(off, size, a + b, a, pub);
    DropBlock(off, size, a, pub, i);
  }

  // ---------- counting ----------

  lemma {:induction false} RunSize(o: nat, n: nat)
    ensures |Run(o, n)| == n
  {
    if n > 0 {
      RunSize(o, n - 1);
      assert o + n - 1 !in Run(o, n - 1);
    }
  }

  lemma {:induction false} StartsSize(off: seq<nat>, size: seq<nat>, ids: set<nat>, pub: nat) returns (starts: set<nat>)
    requires Disjoint(off, size, ids, pub)
    ensures |starts| == |ids| && forall p :: p in starts ==> p < pub && exists i :: i in ids && off[i] == p
    decreases |ids|
  {
    if ids == {} {
      starts := {};
    } else {
      var i :| i in ids;
      starts := StartsSize(off, size, ids - {i}, pub);
      assert off[i] !in starts;
      starts := starts + {off[i]};
      assert |ids| == |ids - {i}| + 1;
    }
  }

  lemma {:induction false} EndsSize(off: seq<nat>, size: seq<nat>, ids: set<nat>, pub: nat) returns (ends: set<nat>)
    requires Disjoint(off, size, ids, pub)
    ensures |ends| == |ids| && forall p :: p in ends ==> 0 < p <= pub && exists i :: i in ids && off[i] + size[i] == p
    decreases |ids|
  {
    if ids == {} {
      ends := {};
    } else {
      var i :| i in ids;
      ends := EndsSize(off, size, ids - {i}, pub);
      assert off[i] + size[i] !in ends;
      ends := ends + {off[i] + size[i]};
      assert |ids| == |ids - {i}| + 1;
    }
  }

  /** Blocks that do not touch each other leave a page between any two. */
  lemma HalfAsMany(off: seq<nat>, size: seq<nat>, ids: set<nat>, pub: nat)
    requires Disjoint(off, size, ids, pub) && Spaced(off, size, ids)
    ensures 2 * |ids| <= pub + 1
  {
    var starts := StartsSize(off, size, ids, pub);
    var ends := EndsSize(off, size, ids, pub);
    assert starts !! ends;
    hide Run;
    assert starts + ends <= Run(0, pub + 1);
    RunSize(0, pub + 1);
    SubsetSize(starts + ends, Run(0, pub + 1));
  }

  lemma {:induction false} SubsetSize(a: set<nat>, b: set<nat>)
    requires a <= b
    ensures |a| <= |b|
  {
    assert b == a + (b - a);
  }

  lemma DifferenceSize(a: set<nat>, b: set<nat>)
    requires b <= a
    ensures |a - b| == |a| - |b|
  {
    assert a == (a - b) + b;
  }

  /** A page no block holds starts no block. */
  lemma StartsNone(off: seq<nat>, size: seq<nat>, a: set<nat>, b: set<nat>, pub: nat, p: nat)
    requires Disjoint(off, size, a + b, pub)
    requires p !in Pages(off, size, a) && p !in Pages(off, size, b)
    ensures forall i :: i in a + b && i < |off| ==> off[i] != p
  {
    hide Run;
    forall i | i in a + b && i < |off| ensures off[i] in Pages(off, size, a) + Pages(off, size, b) {
      assert off[i] in Run(off[i], size[i]);
    }
  }

  lemma FreshStart(off: seq<nat>, size: seq<nat>, a: set<nat>, pub: nat, o: nat, n: nat)
    requires Run(o, n) !! Pages(off, size, a) && n > 0
    requires |off| == |size| && forall i :: i in a ==> i < |off| && size[i] > 0
    ensures forall i :: i in a && i < |off| ==> off[i] != o
  {
    hide Run;
    assert o in Run(o, n);
    forall i | i in a && i < |off| ensures off[i] in Pages(off, size, a) {
      assert off[i] in Run(off[i], size[i]);
    }
  }

  /** Blocks `b` are where they were. */
  ghost predicate Untouched(off: seq<nat>, size: seq<nat>, off': seq<nat>, size': seq<nat>, b: set<nat>)
  {
    |off'| == |off| && |size'| == |size| &&
    forall i :: i in b && i < |off| && i < |size| ==> off'[i] == off[i] && size'[i] == size[i]
  }

  /** The pages [o, o + n) have been taken out of the first family. */
  ghost predicate Withdrawn(off: seq<nat>, size: seq<nat>, a: set<nat>, b: set<nat>,
                            off': seq<nat>, size': seq<nat>, a': set<nat>, pub: nat, o: nat, n: nat)
  {
    && Disjoint(off', size', a' + b, pub)
    && Pages(off', size', a') == Pages(off, size, a) - Run(o, n)
    && Pages(off', size', b) == Pages(off, size, b) && Untouched(off, size, off', size', b)
    && (Spaced(off, size, a) ==> Spaced(off', size', a'))
  }

  /** A block loses its first pages. */
  lemma FrontLost(off: seq<nat>, size: seq<nat>, a: set<nat>, b: set<nat>, pub: nat, i: nat, n: nat,
                  off': seq<nat>, size': seq<nat>)
    requires Disjoint(off, size, a + b, pub) && a !! b && i in a && 0 < n < size[i]
    requires off' == off[i := off[i] + n] && size' == size[i := size[i] - n]
    ensures Withdrawn(off, size, a, b, off', size', a, pub, off[i], n)
  {
    hide Run, Pages, Spaced;
    ShrinkIn(off, size, a, b, pub, i, off[i] + n, size[i] - n);
    RunSplit(off[i], size[i], n);
    PagesIn(off, size, a, i);
  }

  /** A block is used up. */
  lemma AllLost(off: seq<nat>, size: seq<nat>, a: set<nat>, b: set<nat>, pub: nat, i: nat)
    requires Disjoint(off, size, a + b, pub) && i in a
    ensures Withdrawn(off, size, a, b, off, size, a - {i}, pub, off[i], size[i])
  {
    hide Run, Pages, Spaced;
    DropIn(off, size, a, b, pub, i);
  }

  /** A block loses its last pages. */
  lemma RearLost(off: seq<nat>, size: seq<nat>, a: set<nat>, b: set<nat>, pub: nat, i: nat, n: nat, size': seq<nat>)
    requires Disjoint(off, size, a + b, pub) && a !! b && i in a && 0 < n <= size[i]
    requires size' == size[i := n]
    ensures Withdrawn(off, size, a, b, off, size', a, pub, off[i] + n, size[i] - n)
  {
    hide Run, Pages, Spaced;
    ShrinkIn(off, size, a, b, pub, i, off[i], n);
    assert off[i := off[i]] == off;
    RunSplit(off[i], size[i], n);
    PagesIn(off, size, a, i);
  }

  /** The pages [o, o + n) have joined the first family. */
  ghost predicate Joined(off: seq<nat>, size: seq<nat>, a: set<nat>, b: set<nat>,
                         off': seq<nat>, size': seq<nat>, a': set<nat>, pub: nat, o: nat, n: nat)
  {
    && Disjoint(off', size', a' + b, pub)
    && Pages(off', size', a') == Pages(off, size, a) + Run(o, n)
    && Pages(off', size', b) == Pages(off, size, b) && Untouched(off, size, off', size', b)
    && (Spaced(off, size, a) && ClearOf(off, size, a, o, n) ==> Spaced(off', size', a'))
  }

  /** What is left behind a run taken from the middle of a block touches no block. */
  lemma RearClear(off: seq<nat>, size: seq<nat>, a: set<nat>, pub: nat, i: nat, l: nat, p: nat, size': seq<nat>)
    requires Disjoint(off, size, a, pub) && Spaced(off, size, a) && i in a
    requires 0 < l && 0 < p && l + p < size[i] && size' == size[i := l]
    ensures ClearOf(off, size', a, off[i] + l + p, size[i] - l - p)
  {
  }

  /** Giving up everything from `o` on and getting back all but the first `p` pages. */
  lemma MiddleLost(off: seq<nat>, size: seq<nat>, a: set<nat>, b: set<nat>, pub: nat, i: nat, l: nat, p: nat,
                   size1: seq<nat>, off': seq<nat>, size': seq<nat>, a': set<nat>)
    requires Disjoint(off, size, a + b, pub) && i in a && 0 < l && 0 < p && l + p < size[i]
    requires size1 == size[i := l]
    requires Withdrawn(off, size, a, b, off, size1, a, pub, off[i] + l, size[i] - l)
    requires Joined(off, size1, a, b, off', size', a', pub, off[i] + l + p, size[i] - l - p)
    ensures Withdrawn(off, size, a, b, off', size', a', pub, off[i] + l, p)
  {
    hide Run, Pages, Spaced, ClearOf;
    Subfamily(off, size, a + b, a, pub);
    if Spaced(off, size, a) { RearClear(off, size, a, pub, i, l, p, size1); }
    RunSplit(off[i] + l, size[i] - l, p);
    assert Run(off[i] + l + p, size[i] - l - p) <= Pages(off, size, a) by {
      PagesIn(off, size, a, i);
    }
  }
}
