/** The max heap of free blocks as a value: a sequence of node ids laid out as a binary
    tree, largest block first; `size` gives each id's block size. */
module MaxHeap {

  function Parent(i: nat): nat
    requires i > 0
  {
    (i - 1) / 2
  }

  ghost predicate Sized(h: seq<nat>, size: seq<nat>)
  {
    forall i :: 0 <= i < |h| ==> h[i] < |size|
  }

  function Key(h: seq<nat>, size: seq<nat>, i: nat): nat
    requires i < |h| && h[i] < |size|
  {
    size[h[i]]
  }

  function Swap(h: seq<nat>, i: nat, j: nat): (r: seq<nat>)
    requires i < |h| && j < |h|
    ensures multiset(r) == multiset(h)
  {
    h[i := h[j]][j := h[i]]
  }

  // ---------- the sifting loops ----------

  function Larger(h: seq<nat>, size: seq<nat>, a: nat, b: nat): nat
    requires a < |h| && Sized(h, size)
  {
    if b < |h| && Key(h, size, b) > Key(h, size, a) then b else a
  }

  function Largest(h: seq<nat>, size: seq<nat>, pos: nat): (best: nat)
    requires pos < |h| && Sized(h, size)
  {
    Larger(h, size, Larger(h, size, pos, 2 * pos + 1), 2 * pos + 2)
  }

  function SiftDown(h: seq<nat>, size: seq<nat>, pos: nat): (r: seq<nat>)
    requires pos < |h| && Sized(h, size)
    ensures |r| == |h| && Sized(r, size) && multiset(r) == multiset(h)
    ensures forall i :: 0 <= i < pos ==> r[i] == h[i]
    decreases |h| - pos
  {
    var best := Largest(h, size, pos);
    if best == pos then h else SiftDown(Swap(h, pos, best), size, best)
  }

  function SiftUp(h: seq<nat>, size: seq<nat>, pos: nat): (r: seq<nat>)
    requires pos < |h| && Sized(h, size)
    ensures |r| == |h| && Sized(r, size) && multiset(r) == multiset(h)
    ensures forall i :: pos < i < |h| ==> r[i] == h[i]
    decreases pos
  {
    if pos > 0 && Key(h, size, pos) > Key(h, size, Parent(pos))
    then SiftUp(Swap(h, pos, Parent(pos)), size, Parent(pos))
    else h
  }

  function Fix(h: seq<nat>, size: seq<nat>, pos: nat): (r: seq<nat>)
    requires pos < |h| && Sized(h, size)
    ensures |r| == |h| && Sized(r, size) && multiset(r) == multiset(h)
  {
    SiftUp(SiftDown(h, size, pos), size, pos)
  }

  function Push(h: seq<nat>, size: seq<nat>, id: nat): (r: seq<nat>)
    requires id < |size| && Sized(h, size)
    ensures |r| == |h| + 1 && Sized(r, size) && multiset(r) == multiset(h) + multiset{id}
  {
    SiftUp(h + [id], size, |h|)
  }

  /** The last entry takes the place of the erased one. */
  function Fill(h: seq<nat>, pos: nat): (r: seq<nat>)
    requires pos < |h|
    ensures |r| == |h| - 1 && multiset(r) == multiset(h) - multiset{h[pos]}
  {
    var n := |h| - 1;
    assert h == h[..n] + [h[n]];
    h[pos := h[n]][..n]
  }

  function Remove(h: seq<nat>, size: seq<nat>, pos: nat): (r: seq<nat>)
    requires pos < |h| && Sized(h, size)
    ensures |r| == |h| - 1 && Sized(r, size) && multiset(r) == multiset(h) - multiset{h[pos]}
  {
    if pos < |h| - 1 then Fix(Fill(h, pos), size, pos) else Fill(h, pos)
  }

  // ---------- heap order ----------

  ghost predicate Edge(h: seq<nat>, size: seq<nat>, i: nat)
    requires 0 < i < |h| && Sized(h, size)
  {
    Key(h, size, i) <= Key(h, size, Parent(i))
  }

  /** Every entry is at most its parent, except possibly the one at `e`. */
  ghost predicate OrderedExcept(h: seq<nat>, size: seq<nat>, e: nat)
  {
    Sized(h, size) && forall i :: 0 < i < |h| && i != e ==> Edge(h, size, i)
  }

  ghost predicate Ordered(h: seq<nat>, size: seq<nat>)
  {
    OrderedExcept(h, size, 0)
  }

  /** The entries below `e` are at most the entry above it. */
  ghost predicate Bridged(h: seq<nat>, size: seq<nat>, e: nat)
    requires Sized(h, size)
  {
    0 < e < |h| ==>
      forall i :: 0 < i < |h| && Parent(i) == e ==> Key(h, size, i) <= Key(h, size, Parent(e))
  }

  /** In order, but for an entry at `e` that may have outgrown its ancestors. */
  ghost predicate Stale(h: seq<nat>, size: seq<nat>, e: nat)
  {
    e < |h| && OrderedExcept(h, size, e) && Bridged(h, size, e)
  }

  /** In order but for the entry at `pos`, whose size is arbitrary. */
  ghost predicate Loose(h: seq<nat>, size: seq<nat>, pos: nat)
  {
    && pos < |h| && Sized(h, size) && Bridged(h, size, pos)
    && forall i :: 0 < i < |h| && i != pos && Parent(i) != pos ==> Edge(h, size, i)
  }

  lemma {:induction false} SiftUpOrders(h: seq<nat>, size: seq<nat>, pos: nat)
    requires Stale(h, size, pos)
    ensures Ordered(SiftUp(h, size, pos), size)
    decreases pos
  {
    if pos > 0 && Key(h, size, pos) > Key(h, size, Parent(pos)) {
      var p := Parent(pos);
      var g := Swap(h, pos, p);
      forall i | 0 < i < |g| && i != p ensures Edge(g, size, i) {
        assert i != pos ==> Edge(h, size, i);
        assert p > 0 ==> Edge(h, size, p);
      }
      forall i | 0 < p && 0 < i < |g| && Parent(i) == p
        ensures Key(g, size, i) <= Key(g, size, Parent(p))
      {
        assert Edge(h, size, p);
        assert i != pos ==> Edge(h, size, i);
      }
      SiftUpOrders(g, size, p);
    }
  }

  lemma LargestChild(h: seq<nat>, size: seq<nat>, pos: nat)
    requires pos < |h| && Sized(h, size)
    ensures var b := Largest(h, size, pos);
      && pos <= b < |h|
      && (b != pos ==> Parent(b) == pos && Key(h, size, b) > Key(h, size, pos))
    ensures var b := Largest(h, size, pos);
      forall i :: 0 < i < |h| && Parent(i) == pos ==> Key(h, size, i) <= Key(h, size, b)
  {
    forall i | 0 < i < |h| && Parent(i) == pos ensures i == 2 * pos + 1 || i == 2 * pos + 2 {
    }
  }

  /** After trading places with its larger child, only the entry that sank may be loose. */
  lemma SinkOnce(h: seq<nat>, size: seq<nat>, pos: nat, b: nat)
    requires Loose(h, size, pos) && pos < b < |h| && Parent(b) == pos
    requires forall i :: 0 < i < |h| && Parent(i) == pos ==> Key(h, size, i) <= Key(h, size, b)
    requires Key(h, size, b) > Key(h, size, pos)
    ensures var g := Swap(h, pos, b);
      Loose(g, size, b) && Edge(g, size, b) && (pos > 0 ==> Edge(g, size, pos))
  {
    var g := Swap(h, pos, b);
    forall i | 0 < i < |g| && Parent(i) != b ensures Edge(g, size, i) {
      assert i != pos && Parent(i) != pos ==> Edge(h, size, i);
    }
    forall i | 0 < i < |g| && Parent(i) == b ensures Key(g, size, i) <= Key(g, size, Parent(b)) {
      assert Edge(h, size, i);
    }
  }

  lemma {:induction false} SiftDownOrders(h: seq<nat>, size: seq<nat>, pos: nat)
    requires Loose(h, size, pos) && (pos > 0 ==> Edge(h, size, pos))
    ensures Ordered(SiftDown(h, size, pos), size)
    decreases |h| - pos
  {
    LargestChild(h, size, pos);
    var b := Largest(h, size, pos);
    hide Largest;
    if b != pos {
      SinkOnce(h, size, pos, b);
      hide Loose;
      SiftDownOrders(Swap(h, pos, b), size, b);
    } else {
      forall i | 0 < i < |h| ensures Edge(h, size, i) {
        assert i != pos && Parent(i) != pos ==> Edge(h, size, i);
      }
    }
  }

  /** Re-sifting a single out-of-place entry restores heap order. */
  lemma FixOrders(h: seq<nat>, size: seq<nat>, pos: nat)
    requires Loose(h, size, pos)
    ensures Ordered(Fix(h, size, pos), size)
  {
    LargestChild(h, size, pos);
    var b := Largest(h, size, pos);
    hide Largest;
    if b == pos {
      forall i | 0 < i < |h| && i != pos ensures Edge(h, size, i) {
        assert Parent(i) != pos ==> Edge(h, size, i);
      }
      SiftUpOrders(h, size, pos);
    } else {
      SinkOnce(h, size, pos, b);
      hide Loose;
      var g := Swap(h, pos, b);
      SiftDownOrders(g, size, b);
      var r := SiftDown(g, size, b);
      assert pos > 0 ==> r[pos] == g[pos] && r[Parent(pos)] == g[Parent(pos)];
    }
  }

  lemma PushOrders(h: seq<nat>, size: seq<nat>, id: nat)
    requires Ordered(h, size) && id < |size|
    ensures Ordered(Push(h, size, id), size)
  {
    var g := h + [id];
    forall i | 0 < i < |g| && i != |h| ensures Edge(g, size, i) {
      assert Edge(h, size, i);
    }
    SiftUpOrders(g, size, |h|);
  }

  lemma RemoveOrders(h: seq<nat>, size: seq<nat>, pos: nat)
    requires Ordered(h, size) && pos < |h|
    ensures Ordered(Remove(h, size, pos), size)
  {
    var g := Fill(h, pos);
    forall i | 0 < i < |g| && i != pos && Parent(i) != pos ensures Edge(g, size, i) {
      assert Edge(h, size, i);
    }
    if pos < |g| {
      forall i | 0 < pos && 0 < i < |g| && Parent(i) == pos
        ensures Key(g, size, i) <= Key(g, size, Parent(pos))
      {
        assert Edge(h, size, i) && Edge(h, size, pos);
      }
      FixOrders(g, size, pos);
    }
  }
}
