/** The allocator's free and batched pages without its nodes: the free blocks in heap order and the
    batched blocks in order of arrival, and what each operation makes of them. */
module Plain {
  import opened Options
  import opened MaxHeap
  import opened StaleHeap
  import opened Pending
  import opened Bisect

  datatype Image = Image(heap: seq<PageFree>, batch: seq<PageFree>)

  function Sizes(b: seq<PageFree>): (r: seq<nat>)
    ensures |r| == |b| && forall i :: 0 <= i < |b| ==> r[i] == b[i].pages
  {
    seq(|b|, i requires 0 <= i < |b| => b[i].pages)
  }

  function Offsets(b: seq<PageFree>): (r: seq<nat>)
    ensures |r| == |b| && forall i :: 0 <= i < |b| ==> r[i] == b[i].offset
  {
    seq(|b|, i requires 0 <= i < |b| => b[i].offset)
  }

  /** Entry `i` at place `i`. */
  function Places(n: nat): (r: seq<nat>)
    ensures |r| == n && forall i :: 0 <= i < n ==> r[i] == i
  {
    seq(n, i requires 0 <= i < n => i)
  }

  function Arranged(b: seq<PageFree>, r: seq<nat>): (c: seq<PageFree>)
    requires forall i :: 0 <= i < |r| ==> r[i] < |b|
    ensures |c| == |r| && forall i :: 0 <= i < |r| ==> c[i] == b[r[i]]
  {
    seq(|r|, i requires 0 <= i < |r| => b[r[i]])
  }

  // ---------- the heap ----------

  /** The block at `k` has changed and is sifted into place. */
  function Fixed(b: seq<PageFree>, k: nat): (c: seq<PageFree>)
    requires k < |b|
    ensures |c| == |b|
  {
    Arranged(b, MaxHeap.Fix(Places(|b|), Sizes(b), k))
  }

  function Pushed(b: seq<PageFree>, x: PageFree): (c: seq<PageFree>)
    ensures |c| == |b| + 1
  {
    Arranged(b + [x], MaxHeap.Push(Places(|b|), Sizes(b + [x]), |b|))
  }

  function Removed(b: seq<PageFree>, k: nat): (c: seq<PageFree>)
    requires k < |b|
    ensures |c| == |b| - 1
  {
    Arranged(b, MaxHeap.Remove(Places(|b|), Sizes(b), k))
  }

  ghost predicate InOrder(b: seq<PageFree>)
  {
    Ordered(Places(|b|), Sizes(b))
  }

  function End(x: PageFree): nat
  {
    x.offset + x.pages
  }

  /** The place of the first block that starts at `o`, if there is one. */
  function StartingAt(b: seq<PageFree>, o: nat): (k: nat)
    ensures k <= |b| && (k < |b| ==> b[k].offset == o) && forall i :: 0 <= i < k ==> b[i].offset != o
  {
    if b == [] then 0
    else
      var k := StartingAt(b[..|b| - 1], o);
      assert forall i :: 0 <= i < |b| - 1 ==> b[..|b| - 1][i] == b[i];
      if k < |b| - 1 || b[k].offset == o then k else |b|
  }

  /** The place of the first block that ends at `o`, if there is one. */
  function EndingAt(b: seq<PageFree>, o: nat): (k: nat)
    ensures k <= |b| && (k < |b| ==> End(b[k]) == o) && forall i :: 0 <= i < k ==> End(b[i]) != o
  {
    if b == [] then 0
    else
      var k := EndingAt(b[..|b| - 1], o);
      assert forall i :: 0 <= i < |b| - 1 ==> b[..|b| - 1][i] == b[i];
      if k < |b| - 1 || End(b[k]) == o then k else |b|
  }

  /** The largest block that can answer the request, as the search sees it. */
  function Found(b: seq<PageFree>, q: Request): (r: Option<Spot>)
    ensures r.Some? ==> r.value.id < |b|
  {
    PageBisect(Places(|b|), Offsets(b), Sizes(b), 0, q)
  }

  /** `n` pages are cut out of a block, `left` pages from its start. */
  function Cut(b: seq<PageFree>, k: nat, left: nat, n: nat): seq<PageFree>
    requires k < |b| && left + n <= b[k].pages
  {
    var x := b[k];
    if left == 0 then
      if n < x.pages then Fixed(b[k := PageFree(x.offset + n, x.pages - n)], k) else Removed(b, k)
    else
      var c := Fixed(b[k := PageFree(x.offset, left)], k);
      if left + n < x.pages then Pushed(c, PageFree(x.offset + left + n, x.pages - left - n)) else c
  }

  lemma CutUnfolds(b: seq<PageFree>, k: nat, left: nat, n: nat, o: nat, size: nat)
    requires k < |b| && b[k] == PageFree(o, size) && left + n <= size
    ensures left == 0 && n < size ==> Cut(b, k, left, n) == Fixed(b[k := PageFree(o + n, size - n)], k)
    ensures left == 0 && n == size ==> Cut(b, k, left, n) == Removed(b, k)
    ensures left > 0 && left + n == size ==> Cut(b, k, left, n) == Fixed(b[k := PageFree(o, left)], k)
    ensures left > 0 && left + n < size ==>
      Cut(b, k, left, n) == Pushed(Fixed(b[k := PageFree(o, left)], k), PageFree(o + left + n, size - left - n))
  {
    hide Fixed, Pushed, Removed;
  }

  /** What comes of a request for pages. */
  datatype Answer = Answer(offset: Option<nat>, image: Image)

  /** Pages are taken where the search says. */
  function Take(v: Image, q: Request): Answer
  {
    match Found(v.heap, q)
    case Some(p) =>
      if p.left + q.pages <= v.heap[p.id].pages then
        Answer(Some(v.heap[p.id].offset + p.left), v.(heap := Cut(v.heap, p.id, p.left, q.pages)))
      else Answer(None, v)
    case None => Answer(None, v)
  }

  /** Pages are taken from the start of the block that starts at `o`. */
  function TakeAt(v: Image, o: nat, n: nat): Answer
  {
    var k := StartingAt(v.heap, o);
    if k < |v.heap| && v.heap[k].pages >= n then Answer(Some(o), v.(heap := Cut(v.heap, k, 0, n)))
    else Answer(None, v)
  }

  // ---------- merging ----------

  /** A run of merges under way: `run` is in the heap as well, where it began in a free block. */
  datatype Growing = Growing(heap: seq<PageFree>, run: PageFree, inside: bool)

  function Grow(m: Growing, n: nat): (r: Growing)
    ensures |r.heap| == |m.heap|
  {
    var run, k := PageFree(m.run.offset, m.run.pages + n), StartingAt(m.heap, m.run.offset);
    Growing(if m.inside && k < |m.heap| then m.heap[k := run] else m.heap, run, m.inside)
  }

  /** The first batched block is added to the free block before it, if there is one. */
  function Start(heap: seq<PageFree>, x: PageFree): Growing
  {
    var k := EndingAt(heap, x.offset);
    if k < |heap| then Grow(Growing(heap, heap[k], true), x.pages) else Growing(heap, x, false)
  }

  /** Erasing the block at `k` would trap an entry below the run. */
  ghost predicate Hazardous(m: Growing, k: nat)
  {
    var e := StartingAt(m.heap, m.run.offset);
    m.inside && k < |m.heap| && e < |m.heap| && Hazard(Places(|m.heap|), Sizes(m.heap), k, e)
  }

  /** One step of a run: the next batched block joins it, or else a free one does. */
  datatype Stepped = Stepped(run: Growing, rest: seq<PageFree>, more: bool, hazard: bool)

  ghost function Step(m: Growing, l: seq<PageFree>): (r: Stepped)
    ensures r.more ==> |r.run.heap| + |r.rest| < |m.heap| + |l|
    ensures |r.rest| <= |l| && |r.run.heap| <= |m.heap|
  {
    var k := StartingAt(m.heap, End(m.run));
    if l != [] && l[0].offset == End(m.run) then Stepped(Grow(m, l[0].pages), l[1..], true, false)
    else if k < |m.heap| then
      var g := Grow(m, m.heap[k].pages);
      Stepped(g.(heap := Removed(g.heap, k)), l, true, Hazardous(g, k))
    else Stepped(m, l, false, false)
  }

  ghost function Extend(m: Growing, l: seq<PageFree>): (r: Stepped)
    ensures |r.rest| <= |l|
    decreases |m.heap| + |l|
  {
    var t := Step(m, l);
    if t.more then
      var r := Extend(t.run, t.rest);
      r.(hazard := t.hazard || r.hazard)
    else t
  }

  /** What is left to do of a run under way leads to `t`. */
  ghost predicate Leads(t: Stepped, m: Growing, l: seq<PageFree>, hazard: bool)
  {
    var r := Extend(m, l);
    t == r.(hazard := hazard || r.hazard)
  }

  lemma LeadsOn(t: Stepped, m: Growing, l: seq<PageFree>, hazard: bool, s: Stepped)
    requires Leads(t, m, l, hazard) && s == Step(m, l)
    ensures if s.more then Leads(t, s.run, s.rest, hazard || s.hazard) else t == s.(hazard := hazard) && !s.hazard
  {
  }

  function Finish(m: Growing): seq<PageFree>
  {
    var k := StartingAt(m.heap, m.run.offset);
    if !m.inside then Pushed(m.heap, m.run) else if k < |m.heap| then Fixed(m.heap, k) else m.heap
  }

  datatype Merging = Merging(heap: seq<PageFree>, hazard: bool)

  /** The blocks, in order of offset, are merged run after run. */
  ghost function MergeRuns(heap: seq<PageFree>, l: seq<PageFree>): Merging
    decreases |l|
  {
    if l == [] then Merging(heap, false)
    else
      var t := Extend(Start(heap, l[0]), l[1..]);
      var r := MergeRuns(Finish(t.run), t.rest);
      r.(hazard := t.hazard || r.hazard)
  }

  /** What is left to merge leads to `t`. */
  ghost predicate Merges(t: Merging, heap: seq<PageFree>, l: seq<PageFree>, hazard: bool)
  {
    var r := MergeRuns(heap, l);
    t == r.(hazard := hazard || r.hazard)
  }

  lemma MergesOn(t: Merging, heap: seq<PageFree>, l: seq<PageFree>, hazard: bool, s: Stepped)
    requires Merges(t, heap, l, hazard) && l != [] && s == Extend(Start(heap, l[0]), l[1..])
    ensures Merges(t, Finish(s.run), s.rest, hazard || s.hazard)
  {
  }

  lemma MergesEnd(t: Merging, heap: seq<PageFree>, hazard: bool)
    requires Merges(t, heap, [], hazard)
    ensures t == Merging(heap, hazard)
  {
  }

  function Placed(l: seq<PageFree>, x: PageFree): seq<PageFree>
  {
    if l == [] || x.offset < l[0].offset then [x] + l else [l[0]] + Placed(l[1..], x)
  }

  function InOffsetOrder(l: seq<PageFree>): seq<PageFree>
  {
    if l == [] then [] else Placed(InOffsetOrder(l[..|l| - 1]), l[|l| - 1])
  }

  /** What merging the batch makes of the heap, and whether an erasure on the way is hazardous. */
  ghost function Merged(v: Image): Merging
  {
    MergeRuns(v.heap, InOffsetOrder(v.batch))
  }

  // ---------- the batch ----------

  /** The free and batched blocks after some merging, and whether an erasure was hazardous. */
  datatype Joined = Joined(image: Image, hazard: bool)

  /** The batch is merged, if there is one. */
  ghost function MergeBatch(v: Image): Joined
  {
    if v.batch == [] then Joined(v, false) else Joined(Image(Merged(v).heap, []), Merged(v).hazard)
  }

  /** Blocks join the batch one by one, and it is merged whenever it is full. */
  ghost function JoinAll(v: Image, l: seq<PageFree>, buffer: nat): (r: Joined)
    decreases |l|
  {
    if l == [] then Joined(v, false)
    else
      var j := JoinAll(v, l[..|l| - 1], buffer);
      var w := Image(j.image.heap, j.image.batch + [l[|l| - 1]]);
      if |w.batch| < buffer then Joined(w, j.hazard) else Joined(MergeBatch(w).image, j.hazard || MergeBatch(w).hazard)
  }

  lemma {:induction false} JoinMore(v: Image, a: seq<PageFree>, b: seq<PageFree>, buffer: nat)
    ensures var j := JoinAll(v, a, buffer);
      var k := JoinAll(j.image, b, buffer);
      JoinAll(v, a + b, buffer) == Joined(k.image, j.hazard || k.hazard)
    decreases |b|
  {
    hide MergeBatch;
    if b == [] {
      assert a + b == a;
    } else {
      var n := |b| - 1;
      JoinMore(v, a, b[..n], buffer);
      assert (a + b)[..|a + b| - 1] == a + b[..n] && (a + b)[|a + b| - 1] == b[n];
    }
  }

  lemma JoinOne(v: Image, x: PageFree, buffer: nat)
    ensures var w := Image(v.heap, v.batch + [x]);
      JoinAll(v, [x], buffer) == if |w.batch| < buffer then Joined(w, false) else MergeBatch(w)
  {
    assert [x][..0] == [];
    hide Merged;
  }

  /** What is left of a batch that these blocks join one by one and that is emptied whenever it is full: the
      last of them, after as many full batches as there are.  When they never fill it, all are left. */
  function Leftover(l: seq<PageFree>, buffer: nat): seq<PageFree>
    requires buffer > 0
  {
    l[|l| - |l| % buffer..]
  }

  lemma LeftoverNext(l: seq<PageFree>, x: PageFree, buffer: nat)
    requires buffer > 0
    ensures var r := Leftover(l, buffer);
      |r| < buffer && Leftover(l + [x], buffer) == if |r| + 1 < buffer then r + [x] else []
  {
    CountsUp(|l|, buffer);
  }

  lemma LeftoverFew(l: seq<PageFree>, buffer: nat)
    requires |l| < buffer
    ensures Leftover(l, buffer) == l
  {
    CountsUp(|l|, buffer);
  }

  lemma {:induction false} JoinLeaves(v: Image, l: seq<PageFree>, buffer: nat)
    requires buffer > 0 && |v.batch| < buffer
    ensures JoinAll(v, l, buffer).image.batch == Leftover(v.batch + l, buffer)
    decreases |l|
  {
    hide Merged, Leftover;
    if l == [] {
      LeftoverFew(v.batch, buffer);
      assert v.batch + l == v.batch;
    } else {
      var front, x := l[..|l| - 1], l[|l| - 1];
      JoinLeaves(v, front, buffer);
      LeftoverNext(v.batch + front, x, buffer);
      assert v.batch + l == v.batch + front + [x];
    }
  }

  /** The pages of the batch. */
  function Total(l: seq<PageFree>): nat
  {
    if l == [] then 0 else Total(l[..|l| - 1]) + l[|l| - 1].pages
  }

  /** The batch is merged if it has many pages. */
  ghost function MergeMany(v: Image, buffer: nat): Joined
  {
    if Total(v.batch) < buffer then Joined(v, false) else MergeBatch(v)
  }

  /** Some batched block starts at or before `o`, and some at or after it. */
  ghost predicate Straddles(l: seq<PageFree>, o: nat)
  {
    (exists i :: 0 <= i < |l| && l[i].offset <= o) && (exists i :: 0 <= i < |l| && o <= l[i].offset)
  }

  ghost predicate Rising(l: seq<PageFree>)
  {
    forall i, j :: 0 <= i < j < |l| ==> l[i].offset < l[j].offset
  }

  lemma {:induction false} PlacedRises(l: seq<PageFree>, x: PageFree)
    requires Rising(l) && forall i :: 0 <= i < |l| ==> l[i].offset != x.offset
    ensures Rising(Placed(l, x)) && forall y :: y in Placed(l, x) <==> y in l || y == x
  {
    if l != [] && l[0].offset <= x.offset {
      var t := l[1..];
      PlacedRises(t, x);
      assert forall y :: y in l <==> y == l[0] || y in t;
      var r := Placed(l, x);
      forall j | 0 < j < |r| ensures r[0].offset < r[j].offset {
        assert r[j] in Placed(t, x);
      }
      forall i, j | 0 <= i < j < |r| ensures r[i].offset < r[j].offset {
        if i > 0 { assert r[i] == Placed(t, x)[i - 1] && r[j] == Placed(t, x)[j - 1]; }
      }
    }
  }

  /** Sorting blocks that start at different pages. */
  lemma {:induction false} SortedRises(l: seq<PageFree>)
    requires forall i, j :: 0 <= i < j < |l| ==> l[i].offset != l[j].offset
    ensures Rising(InOffsetOrder(l)) && forall y :: y in InOffsetOrder(l) <==> y in l
  {
    if l != [] {
      var n := |l| - 1;
      SortedRises(l[..n]);
      var r := InOffsetOrder(l[..n]);
      forall i | 0 <= i < |r| ensures r[i].offset != l[n].offset {
        assert r[i] in l[..n];
      }
      PlacedRises(r, l[n]);
      assert l == l[..n] + [l[n]];
    }
  }

  lemma FirstIn(l: seq<PageFree>)
    ensures l != [] ==> l[0] in l
  {
  }

  lemma {:induction false} RisingUnique(a: seq<PageFree>, b: seq<PageFree>)
    requires Rising(a) && Rising(b) && forall y :: y in a <==> y in b
    ensures a == b
  {
    FirstIn(b);
    if a != [] {
      assert a[0] in b;
      assert b[0] in a;
      assert a[0] == b[0];
      assert forall y :: y in a <==> y == a[0] || y in a[1..];
      assert forall y :: y in b <==> y == b[0] || y in b[1..];
      RisingUnique(a[1..], b[1..]);
    }
  }

  // ---------- what the heap of nodes makes of them ----------

  /** `h` are nodes that `base` gives for the places in `g`. */
  ghost predicate Tracks(h: seq<nat>, size: seq<nat>, g: seq<nat>, size': seq<nat>, base: seq<nat>)
  {
    && |h| == |g| && |size'| == |base|
    && (forall j :: 0 <= j < |base| ==> base[j] < |size| && size'[j] == size[base[j]])
    && forall i :: 0 <= i < |h| ==> g[i] < |base| && h[i] == base[g[i]]
  }

  lemma TracksKeys(h: seq<nat>, size: seq<nat>, g: seq<nat>, size': seq<nat>, base: seq<nat>)
    requires Tracks(h, size, g, size', base)
    ensures Sized(h, size) && Sized(g, size') && forall i :: 0 <= i < |h| ==> Key(g, size', i) == Key(h, size, i)
  {
  }

  lemma {:induction false} SiftDownTracks(h: seq<nat>, size: seq<nat>, g: seq<nat>, size': seq<nat>, base: seq<nat>,
                                          pos: nat)
    requires Tracks(h, size, g, size', base) && pos < |h|
    ensures Sized(h, size) && Sized(g, size')
    ensures Tracks(SiftDown(h, size, pos), size, SiftDown(g, size', pos), size', base)
    decreases |h| - pos
  {
    TracksKeys(h, size, g, size', base);
    var best := Largest(h, size, pos);
    assert Largest(g, size', pos) == best;
    if best != pos {
      LargestChild(h, size, pos);
      SiftDownTracks(Swap(h, pos, best), size, Swap(g, pos, best), size', base, best);
    }
  }

  lemma {:induction false} SiftUpTracks(h: seq<nat>, size: seq<nat>, g: seq<nat>, size': seq<nat>, base: seq<nat>,
                                        pos: nat)
    requires Tracks(h, size, g, size', base) && pos < |h|
    ensures Sized(h, size) && Sized(g, size')
    ensures Tracks(SiftUp(h, size, pos), size, SiftUp(g, size', pos), size', base)
    decreases pos
  {
    TracksKeys(h, size, g, size', base);
    if pos > 0 && Key(h, size, pos) > Key(h, size, Parent(pos)) {
      SiftUpTracks(Swap(h, pos, Parent(pos)), size, Swap(g, pos, Parent(pos)), size', base, Parent(pos));
    }
  }

  lemma FixTracks(h: seq<nat>, size: seq<nat>, g: seq<nat>, size': seq<nat>, base: seq<nat>, pos: nat)
    requires Tracks(h, size, g, size', base) && pos < |h|
    ensures Sized(h, size) && Sized(g, size')
    ensures Tracks(MaxHeap.Fix(h, size, pos), size, MaxHeap.Fix(g, size', pos), size', base)
  {
    SiftDownTracks(h, size, g, size', base, pos);
    SiftUpTracks(SiftDown(h, size, pos), size, SiftDown(g, size', pos), size', base, pos);
  }

  lemma RemoveTracks(h: seq<nat>, size: seq<nat>, g: seq<nat>, size': seq<nat>, base: seq<nat>, pos: nat)
    requires Tracks(h, size, g, size', base) && pos < |h|
    ensures Sized(h, size) && Sized(g, size')
    ensures Tracks(MaxHeap.Remove(h, size, pos), size, MaxHeap.Remove(g, size', pos), size', base)
  {
    TracksKeys(h, size, g, size', base);
    assert Tracks(Fill(h, pos), size, Fill(g, pos), size', base);
    if pos < |h| - 1 { FixTracks(Fill(h, pos), size, Fill(g, pos), size', base, pos); }
  }

  /** The blocks of nodes. */
  ghost function BlocksOf(off: seq<nat>, size: seq<nat>, l: seq<nat>): (b: seq<PageFree>)
    ensures |b| == |l|
    ensures forall k :: 0 <= k < |l| && l[k] < |off| && l[k] < |size| ==> b[k] == PageFree(off[l[k]], size[l[k]])
  {
    seq(|l|, k requires 0 <= k < |l| => BlockOf(off, size, l[k]))
  }

  ghost function BlockOf(off: seq<nat>, size: seq<nat>, i: nat): PageFree
  {
    if i < |off| && i < |size| then PageFree(off[i], size[i]) else PageFree(0, 0)
  }

  lemma PlacesTrack(off: seq<nat>, size: seq<nat>, h: seq<nat>)
    requires Sized(h, off) && Sized(h, size)
    ensures Tracks(h, size, Places(|h|), Sizes(BlocksOf(off, size, h)), h)
  {
  }

  lemma ArrangedAlike(off: seq<nat>, size: seq<nat>, base: seq<nat>, h: seq<nat>, g: seq<nat>, size': seq<nat>)
    requires Sized(base, off) && Tracks(h, size, g, size', base)
    ensures BlocksOf(off, size, h) == Arranged(BlocksOf(off, size, base), g)
  {
  }

  lemma FixShown(off: seq<nat>, size: seq<nat>, h: seq<nat>, k: nat)
    requires Sized(h, off) && Sized(h, size) && k < |h|
    ensures BlocksOf(off, size, MaxHeap.Fix(h, size, k)) == Fixed(BlocksOf(off, size, h), k)
  {
    var g, s := Places(|h|), Sizes(BlocksOf(off, size, h));
    PlacesTrack(off, size, h);
    FixTracks(h, size, g, s, h, k);
    ArrangedAlike(off, size, h, MaxHeap.Fix(h, size, k), MaxHeap.Fix(g, s, k), s);
  }

  lemma RemoveShown(off: seq<nat>, size: seq<nat>, h: seq<nat>, k: nat)
    requires Sized(h, off) && Sized(h, size) && k < |h|
    ensures BlocksOf(off, size, MaxHeap.Remove(h, size, k)) == Removed(BlocksOf(off, size, h), k)
  {
    var g, s := Places(|h|), Sizes(BlocksOf(off, size, h));
    PlacesTrack(off, size, h);
    RemoveTracks(h, size, g, s, h, k);
    ArrangedAlike(off, size, h, MaxHeap.Remove(h, size, k), MaxHeap.Remove(g, s, k), s);
  }

  lemma PushShown(off: seq<nat>, size: seq<nat>, h: seq<nat>, id: nat)
    requires Sized(h, off) && Sized(h, size) && id < |off| && id < |size|
    ensures BlocksOf(off, size, MaxHeap.Push(h, size, id))
         == Pushed(BlocksOf(off, size, h), PageFree(off[id], size[id]))
  {
    var base := h + [id];
    var b := BlocksOf(off, size, h) + [PageFree(off[id], size[id])];
    assert b == BlocksOf(off, size, base);
    assert Places(|h|) + [|h|] == Places(|base|);
    PlacesTrack(off, size, base);
    SiftUpTracks(base, size, Places(|base|), Sizes(b), base, |h|);
    ArrangedAlike(off, size, base, SiftUp(base, size, |h|), SiftUp(Places(|base|), Sizes(b), |h|), Sizes(b));
  }

  /** One node's block changes. */
  lemma SetShown(off: seq<nat>, size: seq<nat>, off': seq<nat>, size': seq<nat>, h: seq<nat>, k: nat, o: nat, n: nat)
    requires Sized(h, off) && Sized(h, size) && k < |h| && forall i :: 0 <= i < |h| && i != k ==> h[i] != h[k]
    requires off' == off[h[k] := o] && size' == size[h[k] := n]
    ensures BlocksOf(off', size', h) == BlocksOf(off, size, h)[k := PageFree(o, n)]
  {
  }

  /** Other nodes do not show. */
  lemma SameShown(off: seq<nat>, size: seq<nat>, off': seq<nat>, size': seq<nat>, h: seq<nat>)
    requires forall i :: i in h ==> BlockOf(off', size', i) == BlockOf(off, size, i)
    ensures BlocksOf(off', size', h) == BlocksOf(off, size, h)
  {
  }

  lemma OrderShown(off: seq<nat>, size: seq<nat>, h: seq<nat>)
    requires Sized(h, off) && Sized(h, size)
    ensures InOrder(BlocksOf(off, size, h)) <==> Ordered(h, size)
  {
    var b := BlocksOf(off, size, h);
    PlacesTrack(off, size, h);
    TracksKeys(h, size, Places(|h|), Sizes(b), h);
    forall i | 0 < i < |h| ensures Edge(Places(|h|), Sizes(b), i) <==> Edge(h, size, i) {
    }
  }

  lemma HazardShown(off: seq<nat>, size: seq<nat>, h: seq<nat>, k: nat, e: nat)
    requires Sized(h, off) && Sized(h, size) && k < |h| && e < |h|
    ensures Hazard(Places(|h|), Sizes(BlocksOf(off, size, h)), k, e) <==> Hazard(h, size, k, e)
  {
    PlacesTrack(off, size, h);
    TracksKeys(h, size, Places(|h|), Sizes(BlocksOf(off, size, h)), h);
  }

  /** The search finds the same block under any names. */
  lemma {:induction false} BisectShown(off: seq<nat>, size: seq<nat>, h: seq<nat>, pos: nat, q: Request)
    requires Sized(h, off) && Sized(h, size)
    ensures var b := BlocksOf(off, size, h);
      var r := PageBisect(Places(|b|), Offsets(b), Sizes(b), pos, q);
      PageBisect(h, off, size, pos, q)
      == if r.None? then None else Some(Spot(h[r.value.id], r.value.left))
    decreases |h| - pos
  {
    var b := BlocksOf(off, size, h);
    hide Place;
    if pos < |h| && size[h[pos]] >= q.pages && Place(off[h[pos]], size[h[pos]], q).None? {
      BisectShown(off, size, h, 2 * pos + 1, q);
      BisectShown(off, size, h, 2 * pos + 2, q);
    }
  }
}
