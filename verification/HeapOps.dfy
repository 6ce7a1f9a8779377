/** The heap operations as the allocator runs them, over an array of node ids and the
    back-index each node keeps into it. */
module HeapOps {
  import opened Options
  import opened MaxHeap

  /** Every entry's node knows the entry's position. */
  ghost predicate Linked(heap: seq<nat>, h: seq<nat>)
  {
    forall i :: 0 <= i < |h| ==> h[i] < |heap| && heap[h[i]] == i
  }

  /** Only back-indices of the given ids may have changed. */
  ghost predicate KeepsOthers(heap: seq<nat>, heap': seq<nat>, ids: multiset<nat>)
  {
    |heap'| == |heap| && forall i :: 0 <= i < |heap| && i !in ids ==> heap'[i] == heap[i]
  }

  lemma KeepsMore(a: seq<nat>, b: seq<nat>, ids: multiset<nat>, ids': multiset<nat>)
    requires KeepsOthers(a, b, ids) && ids <= ids'
    ensures KeepsOthers(a, b, ids')
  {
  }

  lemma KeepsTrans(a: seq<nat>, b: seq<nat>, c: seq<nat>, ids: multiset<nat>)
    requires KeepsOthers(a, b, ids) && KeepsOthers(b, c, ids)
    ensures KeepsOthers(a, c, ids)
  {
  }

  lemma KeepsSelf(a: seq<nat>, ids: multiset<nat>)
    ensures KeepsOthers(a, a, ids)
  {
  }

  lemma DownStep(h: seq<nat>, size: seq<nat>, pos: nat, best: nat)
    requires pos < |h| && best < |h| && Sized(h, size) && best == Largest(h, size, pos)
    ensures if best == pos then SiftDown(h, size, pos) == h
            else pos < best && Sized(Swap(h, pos, best), size)
                 && SiftDown(h, size, pos) == SiftDown(Swap(h, pos, best), size, best)
  {
    LargestChild(h, size, pos);
  }

  lemma UpStep(h: seq<nat>, size: seq<nat>, pos: nat, parent: nat)
    requires 0 < pos < |h| && Sized(h, size) && parent == (pos - 1) / 2
    ensures if size[h[pos]] > size[h[parent]]
            then Sized(Swap(h, pos, parent), size)
                 && SiftUp(h, size, pos) == SiftUp(Swap(h, pos, parent), size, parent)
            else SiftUp(h, size, pos) == h
  {
    assert parent == Parent(pos);
  }

  lemma UpRoot(h: seq<nat>, size: seq<nat>)
    requires |h| > 0 && Sized(h, size)
    ensures SiftUp(h, size, 0) == h
  {
  }

  lemma LastInHeap(heap: seq<nat>, h: seq<nat>)
    requires Linked(heap, h) && h != []
    ensures h[|h| - 1] < |heap|
  {
  }

  lemma FillLinked(heap: seq<nat>, h: seq<nat>, pos: nat)
    requires Linked(heap, h) && pos < |h| && h[pos] < |heap| && h[|h| - 1] < |heap|
    ensures var heap' := heap[h[|h| - 1] := pos][h[pos] := NIL];
      Linked(heap', Fill(h, pos)) && KeepsOthers(heap, heap', multiset(h))
    ensures Fill(h, pos) == h[pos := h[|h| - 1]][..|h| - 1]
  {
    assert h[pos] in multiset(h) && h[|h| - 1] in multiset(h);
  }

  lemma AtBackIndex(heap: seq<nat>, h: seq<nat>, id: nat)
    requires Linked(heap, h) && id in h
    ensures id < |heap| && heap[id] < |h| && h[heap[id]] == id
    ensures h[|h| - 1] < |heap|
  {
    var k :| 0 <= k < |h| && h[k] == id;
  }

  lemma RemoveSteps(h: seq<nat>, size: seq<nat>, pos: nat)
    requires pos < |h| && Sized(h, size)
    ensures Sized(Fill(h, pos), size) && multiset(Fill(h, pos)) <= multiset(h)
    ensures Remove(h, size, pos)
            == if pos < |h| - 1 then MaxHeap.Fix(Fill(h, pos), size, pos) else Fill(h, pos)
  {
  }

  method SwapEntries(heap: array<nat>, entries: array<nat>, ghost n: nat, lhs: nat, rhs: nat)
    requires heap != entries && lhs < n <= entries.Length && rhs < n && lhs != rhs
    requires Linked(heap[..], entries[..n])
    modifies heap, entries
    ensures entries[..n] == Swap(old(entries[..n]), lhs, rhs)
    ensures entries[n..] == old(entries[n..])
    ensures Linked(heap[..], entries[..n])
    ensures KeepsOthers(old(heap[..]), heap[..], multiset(old(entries[..n])))
  {
    var a, b := entries[lhs], entries[rhs];
    ghost var h := entries[..n];
    assert h[lhs] in multiset(h) && h[rhs] in multiset(h);
    entries[lhs] := b;
    entries[rhs] := a;
    heap[a] := rhs;
    heap[b] := lhs;
  }

  /** The child that the loop below picks. */
  method LargestEntry(size: array<nat>, entries: array<nat>, n: nat, pos: nat) returns (best: nat)
    requires pos < n <= entries.Length && Sized(entries[..n], size[..])
    ensures best == Largest(entries[..n], size[..], pos) && pos <= best < n
  {
    ghost var h := entries[..n];
    var left := pos * 2 + 1;
    var right := left + 1;
    best := pos;
    if left < n && size[entries[left]] > size[entries[best]] { best := left; }
    assert best == Larger(h, size[..], pos, left);
    if right < n && size[entries[right]] > size[entries[best]] { best := right; }
  }

  method HeapifyDown(size: array<nat>, heap: array<nat>, entries: array<nat>, n: nat, start: nat)
    returns (pos: nat)
    requires heap != entries && size != heap && size != entries && start < n <= entries.Length
    requires Sized(entries[..n], size[..]) && Linked(heap[..], entries[..n])
    modifies heap, entries
    ensures entries[..n] == SiftDown(old(entries[..n]), size[..], start)
    ensures entries[n..] == old(entries[n..])
    ensures Linked(heap[..], entries[..n])
    ensures KeepsOthers(old(heap[..]), heap[..], multiset(old(entries[..n])))
  {
    hide Linked, KeepsOthers, Largest, Sized, SiftDown, Swap;
    ghost var h, heap0 := entries[..n], heap[..];
    KeepsSelf(heap0, multiset(h));
    pos := start;
    while true
      invariant start <= pos < n && entries[n..] == old(entries[n..])
      invariant Linked(heap[..], entries[..n]) && multiset(entries[..n]) == multiset(h)
      invariant Sized(entries[..n], size[..])
      invariant SiftDown(entries[..n], size[..], pos) == SiftDown(h, size[..], start)
      invariant KeepsOthers(heap0, heap[..], multiset(h))
      decreases n - pos
    {
      ghost var g, heap1 := entries[..n], heap[..];
      var best := LargestEntry(size, entries, n, pos);
      DownStep(g, size[..], pos, best);
      if best == pos { break; }
      SwapEntries(heap, entries, n, pos, best);
      KeepsTrans(heap0, heap1, heap[..], multiset(h));
      pos := best;
    }
  }

  method HeapifyUp(size: array<nat>, heap: array<nat>, entries: array<nat>, ghost n: nat, start: nat)
    returns (pos: nat)
    requires heap != entries && size != heap && size != entries && start < n <= entries.Length
    requires Sized(entries[..n], size[..]) && Linked(heap[..], entries[..n])
    modifies heap, entries
    ensures entries[..n] == SiftUp(old(entries[..n]), size[..], start)
    ensures entries[n..] == old(entries[n..])
    ensures Linked(heap[..], entries[..n])
    ensures KeepsOthers(old(heap[..]), heap[..], multiset(old(entries[..n])))
  {
    hide Linked, KeepsOthers, SiftUp, Swap;
    ghost var h, heap0 := entries[..n], heap[..];
    KeepsSelf(heap0, multiset(h));
    pos := start;
    while pos > 0
      invariant pos < n && entries[n..] == old(entries[n..])
      invariant Linked(heap[..], entries[..n]) && multiset(entries[..n]) == multiset(h)
      invariant Sized(entries[..n], size[..])
      invariant SiftUp(entries[..n], size[..], pos) == SiftUp(h, size[..], start)
      invariant KeepsOthers(heap0, heap[..], multiset(h))
    {
      var parent := (pos - 1) / 2;
      ghost var g, heap1 := entries[..n], heap[..];
      UpStep(g, size[..], pos, parent);
      if size[entries[pos]] > size[entries[parent]] {
        SwapEntries(heap, entries, n, pos, parent);
        KeepsTrans(heap0, heap1, heap[..], multiset(h));
        pos := parent;
      } else {
        break;
      }
    }
    UpRoot(entries[..n], size[..]);
  }

  method Insert(size: array<nat>, heap: array<nat>, entries: array<nat>, n: nat, id: nat) returns (n': nat)
    requires heap != entries && size != heap && size != entries && n < entries.Length
    requires id < heap.Length && id < size.Length
    requires Sized(entries[..n], size[..]) && Linked(heap[..], entries[..n]) && id !in entries[..n]
    modifies heap, entries
    ensures n' == n + 1
    ensures entries[..n'] == Push(old(entries[..n]), size[..], id)
    ensures Linked(heap[..], entries[..n'])
    ensures KeepsOthers(old(heap[..]), heap[..], multiset(old(entries[..n])) + multiset{id})
  {
    ghost var h, heap0 := entries[..n], heap[..];
    entries[n] := id;
    heap[id] := n;
    assert entries[..n + 1] == h + [id];
    ghost var heap1 := heap[..];
    assert KeepsOthers(heap0, heap1, multiset(h) + multiset{id});
    var _ := HeapifyUp(size, heap, entries, n + 1, n);
    KeepsTrans(heap0, heap1, heap[..], multiset(h) + multiset{id});
    n' := n + 1;
  }

  /** The last of the first `n` entries takes the place of the one at `pos`. */
  lemma FillsGap(all: seq<nat>, n: nat, pos: nat)
    requires pos < n <= |all|
    ensures all[pos := all[n - 1]][..n - 1] == Fill(all[..n], pos)
  {
  }

  /** Moves the last entry into the place of `id`'s, which leaves the heap. */
  method Unlink(heap: array<nat>, entries: array<nat>, n: nat, id: nat) returns (pos: nat)
    requires heap != entries && n <= entries.Length
    requires Linked(heap[..], entries[..n]) && id in entries[..n]
    modifies heap, entries
    ensures id < heap.Length && pos == old(heap[id]) < n && old(entries[pos]) == id
    ensures entries[..n - 1] == Fill(old(entries[..n]), pos)
    ensures Linked(heap[..], entries[..n - 1])
    ensures KeepsOthers(old(heap[..]), heap[..], multiset(old(entries[..n])))
  {
    hide Linked, KeepsOthers, Fill;
    ghost var all: seq<nat>, h: seq<nat>, heap0: seq<nat> := entries[..], entries[..n], heap[..];
    AtBackIndex(heap0, h, id);
    pos := heap[id];
    LastInHeap(heap0, h);
    FillLinked(heap0, h, pos);
    var last := entries[n - 1];
    entries[pos] := last;
    assert entries[..] == all[pos := last];
    FillsGap(all, n, pos);
    heap[last] := pos;
    heap[id] := NIL;
    assert heap[..] == heap0[last := pos][id := NIL];
  }

  method Erase(size: array<nat>, heap: array<nat>, entries: array<nat>, n: nat, id: nat) returns (n': nat)
    requires heap != entries && size != heap && size != entries && n <= entries.Length
    requires Sized(entries[..n], size[..]) && Linked(heap[..], entries[..n]) && id in entries[..n]
    modifies heap, entries
    ensures id < heap.Length && old(heap[id]) < n && old(entries[heap[id]]) == id
    ensures n' == n - 1
    ensures entries[..n'] == Remove(old(entries[..n]), size[..], old(heap[id]))
    ensures Linked(heap[..], entries[..n'])
    ensures KeepsOthers(old(heap[..]), heap[..], multiset(old(entries[..n])))
  {
    hide Linked, KeepsOthers, Fill, MaxHeap.Fix, Sized, Remove;
    ghost var h, heap0 := entries[..n], heap[..];
    var pos := Unlink(heap, entries, n, id);
    RemoveSteps(h, size[..], pos);
    n' := n - 1;
    if pos < n' {
      ghost var heap1 := heap[..];
      FixAt(size, heap, entries, n', pos);
      KeepsMore(heap1, heap[..], multiset(Fill(h, pos)), multiset(h));
      KeepsTrans(heap0, heap1, heap[..], multiset(h));
    }
  }

  /** Sifts the entry at `pos` down and then up, as erasing and fixing both do. */
  method FixAt(size: array<nat>, heap: array<nat>, entries: array<nat>, n: nat, pos: nat)
    requires heap != entries && size != heap && size != entries && pos < n <= entries.Length
    requires Sized(entries[..n], size[..]) && Linked(heap[..], entries[..n])
    modifies heap, entries
    ensures entries[..n] == MaxHeap.Fix(old(entries[..n]), size[..], pos)
    ensures Linked(heap[..], entries[..n])
    ensures KeepsOthers(old(heap[..]), heap[..], multiset(old(entries[..n])))
  {
    ghost var h, heap0 := entries[..n], heap[..];
    var _ := HeapifyDown(size, heap, entries, n, pos);
    ghost var heap1 := heap[..];
    assert multiset(entries[..n]) == multiset(h);
    var _ := HeapifyUp(size, heap, entries, n, pos);
    KeepsTrans(heap0, heap1, heap[..], multiset(h));
  }

  method Fix(size: array<nat>, heap: array<nat>, entries: array<nat>, n: nat, id: nat)
    requires heap != entries && size != heap && size != entries && n <= entries.Length
    requires Sized(entries[..n], size[..]) && Linked(heap[..], entries[..n]) && id in entries[..n]
    modifies heap, entries
    ensures id < heap.Length && old(heap[id]) < n && old(entries[heap[id]]) == id
    ensures entries[..n] == MaxHeap.Fix(old(entries[..n]), size[..], old(heap[id]))
    ensures Linked(heap[..], entries[..n])
    ensures KeepsOthers(old(heap[..]), heap[..], multiset(old(entries[..n])))
  {
    AtBackIndex(heap[..], entries[..n], id);
    var pos := heap[id];
    FixAt(size, heap, entries, n, pos);
  }
}
